/** The conversation list of a client, frontend-ui/src/hooks/useConversations.ts, next to the order the server
    would return. */
module ConversationList {
  import opened Domain
  import opened ConversationService
  import opened SocketRateLimit
  import opened AtomicServer
  import opened MessageValidator
  import opened Recency
  import opened Sanitize
  import Rooms
  import Runs
  import Since

  datatype Entry = Entry(id: ConversationId, lastMessage: Option<MessageId>)

  function Ids(list: seq<Entry>): (ids: seq<ConversationId>)
    ensures |ids| == |list| && forall i :: 0 <= i < |list| ==> ids[i] == list[i].id
  {
    seq(|list|, i requires 0 <= i < |list| => list[i].id)
  }

  /** Position of the first entry for c, or the length of the list. */
  function FindIndex(list: seq<Entry>, c: ConversationId): (n: nat)
    ensures n <= |list|
    ensures n < |list| ==> list[n].id == c
    ensures forall i :: 0 <= i < n ==> list[i].id != c
  {
    if list == [] || list[0].id == c then 0 else 1 + FindIndex(list[1..], c)
  }

  /** `message:new`: a known conversation moves to the front with its new last message. */
  function Bumped(list: seq<Entry>, c: ConversationId, m: MessageId): seq<Entry> {
    var n := FindIndex(list, c);
    if n == |list| then list else [list[n].(lastMessage := Some(m))] + list[..n] + list[n + 1..]
  }

  /** The first entry for the conversation is the new head; those before it move down by one, the others stay. */
  ghost predicate MovesToFront(prev: seq<Entry>, c: ConversationId, m: MessageId, n: nat, next: seq<Entry>) {
    && |next| == |prev| && n < |prev| && next[0] == Entry(c, Some(m))
    && (forall i :: 0 < i <= n ==> next[i] == prev[i - 1])
    && (forall i :: n < i < |prev| ==> next[i] == prev[i])
  }

  method BumpConversationWithMessage(prev: seq<Entry>, c: ConversationId, m: MessageId) returns (next: seq<Entry>)
    ensures next == Bumped(prev, c, m)
    ensures (forall i :: 0 <= i < |prev| ==> prev[i].id != c) ==> next == prev
    ensures forall n: nat :: n < |prev| && prev[n].id == c && (forall i :: 0 <= i < n ==> prev[i].id != c) ==>
                               MovesToFront(prev, c, m, n, next)
  {
    var idx := 0;
    while idx < |prev| && prev[idx].id != c
      invariant 0 <= idx <= |prev|
      invariant forall i :: 0 <= i < idx ==> prev[i].id != c
    {
      idx := idx + 1;
    }
    FirstIndex(prev, c, idx);
    if idx == |prev| {
      return prev;
    }
    var updated := prev[idx].(lastMessage := Some(m));
    next := prev;
    next := next[..idx] + next[idx + 1..];
    next := [updated] + next;
    assert next == Bumped(prev, c, m);
    assert MovesToFront(prev, c, m, idx, next);
  }

  lemma FirstIndex(list: seq<Entry>, c: ConversationId, n: nat)
    requires n <= |list| && (forall i :: 0 <= i < n ==> list[i].id != c) && (n < |list| ==> list[n].id == c)
    ensures FindIndex(list, c) == n
  {
  }

  /** `startConversation`: a conversation not yet in the list is put in front. */
  function Started(list: seq<Entry>, conversation: Entry): seq<Entry> {
    if FindIndex(list, conversation.id) < |list| then list else [conversation] + list
  }

  // ---------- The client's order and the server's ----------

  ghost predicate Follows(db: Store, u: UserId, x: Entry) {
    IsMember(db, x.id, u) && db.conversations[x.id].lastMessage == x.lastMessage
  }

  /** No conversation twice, each as stored, the most recently updated first. */
  ghost predicate InStep(db: Store, u: UserId, list: seq<Entry>) {
    && (forall i :: 0 <= i < |list| ==> Follows(db, u, list[i]))
    && (forall i, j :: 0 <= i < j < |list| ==> Newer(db, list[i].id, list[j].id))
  }

  predicate Newer(db: Store, c: ConversationId, d: ConversationId) {
    c in db.conversations && d in db.conversations && db.conversations[c].updatedAt > db.conversations[d].updatedAt
  }

  function Restrict(order: seq<ConversationId>, known: set<ConversationId>): seq<ConversationId> {
    if order == [] then []
    else (if order[0] in known then [order[0]] else []) + Restrict(order[1..], known)
  }

  function UpdatedAt(db: Store, known: set<ConversationId>): Times {
    map c | c in known && c in db.conversations :: db.conversations[c].updatedAt
  }

  lemma {:induction false} RestrictKeeps(db: Store, order: seq<ConversationId>, known: set<ConversationId>)
    requires NoDuplicates(order) && forall i :: 0 <= i < |order| ==> order[i] in db.conversations
    requires forall i, j :: 0 <= i < j < |order| ==>
        db.conversations[order[i]].updatedAt >= db.conversations[order[j]].updatedAt
    ensures NoDuplicates(Restrict(order, known)) && NewestFirst(UpdatedAt(db, known), Restrict(order, known))
    ensures forall c :: c in Restrict(order, known) <==> c in order && c in known
  {
    if order != [] {
      RestrictKeeps(db, order[1..], known);
      var rest := Restrict(order[1..], known);
      assert forall i :: 0 <= i < |rest| ==> rest[i] in rest && rest[i] in order[1..];
      assert forall c :: c in order <==> c == order[0] || c in order[1..];
    }
  }

  /** A list in step is the server's list, in whatever order the server breaks ties, restricted to the
      conversations the client knows. */
  lemma InStepIsServerOrder(db: Store, u: UserId, list: seq<Entry>, order: seq<ConversationId>)
    requires InStep(db, u, list) && IsServerOrder(db, u, order)
    ensures NoDuplicates(Ids(list)) && Restrict(order, Elements(Ids(list))) == Ids(list)
  {
    var ids := Ids(list);
    var known := Elements(ids);
    RestrictKeeps(db, order, known);
    InStepTimes(db, u, list);
    forall i | 0 <= i < |ids| ensures ids[i] in order {
      assert Follows(db, u, list[i]);
    }
    forall c ensures c in Restrict(order, known) <==> c in ids {
    }
    SortedUnique(UpdatedAt(db, known), Restrict(order, known), ids);
  }

  lemma InStepTimes(db: Store, u: UserId, list: seq<Entry>)
    requires InStep(db, u, list)
    ensures var times := UpdatedAt(db, Elements(Ids(list)));
            NoDuplicates(Ids(list)) && NewestFirst(times, Ids(list)) && DistinctTimes(times)
  {
  }

  // ---------- Starting a conversation ----------

  ghost predicate NewerThanAll(db: Store, c: ConversationId, list: seq<Entry>) {
    forall i :: 0 <= i < |list| ==> Newer(db, c, list[i].id)
  }

  lemma FrontInStep(db: Store, u: UserId, list: seq<Entry>, x: Entry)
    requires InStep(db, u, list) && Follows(db, u, x) && NewerThanAll(db, x.id, list)
    ensures InStep(db, u, [x] + list)
  {
  }

  lemma FrontIsNewest(db: Store, u: UserId, list: seq<Entry>, x: Entry)
    requires InStep(db, u, [x] + list)
    ensures NewerThanAll(db, x.id, list)
  {
    var next := [x] + list;
    forall i | 0 <= i < |list| ensures Newer(db, x.id, list[i].id) {
      assert next[i + 1] == list[i] && Newer(db, next[0].id, next[i + 1].id);
    }
  }

  /** Putting a conversation in front keeps the list in step exactly when it is known already or has been
      updated after every known one. An older 1:1 conversation, which creation returns instead of a new one,
      comes out of place if the client did not know it. */
  lemma StartKeepsInStepIff(db: Store, u: UserId, list: seq<Entry>, x: Entry)
    requires InStep(db, u, list) && Follows(db, u, x)
    ensures InStep(db, u, Started(list, x)) <==> x.id in Ids(list) || NewerThanAll(db, x.id, list)
  {
    var n := FindIndex(list, x.id);
    if n < |list| {
      assert Ids(list)[n] == x.id;
    } else {
      assert x.id !in Ids(list);
      if InStep(db, u, [x] + list) {
        FrontIsNewest(db, u, list, x);
      }
      if NewerThanAll(db, x.id, list) {
        FrontInStep(db, u, list, x);
      }
    }
  }

  // ---------- The client's account ----------

  /** Known conversations whose row does not show their newest message, and pairs of known conversations of which
      the first was put in front of the second without being newer. */
  datatype Ledger = Ledger(missed: set<ConversationId>, wrong: Pairs)

  type Pairs = set<(ConversationId, ConversationId)>

  const CLEAR := Ledger({}, {})

  function Without(pairs: Pairs, c: ConversationId): Pairs {
    set p | p in pairs && p.0 != c && p.1 != c
  }

  /** The account without conversation c. */
  function Except(ledger: Ledger, c: ConversationId): Ledger {
    Ledger(ledger.missed - {c}, Without(ledger.wrong, c))
  }

  /** The row does not show the conversation's newest message. */
  predicate Stale(db: Store, x: Entry) {
    x.id in db.conversations && db.conversations[x.id].lastMessage != x.lastMessage
  }

  function NotNewer(db: Store, c: ConversationId, list: seq<Entry>): Pairs {
    set i | 0 <= i < |list| && !Newer(db, c, list[i].id) :: (c, list[i].id)
  }

  ghost predicate RowTracked(db: Store, u: UserId, ledger: Ledger, x: Entry) {
    && IsMember(db, x.id, u)
    && (x.id in ledger.missed <==> db.conversations[x.id].lastMessage != x.lastMessage)
    && (x.lastMessage.Some? ==> x.lastMessage.value in db.messages)
  }

  predicate PairTracked(db: Store, ledger: Ledger, c: ConversationId, d: ConversationId) {
    c !in ledger.missed && d !in ledger.missed ==> ((c, d) in ledger.wrong <==> !Newer(db, c, d))
  }

  ghost predicate InOrder(list: seq<Entry>, c: ConversationId, d: ConversationId) {
    exists i, j :: 0 <= i < j < |list| && list[i].id == c && list[j].id == d
  }

  ghost predicate Tracks(db: Store, u: UserId, list: seq<Entry>, ledger: Ledger) {
    && NoDuplicates(Ids(list))
    && (forall i :: 0 <= i < |list| ==> RowTracked(db, u, ledger, list[i]))
    && (forall i, j :: 0 <= i < j < |list| ==> PairTracked(db, ledger, list[i].id, list[j].id))
    && (forall c :: c in ledger.missed ==> c in Ids(list))
    && (forall p :: p in ledger.wrong ==> InOrder(list, p.0, p.1))
  }

  /** The list is in step exactly when the account is clear. */
  lemma InStepIffClear(db: Store, u: UserId, list: seq<Entry>, ledger: Ledger)
    requires Tracks(db, u, list, ledger)
    ensures InStep(db, u, list) <==> ledger == CLEAR
  {
    if c :| c in ledger.missed {
      var i :| 0 <= i < |list| && Ids(list)[i] == c;
      assert RowTracked(db, u, ledger, list[i]);
      assert !Follows(db, u, list[i]);
    } else if p :| p in ledger.wrong {
      var i, j :| 0 <= i < j < |list| && list[i].id == p.0 && list[j].id == p.1;
      assert PairTracked(db, ledger, list[i].id, list[j].id);
      assert !Newer(db, list[i].id, list[j].id);
    } else {
      assert forall i :: 0 <= i < |list| ==> RowTracked(db, u, ledger, list[i]);
      assert forall i, j :: 0 <= i < j < |list| ==> PairTracked(db, ledger, list[i].id, list[j].id);
    }
  }

  /** The account after x was put in front of the list. */
  function Fronted(db: Store, ledger: Ledger, list: seq<Entry>, x: Entry): Ledger {
    Ledger(if Stale(db, x) then ledger.missed + {x.id} else ledger.missed, ledger.wrong + NotNewer(db, x.id, list))
  }

  /** Every stored `lastMessage` is a stored message. */
  ghost predicate LastStored(db: Store) {
    forall c :: c in db.conversations && db.conversations[c].lastMessage.Some? ==>
      db.conversations[c].lastMessage.value in db.messages
  }

  lemma InStepTracks(db: Store, u: UserId, list: seq<Entry>)
    requires InStep(db, u, list) && LastStored(db)
    ensures Tracks(db, u, list, CLEAR)
  {
    assert forall i :: 0 <= i < |list| ==> Follows(db, u, list[i]);
  }

  // ---------- What a step does to the list ----------

  /** `now` is later than every stored `updatedAt`. */
  predicate Later(db: Store, now: nat) {
    forall c :: c in db.conversations ==> db.conversations[c].updatedAt < now
  }

  ghost predicate SameRows(db: Store, db': Store, list: seq<Entry>) {
    && db.messages.Keys <= db'.messages.Keys
    && forall i :: 0 <= i < |list| && list[i].id in db.conversations ==>
         list[i].id in db'.conversations && db'.conversations[list[i].id] == db.conversations[list[i].id]
  }

  lemma SameRowsTrack(db: Store, db': Store, u: UserId, list: seq<Entry>, ledger: Ledger)
    requires Tracks(db, u, list, ledger) && SameRows(db, db', list)
    ensures Tracks(db', u, list, ledger)
  {
    forall i | 0 <= i < |list| ensures RowTracked(db', u, ledger, list[i]) {
      assert RowTracked(db, u, ledger, list[i]);
    }
    forall i, j | 0 <= i < j < |list| ensures PairTracked(db', ledger, list[i].id, list[j].id) {
      assert RowTracked(db, u, ledger, list[i]) && RowTracked(db, u, ledger, list[j]);
      assert PairTracked(db, ledger, list[i].id, list[j].id);
    }
  }

  /** The rows other than the n-th, in their order. */
  function Others(list: seq<Entry>, n: nat): (rest: seq<Entry>)
    requires n < |list|
    ensures |rest| == |list| - 1
    ensures forall i :: 0 <= i < |rest| ==> rest[i] == list[if i < n then i else i + 1]
  {
    list[..n] + list[n + 1..]
  }

  lemma OtherRow(db: Store, u: UserId, list: seq<Entry>, ledger: Ledger, n: nat, i: nat)
    requires Tracks(db, u, list, ledger) && n < |list| && i < |list| - 1
    ensures Others(list, n)[i].id != list[n].id && RowTracked(db, u, Except(ledger, list[n].id), Others(list, n)[i])
  {
    var k := if i < n then i else i + 1;
    assert Ids(list)[k] != Ids(list)[n] && RowTracked(db, u, ledger, list[k]);
  }

  lemma OtherPair(db: Store, u: UserId, list: seq<Entry>, ledger: Ledger, n: nat, i: int, j: int)
    requires Tracks(db, u, list, ledger) && n < |list| && 0 <= i < j < |list| - 1
    ensures var rest := Others(list, n);
            rest[i].id != rest[j].id && PairTracked(db, Except(ledger, list[n].id), rest[i].id, rest[j].id)
  {
    var k, l := if i < n then i else i + 1, if j < n then j else j + 1;
    OtherRow(db, u, list, ledger, n, i);
    OtherRow(db, u, list, ledger, n, j);
    assert Ids(list)[k] != Ids(list)[l] && PairTracked(db, ledger, list[k].id, list[l].id);
  }

  lemma OthersTrack(db: Store, u: UserId, list: seq<Entry>, ledger: Ledger, n: nat)
    requires Tracks(db, u, list, ledger) && n < |list|
    ensures list[n].id !in Ids(Others(list, n))
    ensures Tracks(db, u, Others(list, n), Except(ledger, list[n].id))
  {
    var c, rest, heard := list[n].id, Others(list, n), Except(ledger, list[n].id);
    forall i | 0 <= i < |rest| ensures Ids(rest)[i] != c && RowTracked(db, u, heard, rest[i]) {
      OtherRow(db, u, list, ledger, n, i);
    }
    forall i, j | 0 <= i < j < |rest|
      ensures Ids(rest)[i] != Ids(rest)[j] && PairTracked(db, heard, rest[i].id, rest[j].id)
    {
      OtherPair(db, u, list, ledger, n, i, j);
    }
    forall d | d in heard.missed ensures d in Ids(rest) {
      var k :| 0 <= k < |list| && Ids(list)[k] == d;
      assert Ids(rest)[if k < n then k else k - 1] == d;
    }
    forall p | p in heard.wrong ensures InOrder(rest, p.0, p.1) {
      OthersInOrder(list, n, p.0, p.1);
    }
  }

  lemma OthersInOrder(list: seq<Entry>, n: nat, c: ConversationId, d: ConversationId)
    requires n < |list| && InOrder(list, c, d) && c != list[n].id && d != list[n].id
    ensures InOrder(Others(list, n), c, d)
  {
    var rest := Others(list, n);
    var k, l :| 0 <= k < l < |list| && list[k].id == c && list[l].id == d;
    var i, j := if k < n then k else k - 1, if l < n then l else l - 1;
    assert rest[i].id == c && rest[j].id == d;
  }

  lemma WrongIsKnown(db: Store, u: UserId, list: seq<Entry>, ledger: Ledger, c: ConversationId, d: ConversationId)
    requires Tracks(db, u, list, ledger) && (c, d) in ledger.wrong
    ensures c in Ids(list)
  {
    assert InOrder(list, (c, d).0, (c, d).1);
    var i, j :| 0 <= i < j < |list| && list[i].id == c && list[j].id == d;
    assert Ids(list)[i] == c;
  }

  lemma FrontInOrder(list: seq<Entry>, x: Entry, c: ConversationId, d: ConversationId)
    requires InOrder(list, c, d) || (c == x.id && d in Ids(list))
    ensures InOrder([x] + list, c, d)
  {
    var next := [x] + list;
    if InOrder(list, c, d) {
      var i, j :| 0 <= i < j < |list| && list[i].id == c && list[j].id == d;
      assert next[i + 1].id == c && next[j + 1].id == d;
    } else {
      var j :| 0 <= j < |list| && Ids(list)[j] == d;
      assert next[0].id == c && next[j + 1].id == d;
    }
  }

  lemma FrontPair(db: Store, u: UserId, list: seq<Entry>, ledger: Ledger, x: Entry, i: int, j: int)
    requires Tracks(db, u, list, ledger) && x.id !in Ids(list) && 0 <= i < j <= |list|
    ensures var next := [x] + list;
            && next[i].id != next[j].id
            && PairTracked(db, ledger.(wrong := ledger.wrong + NotNewer(db, x.id, list)), next[i].id, next[j].id)
  {
    var next, pairs := [x] + list, NotNewer(db, x.id, list);
    var c, d := next[i].id, next[j].id;
    assert next[j] == list[j - 1] && Ids(list)[j - 1] == d;
    if i == 0 {
      if (c, d) in ledger.wrong {
        WrongIsKnown(db, u, list, ledger, c, d);
      }
      assert (c, d) in pairs <==> !Newer(db, c, d);
    } else {
      assert next[i] == list[i - 1] && Ids(list)[i - 1] == c;
      assert PairTracked(db, ledger, c, d);
      assert (c, d) !in pairs;
    }
  }

  lemma FrontTracks(db: Store, u: UserId, list: seq<Entry>, ledger: Ledger, x: Entry)
    requires Tracks(db, u, list, ledger) && x.id !in Ids(list)
    requires IsMember(db, x.id, u) && (x.lastMessage.Some? ==> x.lastMessage.value in db.messages)
    ensures Tracks(db, u, [x] + list, Fronted(db, ledger, list, x))
  {
    var next, ledger' := [x] + list, Fronted(db, ledger, list, x);
    forall i | 0 <= i < |next| ensures RowTracked(db, u, ledger', next[i]) {
      assert i > 0 ==> RowTracked(db, u, ledger, list[i - 1]) && Ids(list)[i - 1] == next[i].id;
    }
    forall i, j | 0 <= i < j < |next|
      ensures Ids(next)[i] != Ids(next)[j] && PairTracked(db, ledger', next[i].id, next[j].id)
    {
      FrontPair(db, u, list, ledger, x, i, j);
    }
    forall d | d in ledger'.missed ensures d in Ids(next) {
      if d in ledger.missed {
        var k :| 0 <= k < |list| && Ids(list)[k] == d;
        assert Ids(next)[k + 1] == d;
      } else {
        assert Ids(next)[0] == d;
      }
    }
    forall p | p in ledger'.wrong ensures InOrder(next, p.0, p.1) {
      if p in NotNewer(db, x.id, list) {
        var k :| 0 <= k < |list| && p == (x.id, list[k].id);
        assert Ids(list)[k] == p.1;
      }
      FrontInOrder(list, x, p.0, p.1);
    }
  }

  /** A message shown moves its row to the front, whether or not it is the newest. */
  lemma BumpTracks(db: Store, u: UserId, list: seq<Entry>, ledger: Ledger, c: ConversationId, m: MessageId)
    requires Tracks(db, u, list, ledger) && m in db.messages && FindIndex(list, c) < |list|
    ensures var n := FindIndex(list, c);
            var x := list[n].(lastMessage := Some(m));
            Tracks(db, u, Bumped(list, c, m), Fronted(db, Except(ledger, c), Others(list, n), x))
  {
    var n := FindIndex(list, c);
    OthersTrack(db, u, list, ledger, n);
    RowIsOwn(db, u, list, ledger, n);
    FrontTracks(db, u, Others(list, n), Except(ledger, c), list[n].(lastMessage := Some(m)));
    BumpedIsFronted(list, c, m);
  }

  lemma RowIsOwn(db: Store, u: UserId, list: seq<Entry>, ledger: Ledger, n: nat)
    requires Tracks(db, u, list, ledger) && n < |list|
    ensures IsMember(db, list[n].id, u)
  {
    assert RowTracked(db, u, ledger, list[n]);
  }

  lemma BumpedIsFronted(list: seq<Entry>, c: ConversationId, m: MessageId)
    requires FindIndex(list, c) < |list|
    ensures var n := FindIndex(list, c);
            Bumped(list, c, m) == [list[n].(lastMessage := Some(m))] + Others(list, n)
  {
  }

  /** The store after a message in c; only the row of c changes. */
  ghost predicate Posted(db: Store, db': Store, c: ConversationId, m: MessageId, now: nat) {
    && c in db.conversations && Later(db, now) && m !in db.messages
    && db'.messages.Keys == db.messages.Keys + {m}
    && db'.conversations == db.conversations[c := db.conversations[c].(lastMessage := Some(m), updatedAt := now)]
  }

  lemma MissedTracks(db: Store, db': Store, u: UserId, list: seq<Entry>, ledger: Ledger, c: ConversationId,
                     m: MessageId, now: nat)
    requires Tracks(db, u, list, ledger) && Posted(db, db', c, m, now)
    ensures Tracks(db', u, list, if c in Ids(list) then ledger.(missed := ledger.missed + {c}) else ledger)
  {
    var ledger' := if c in Ids(list) then ledger.(missed := ledger.missed + {c}) else ledger;
    forall i | 0 <= i < |list| ensures RowTracked(db', u, ledger', list[i]) {
      assert RowTracked(db, u, ledger, list[i]) && Ids(list)[i] in Ids(list);
    }
    forall i, j | 0 <= i < j < |list| ensures PairTracked(db', ledger', list[i].id, list[j].id) {
      assert RowTracked(db, u, ledger, list[i]) && RowTracked(db, u, ledger, list[j]);
      assert PairTracked(db, ledger, list[i].id, list[j].id);
      assert Ids(list)[i] in Ids(list) && Ids(list)[j] in Ids(list);
    }
  }

  lemma NotInIds(list: seq<Entry>, c: ConversationId)
    requires c !in Ids(list)
    ensures FindIndex(list, c) == |list|
  {
    assert forall i :: 0 <= i < |list| ==> Ids(list)[i] == list[i].id;
  }

  // ---------- The client on the network ----------

  /** A `message:new` on its way to the client. */
  datatype Notice = Notice(conversation: ConversationId, message: MessageId)

  /** The list; the messages sent to the client's socket and not processed yet; the conversations the server has
      answered to its starts, as they were then, that have not been put into the list yet; and the account. */
  datatype Client = Client(list: seq<Entry>, inbox: seq<Notice>, pending: seq<Entry>, ledger: Ledger)

  datatype Session = Session(net: Rooms.Net, client: Client)

  /** Notices and answers may be processed in any order, and some never. For a conversation the user starts, `found`
      is the one the server returns. */
  datatype Step = OnServer(step: Rooms.Step, found: ConversationId) | Hear(n: nat) | Land(n: nat)

  /** The step makes the server send something to the client's socket. */
  predicate Reaches(limits: Limits, net: Rooms.Net, step: Rooms.Step, socket: SocketId) {
    var deliveries := Rooms.Apply(limits, net, step).deliveries;
    |deliveries| > |net.deliveries| && socket in deliveries[|net.deliveries|].recipients
  }

  /** A stored message is sent to those in the room, and only they will hear of it. */
  function SentTo(limits: Limits, net: Rooms.Net, step: Rooms.Step, socket: SocketId, client: Client): Client
    requires step.Serve? && step.event.Send?
  {
    var c := step.event.conversation;
    client.(inbox := if Reaches(limits, net, step, socket) then client.inbox + [Notice(c, step.event.message)]
                     else client.inbox,
            ledger := if c in Ids(client.list) then client.ledger.(missed := client.ledger.missed + {c})
                      else client.ledger)
  }

  function Heard(db: Store, client: Client, n: nat): Client
    requires n < |client.inbox|
  {
    var Notice(c, m) := client.inbox[n];
    var client' := client.(inbox := client.inbox[..n] + client.inbox[n + 1..], list := Bumped(client.list, c, m));
    var k := FindIndex(client.list, c);
    if k == |client.list| then client'
    else client'.(ledger := Fronted(db, Except(client.ledger, c), Others(client.list, k),
                                    client.list[k].(lastMessage := Some(m))))
  }

  function Landed(db: Store, client: Client, n: nat): Client
    requires n < |client.pending|
  {
    var x := client.pending[n];
    var client' := client.(pending := client.pending[..n] + client.pending[n + 1..], list := Started(client.list, x));
    if x.id in Ids(client.list) then client' else client'.(ledger := Fronted(db, client.ledger, client.list, x))
  }

  function Apply(limits: Limits, u: UserId, socket: SocketId, s: Session, step: Step): Session {
    var (net, client) := (s.net, s.client);
    match step
    case OnServer(step, found) => (
      var net' := Rooms.Apply(limits, net, step);
      if step.Serve? && Stores(limits, net.world, step.event) then
        Session(net', SentTo(limits, net, step, socket, client))
      else if step.Serve? && step.event.Create? && step.event.user == u && found in net'.world.db.conversations then
        var answer := Entry(found, net'.world.db.conversations[found].lastMessage);
        Session(net', client.(pending := client.pending + [answer]))
      else s.(net := net'))
    case Hear(n) => if n < |client.inbox| then s.(client := Heard(net.world.db, client, n)) else s
    case Land(n) => if n < |client.pending| then s.(client := Landed(net.world.db, client, n)) else s
  }

  /** A run with the limiter's settings, and the user and socket of the client in it. */
  datatype Trace = Trace(limits: Limits, user: UserId, socket: SocketId, run: Runs.Trace<Session, Step>)

  function Stepping(limits: Limits, u: UserId, socket: SocketId): (Session, Step) -> Session {
    (s, step) => Apply(limits, u, socket, s, step)
  }

  ghost predicate IsRun(t: Trace) {
    Runs.IsRun(Stepping(t.limits, t.user, t.socket), t.run)
  }

  lemma NextState(t: Trace, k: nat)
    requires IsRun(t) && k < |t.run.steps|
    ensures t.run.states[k + 1] == Apply(t.limits, t.user, t.socket, t.run.states[k], t.run.steps[k])
  {
    assert Runs.IsStep(Stepping(t.limits, t.user, t.socket), t.run, k);
  }

  /** Times of new messages and conversations are later than all stored ones. */
  ghost predicate Timely(limits: Limits, net: Rooms.Net, step: Step) {
    step.OnServer? && step.step.Serve? ==>
      var (e, w, w') := (step.step.event, net.world, Next(limits, net.world, step.step.event));
      && Legal(w, e)
      && (Stores(limits, w, e) ==> Later(w.db, e.createdAt))
      && (e.Create? ==> IsCreation(w.db, e.user, e.kind, e.name, e.listed, e.id, e.now, w'.db, step.found))
      && (e.Create? && w'.db != w.db ==> Later(w.db, e.now))
  }

  ghost predicate TimelyRun(t: Trace) {
    IsRun(t) && forall k: nat :: k < |t.run.steps| ==> TimelyAt(t, k)
  }

  ghost predicate TimelyAt(t: Trace, k: nat)
    requires k < |t.run.steps| && Runs.Shaped(t.run)
  {
    Timely(t.limits, t.run.states[k].net, t.run.steps[k])
  }

  // ---------- The account is kept over every run ----------

  ghost predicate AnswersKnown(db: Store, u: UserId, pending: seq<Entry>) {
    forall n :: 0 <= n < |pending| ==> AnswerKnown(db, u, pending[n])
  }

  ghost predicate AnswerKnown(db: Store, u: UserId, x: Entry) {
    IsMember(db, x.id, u) && (x.lastMessage.Some? ==> x.lastMessage.value in db.messages)
  }

  ghost predicate NoticesStored(db: Store, inbox: seq<Notice>) {
    forall n :: 0 <= n < |inbox| ==> inbox[n].message in db.messages
  }

  ghost predicate Kept(s: Session, u: UserId) {
    var (db, client) := (s.net.world.db, s.client);
    && Valid(s.net.world) && LastStored(db)
    && Tracks(db, u, client.list, client.ledger)
    && AnswersKnown(db, u, client.pending) && NoticesStored(db, client.inbox)
  }

  lemma NextLastStored(limits: Limits, w: World, e: Event)
    requires LastStored(w.db) && Legal(w, e)
    ensures LastStored(Next(limits, w, e).db)
  {
  }

  lemma PendingStays(db: Store, db': Store, u: UserId, pending: seq<Entry>, inbox: seq<Notice>)
    requires Extends(db, db') && AnswersKnown(db, u, pending) && NoticesStored(db, inbox)
    ensures AnswersKnown(db', u, pending) && NoticesStored(db', inbox)
  {
    forall n | 0 <= n < |pending| ensures AnswerKnown(db', u, pending[n]) {
      assert AnswerKnown(db, u, pending[n]);
    }
  }

  lemma SentTracks(limits: Limits, u: UserId, socket: SocketId, net: Rooms.Net, step: Rooms.Step, client: Client)
    requires step.Serve? && Legal(net.world, step.event) && Stores(limits, net.world, step.event)
    requires Later(net.world.db, step.event.createdAt)
    requires Tracks(net.world.db, u, client.list, client.ledger)
    ensures var client' := SentTo(limits, net, step, socket, client);
            Tracks(Next(limits, net.world, step.event).db, u, client'.list, client'.ledger)
  {
    var (e, w) := (step.event, net.world);
    assert Posted(w.db, Next(limits, w, e).db, e.conversation, e.message, e.createdAt);
    MissedTracks(w.db, Next(limits, w, e).db, u, client.list, client.ledger, e.conversation, e.message, e.createdAt);
  }

  lemma SentNotices(limits: Limits, socket: SocketId, net: Rooms.Net, step: Rooms.Step, client: Client)
    requires step.Serve? && Legal(net.world, step.event) && Stores(limits, net.world, step.event)
    requires NoticesStored(Next(limits, net.world, step.event).db, client.inbox)
    ensures NoticesStored(Next(limits, net.world, step.event).db, SentTo(limits, net, step, socket, client).inbox)
  {
    assert step.event.message in Next(limits, net.world, step.event).db.messages;
  }

  lemma SentKept(limits: Limits, u: UserId, socket: SocketId, s: Session, step: Step)
    requires Kept(s, u) && Timely(limits, s.net, step) && step.OnServer? && step.step.Serve?
    requires Stores(limits, s.net.world, step.step.event)
    ensures Kept(Apply(limits, u, socket, s, step), u)
  {
    var (e, w) := (step.step.event, s.net.world);
    NextValid(limits, w, e);
    NextLastStored(limits, w, e);
    NextExtends(limits, w, e);
    PendingStays(w.db, Next(limits, w, e).db, u, s.client.pending, s.client.inbox);
    SentTracks(limits, u, socket, s.net, step.step, s.client);
    SentNotices(limits, socket, s.net, step.step, s.client);
  }

  lemma FoundIsOwn(limits: Limits, w: World, step: Step, u: UserId)
    requires Valid(w) && step.OnServer? && step.step.Serve? && step.step.event.Create? && step.step.event.user == u
    requires var e := step.step.event;
             && Legal(w, e)
             && IsCreation(w.db, u, e.kind, e.name, e.listed, e.id, e.now, Next(limits, w, e).db, step.found)
    ensures IsMember(Next(limits, w, step.step.event).db, step.found, u)
  {
    var e := step.step.event;
    CreateKeepsUnique(w.db, u, e.kind, e.name, e.listed, e.id, e.now, Next(limits, w, e).db, step.found);
    assert u in Elements([u] + e.listed) by { assert ([u] + e.listed)[0] == u; }
  }

  lemma UnchangedRows(limits: Limits, w: World, e: Event, u: UserId, list: seq<Entry>, ledger: Ledger)
    requires Legal(w, e) && !Stores(limits, w, e) && Tracks(w.db, u, list, ledger)
    ensures SameRows(w.db, Next(limits, w, e).db, list)
  {
    assert forall i :: 0 <= i < |list| ==> RowTracked(w.db, u, ledger, list[i]);
  }

  lemma ServedTracks(limits: Limits, w: World, e: Event, u: UserId, list: seq<Entry>, ledger: Ledger)
    requires Legal(w, e) && !Stores(limits, w, e) && Tracks(w.db, u, list, ledger)
    ensures Tracks(Next(limits, w, e).db, u, list, ledger)
  {
    UnchangedRows(limits, w, e, u, list, ledger);
    SameRowsTrack(w.db, Next(limits, w, e).db, u, list, ledger);
  }

  lemma AnswerIsKnown(limits: Limits, w: World, step: Step, u: UserId, pending: seq<Entry>)
    requires Valid(w) && LastStored(w.db)
    requires step.OnServer? && step.step.Serve? && step.step.event.Create? && step.step.event.user == u
    requires var e := step.step.event;
             && Legal(w, e)
             && IsCreation(w.db, u, e.kind, e.name, e.listed, e.id, e.now, Next(limits, w, e).db, step.found)
             && AnswersKnown(Next(limits, w, e).db, u, pending)
    ensures var db := Next(limits, w, step.step.event).db;
            && step.found in db.conversations
            && AnswersKnown(db, u, pending + [Entry(step.found, db.conversations[step.found].lastMessage)])
  {
    var db := Next(limits, w, step.step.event).db;
    FoundIsOwn(limits, w, step, u);
    NextLastStored(limits, w, step.step.event);
    assert AnswerKnown(db, u, Entry(step.found, db.conversations[step.found].lastMessage));
  }

  lemma ServedKept(limits: Limits, u: UserId, s: Session, step: Rooms.Step)
    requires Kept(s, u) && step.Serve? && Legal(s.net.world, step.event) && !Stores(limits, s.net.world, step.event)
    ensures Kept(s.(net := Rooms.Apply(limits, s.net, step)), u)
  {
    var (e, w) := (step.event, s.net.world);
    assert Rooms.Apply(limits, s.net, step).world == Next(limits, w, e);
    NextValid(limits, w, e);
    NextLastStored(limits, w, e);
    NextExtends(limits, w, e);
    PendingStays(w.db, Next(limits, w, e).db, u, s.client.pending, s.client.inbox);
    ServedTracks(limits, w, e, u, s.client.list, s.client.ledger);
  }

  lemma AnsweredKept(limits: Limits, u: UserId, socket: SocketId, s: Session, step: Step)
    requires Kept(s, u) && Timely(limits, s.net, step) && step.OnServer? && step.step.Serve?
    requires step.step.event.Create? && step.step.event.user == u
    ensures Kept(Apply(limits, u, socket, s, step), u)
  {
    ServedKept(limits, u, s, step.step);
    assert AnswersKnown(Next(limits, s.net.world, step.step.event).db, u, s.client.pending);
    AnswerIsKnown(limits, s.net.world, step, u, s.client.pending);
  }

  lemma HeardTracks(db: Store, u: UserId, client: Client, n: nat)
    requires n < |client.inbox| && client.inbox[n].message in db.messages
    requires Tracks(db, u, client.list, client.ledger)
    ensures Tracks(db, u, Heard(db, client, n).list, Heard(db, client, n).ledger)
  {
    var Notice(c, m) := client.inbox[n];
    if FindIndex(client.list, c) < |client.list| {
      BumpTracks(db, u, client.list, client.ledger, c, m);
    }
  }

  lemma HeardKept(s: Session, u: UserId, n: nat)
    requires Kept(s, u) && n < |s.client.inbox|
    ensures Kept(s.(client := Heard(s.net.world.db, s.client, n)), u)
  {
    var (db, client) := (s.net.world.db, s.client);
    HeardTracks(db, u, client, n);
    assert NoticesStored(db, client.inbox[..n] + client.inbox[n + 1..]);
    assert Heard(db, client, n).pending == client.pending;
  }

  lemma LandedTracks(db: Store, u: UserId, client: Client, n: nat)
    requires n < |client.pending| && AnswerKnown(db, u, client.pending[n])
    requires Tracks(db, u, client.list, client.ledger)
    ensures Tracks(db, u, Landed(db, client, n).list, Landed(db, client, n).ledger)
  {
    var list, x := client.list, client.pending[n];
    FindKnown(list, x.id);
    if x.id !in Ids(list) {
      FrontTracks(db, u, list, client.ledger, x);
    }
  }

  lemma LandedKept(s: Session, u: UserId, n: nat)
    requires Kept(s, u) && n < |s.client.pending|
    ensures Kept(s.(client := Landed(s.net.world.db, s.client, n)), u)
  {
    var db, client := s.net.world.db, s.client;
    assert AnswerKnown(db, u, client.pending[n]);
    LandedTracks(db, u, client, n);
    AnswersWithoutOne(db, u, client.pending, n);
  }

  lemma AnswersWithoutOne(db: Store, u: UserId, pending: seq<Entry>, n: nat)
    requires AnswersKnown(db, u, pending) && n < |pending|
    ensures AnswersKnown(db, u, pending[..n] + pending[n + 1..])
  {
    var rest := pending[..n] + pending[n + 1..];
    forall i | 0 <= i < |rest| ensures AnswerKnown(db, u, rest[i]) {
      assert rest[i] == pending[if i < n then i else i + 1];
    }
  }

  lemma StepKept(limits: Limits, u: UserId, socket: SocketId, s: Session, step: Step)
    requires Kept(s, u) && Timely(limits, s.net, step)
    ensures Kept(Apply(limits, u, socket, s, step), u)
  {
    match step
    case OnServer(serverStep, _) =>
      if serverStep.Serve? {
        if Stores(limits, s.net.world, serverStep.event) {
          SentKept(limits, u, socket, s, step);
        } else if serverStep.event.Create? && serverStep.event.user == u {
          AnsweredKept(limits, u, socket, s, step);
        } else {
          ServedKept(limits, u, s, serverStep);
        }
      } else {
        assert Rooms.Apply(limits, s.net, serverStep).world == s.net.world;
      }
    case Hear(n) =>
      if n < |s.client.inbox| {
        HeardKept(s, u, n);
      }
    case Land(n) =>
      if n < |s.client.pending| {
        LandedKept(s, u, n);
      }
  }

  lemma {:induction false} RunKept(t: Trace, k: nat)
    requires TimelyRun(t) && Kept(t.run.states[0], t.user) && k <= |t.run.steps|
    ensures Kept(t.run.states[k], t.user)
    decreases k
  {
    if k > 0 {
      RunKept(t, k - 1);
      assert TimelyAt(t, k - 1);
      NextState(t, k - 1);
      StepKept(t.limits, t.user, t.socket, t.run.states[k - 1], t.run.steps[k - 1]);
    }
  }

  // ---------- The account, step by step ----------

  predicate Known(s: Session, c: ConversationId) {
    c in Ids(s.client.list)
  }

  /** A message of c is processed and moves its row to the front. */
  predicate Moves(s: Session, step: Step, c: ConversationId) {
    step.Hear? && step.n < |s.client.inbox| && s.client.inbox[step.n].conversation == c && Known(s, c)
  }

  /** An answered conversation is put into the list. */
  predicate Enters(s: Session, step: Step, c: ConversationId) {
    step.Land? && step.n < |s.client.pending| && s.client.pending[step.n].id == c && !Known(s, c)
  }

  predicate ShowsNewest(s: Session, c: ConversationId, last: Option<MessageId>) {
    !Stale(s.net.world.db, Entry(c, last))
  }

  /** The step leaves the row of c without its newest message: one is stored, or an older one is processed, or the
      row enters as it was before the newest one. */
  predicate FallsBehind(limits: Limits, s: Session, step: Step, c: ConversationId) {
    || (step.OnServer? && step.step.Serve? && Stores(limits, s.net.world, step.step.event) &&
        step.step.event.conversation == c && Known(s, c))
    || (Moves(s, step, c) && !ShowsNewest(s, c, Some(s.client.inbox[step.n].message)))
    || (Enters(s, step, c) && !ShowsNewest(s, c, s.client.pending[step.n].lastMessage))
  }

  /** The newest message of c is processed. */
  predicate CatchesUp(s: Session, step: Step, c: ConversationId) {
    Moves(s, step, c) && ShowsNewest(s, c, Some(s.client.inbox[step.n].message))
  }

  /** The step puts c in front of d, which is at least as recent. */
  predicate PutsBefore(s: Session, step: Step, c: ConversationId, d: ConversationId) {
    (Moves(s, step, c) || Enters(s, step, c)) && c != d && Known(s, d) && !Newer(s.net.world.db, c, d)
  }

  lemma NextMissed(limits: Limits, u: UserId, socket: SocketId, s: Session, step: Step, c: ConversationId)
    ensures c in Apply(limits, u, socket, s, step).client.ledger.missed <==>
              FallsBehind(limits, s, step, c) || (c in s.client.ledger.missed && !CatchesUp(s, step, c))
  {
    if step.Hear? && step.n < |s.client.inbox| {
      FindKnown(s.client.list, s.client.inbox[step.n].conversation);
    }
  }

  lemma FindKnown(list: seq<Entry>, c: ConversationId)
    ensures FindIndex(list, c) < |list| <==> c in Ids(list)
  {
    var n := FindIndex(list, c);
    if n < |list| {
      assert Ids(list)[n] == c;
    } else {
      assert forall i :: 0 <= i < |list| ==> Ids(list)[i] != c;
    }
  }

  lemma NotNewerIn(db: Store, c: ConversationId, list: seq<Entry>, d: ConversationId, e: ConversationId)
    ensures (d, e) in NotNewer(db, c, list) <==> d == c && e in Ids(list) && !Newer(db, c, e)
  {
    if d == c && e in Ids(list) && !Newer(db, c, e) {
      var i :| 0 <= i < |list| && Ids(list)[i] == e;
      assert list[i].id == e;
    }
    if (d, e) in NotNewer(db, c, list) {
      var i :| 0 <= i < |list| && (d, e) == (c, list[i].id);
      assert Ids(list)[i] == e;
    }
  }

  lemma OthersIds(list: seq<Entry>, n: nat, d: ConversationId)
    requires n < |list| && NoDuplicates(Ids(list))
    ensures d in Ids(Others(list, n)) <==> d in Ids(list) && d != list[n].id
  {
    var rest := Others(list, n);
    if d in Ids(list) && d != list[n].id {
      var k :| 0 <= k < |list| && Ids(list)[k] == d;
      assert Ids(rest)[if k < n then k else k - 1] == d;
    }
    if d in Ids(rest) {
      var i :| 0 <= i < |rest| && Ids(rest)[i] == d;
      assert Ids(list)[if i < n then i else i + 1] == d && Ids(list)[n] == list[n].id;
    }
  }

  lemma NextWrong(limits: Limits, u: UserId, socket: SocketId, s: Session, step: Step, c: ConversationId,
                  d: ConversationId)
    requires NoDuplicates(Ids(s.client.list))
    ensures (c, d) in Apply(limits, u, socket, s, step).client.ledger.wrong <==>
              PutsBefore(s, step, c, d) || ((c, d) in s.client.ledger.wrong && !Moves(s, step, c) && !Moves(s, step, d))
  {
    var (db, list) := (s.net.world.db, s.client.list);
    if step.Hear? && step.n < |s.client.inbox| {
      var moved := s.client.inbox[step.n].conversation;
      var k := FindIndex(list, moved);
      FindKnown(list, moved);
      if k < |list| {
        OthersIds(list, k, d);
        NotNewerIn(db, moved, Others(list, k), c, d);
        assert (c, d) in Without(s.client.ledger.wrong, moved) <==>
               (c, d) in s.client.ledger.wrong && c != moved && d != moved;
      }
    } else if step.Land? && step.n < |s.client.pending| {
      NotNewerIn(db, s.client.pending[step.n].id, list, c, d);
    }
  }

  // ---------- The account, over a run ----------

  predicate FallsBehindAt(t: Trace, k: nat, c: ConversationId) {
    k < |t.run.steps| < |t.run.states| && FallsBehind(t.limits, t.run.states[k], t.run.steps[k], c)
  }

  predicate CatchesUpAt(t: Trace, k: nat, c: ConversationId) {
    k < |t.run.steps| < |t.run.states| && CatchesUp(t.run.states[k], t.run.steps[k], c)
  }

  predicate PutsBeforeAt(t: Trace, k: nat, c: ConversationId, d: ConversationId) {
    k < |t.run.steps| < |t.run.states| && PutsBefore(t.run.states[k], t.run.steps[k], c, d)
  }

  predicate MovesOneAt(t: Trace, k: nat, c: ConversationId, d: ConversationId) {
    k < |t.run.steps| < |t.run.states| &&
    (Moves(t.run.states[k], t.run.steps[k], c) || Moves(t.run.states[k], t.run.steps[k], d))
  }

  predicate MissedAt(t: Trace, k: nat, c: ConversationId) {
    k < |t.run.states| && c in t.run.states[k].client.ledger.missed
  }

  predicate WrongAt(t: Trace, k: nat, c: ConversationId, d: ConversationId) {
    k < |t.run.states| && (c, d) in t.run.states[k].client.ledger.wrong
  }

  function Falls(t: Trace, c: ConversationId): nat -> bool {
    (k: nat) => FallsBehindAt(t, k, c)
  }

  function Catches(t: Trace, c: ConversationId): nat -> bool {
    (k: nat) => CatchesUpAt(t, k, c)
  }

  function Missing(t: Trace, c: ConversationId): nat -> bool {
    (k: nat) => MissedAt(t, k, c)
  }

  function Puts(t: Trace, c: ConversationId, d: ConversationId): nat -> bool {
    (k: nat) => PutsBeforeAt(t, k, c, d)
  }

  function MovesOne(t: Trace, c: ConversationId, d: ConversationId): nat -> bool {
    (k: nat) => MovesOneAt(t, k, c, d)
  }

  function Wrong(t: Trace, c: ConversationId, d: ConversationId): nat -> bool {
    (k: nat) => WrongAt(t, k, c, d)
  }

  /** The row of c fell behind at some step and has not caught up since. */
  ghost predicate Behind(t: Trace, k: nat, c: ConversationId) {
    Since.Holds(Falls(t, c), Catches(t, c), k)
  }

  /** Some step put c in front of d, at least as recent, and neither was moved since. */
  ghost predicate Misplaced(t: Trace, k: nat, c: ConversationId, d: ConversationId) {
    Since.Holds(Puts(t, c, d), MovesOne(t, c, d), k)
  }

  ghost predicate AllInPlace(t: Trace, k: nat) {
    && (forall c: ConversationId :: !Behind(t, k, c))
    && (forall c: ConversationId, d: ConversationId :: !Misplaced(t, k, c, d))
  }

  lemma MissedNext(t: Trace, k: nat, c: ConversationId)
    requires IsRun(t) && k < |t.run.steps|
    ensures MissedAt(t, k + 1, c) <==> FallsBehindAt(t, k, c) || (MissedAt(t, k, c) && !CatchesUpAt(t, k, c))
  {
    NextState(t, k);
    NextMissed(t.limits, t.user, t.socket, t.run.states[k], t.run.steps[k], c);
  }

  lemma WrongNext(t: Trace, k: nat, c: ConversationId, d: ConversationId)
    requires IsRun(t) && k < |t.run.steps| && NoDuplicates(Ids(t.run.states[k].client.list))
    ensures WrongAt(t, k + 1, c, d) <==> PutsBeforeAt(t, k, c, d) || (WrongAt(t, k, c, d) && !MovesOneAt(t, k, c, d))
  {
    NextState(t, k);
    NextWrong(t.limits, t.user, t.socket, t.run.states[k], t.run.steps[k], c, d);
  }

  lemma AccountIsBehind(t: Trace, k: nat, c: ConversationId)
    requires IsRun(t) && t.run.states[0].client.ledger == CLEAR && k <= |t.run.steps|
    ensures MissedAt(t, k, c) <==> Behind(t, k, c)
  {
    var missed, falls, catches := Missing(t, c), Falls(t, c), Catches(t, c);
    forall i: nat | i < k ensures missed(i + 1) <==> falls(i) || (missed(i) && !catches(i)) {
      MissedNext(t, i, c);
    }
    Since.Tracks(missed, falls, catches, k);
  }

  lemma WrongStep(t: Trace, k: nat, c: ConversationId, d: ConversationId)
    requires TimelyRun(t) && Kept(t.run.states[0], t.user) && k < |t.run.steps|
    ensures WrongAt(t, k + 1, c, d) <==> PutsBeforeAt(t, k, c, d) || (WrongAt(t, k, c, d) && !MovesOneAt(t, k, c, d))
  {
    RunKept(t, k);
    WrongNext(t, k, c, d);
  }

  lemma AccountIsMisplaced(t: Trace, k: nat, c: ConversationId, d: ConversationId)
    requires TimelyRun(t) && Kept(t.run.states[0], t.user) && k <= |t.run.steps|
    requires t.run.states[0].client.ledger == CLEAR
    ensures WrongAt(t, k, c, d) <==> Misplaced(t, k, c, d)
  {
    var wrong, puts, moves := Wrong(t, c, d), Puts(t, c, d), MovesOne(t, c, d);
    forall i: nat | i < k ensures wrong(i + 1) <==> puts(i) || (wrong(i) && !moves(i)) {
      WrongStep(t, i, c, d);
    }
    Since.Tracks(wrong, puts, moves, k);
  }

  lemma EmptyLedger(ledger: Ledger)
    ensures ledger == CLEAR <==>
              && (forall c: ConversationId :: c !in ledger.missed)
              && (forall c: ConversationId, d: ConversationId :: (c, d) !in ledger.wrong)
  {
    if forall c: ConversationId, d: ConversationId :: (c, d) !in ledger.wrong {
      forall p ensures p !in ledger.wrong {
        assert p == (p.0, p.1);
      }
    }
  }

  lemma ClearIff(t: Trace, k: nat)
    requires TimelyRun(t) && Kept(t.run.states[0], t.user) && k <= |t.run.steps|
    requires t.run.states[0].client.ledger == CLEAR
    ensures t.run.states[k].client.ledger == CLEAR <==> AllInPlace(t, k)
  {
    var ledger := t.run.states[k].client.ledger;
    forall c: ConversationId ensures c in ledger.missed <==> Behind(t, k, c) {
      AccountIsBehind(t, k, c);
    }
    forall c: ConversationId, d: ConversationId ensures (c, d) in ledger.wrong <==> Misplaced(t, k, c, d) {
      AccountIsMisplaced(t, k, c, d);
    }
    EmptyLedger(ledger);
  }

  /** The client has the list the server returned, and nothing is under way. */
  ghost predicate FreshSession(s: Session, u: UserId) {
    && Valid(s.net.world) && LastStored(s.net.world.db)
    && InStep(s.net.world.db, u, s.client.list)
    && s.client == Client(s.client.list, [], [], CLEAR)
  }

  /** Over every run in which messages are stored and sent to rooms, notices and answers reach the client in any
      order or not at all, and conversations are started by anyone: the client's list is as stored and newest first
      exactly when no row fell behind without catching up since, and no conversation stands where it was put in
      front of one at least as recent with neither moved since. */
  lemma InStepIff(t: Trace, k: nat)
    requires TimelyRun(t) && FreshSession(t.run.states[0], t.user) && k <= |t.run.steps|
    ensures InStep(t.run.states[k].net.world.db, t.user, t.run.states[k].client.list) <==> AllInPlace(t, k)
  {
    var end := t.run.states[k];
    InStepTracks(t.run.states[0].net.world.db, t.user, t.run.states[0].client.list);
    RunKept(t, k);
    ClearIff(t, k);
    InStepIffClear(end.net.world.db, t.user, end.client.list, end.client.ledger);
  }

  /** Moving a conversation to the front on each message keeps the client's list free of duplicates and, while
      everything is in place, equal to the server's `updatedAt` order restricted to the conversations it knows. */
  lemma {:induction false} MoveToFrontIsServerOrder(t: Trace, k: nat, order: seq<ConversationId>)
    requires TimelyRun(t) && FreshSession(t.run.states[0], t.user) && k <= |t.run.steps|
    requires IsServerOrder(t.run.states[k].net.world.db, t.user, order)
    ensures var ids := Ids(t.run.states[k].client.list);
            NoDuplicates(ids) && (AllInPlace(t, k) ==> Restrict(order, Elements(ids)) == ids)
  {
    var end := t.run.states[k];
    InStepTracks(t.run.states[0].net.world.db, t.user, t.run.states[0].client.list);
    RunKept(t, k);
    InStepIff(t, k);
    if AllInPlace(t, k) {
      InStepIsServerOrder(end.net.world.db, t.user, end.client.list, order);
    }
  }

  // ---------- Steps that nothing interrupts ----------

  /** A message heard as soon as it is stored moves its conversation to the front; a client out of the room, or one
      that does not know the conversation, is not changed. */
  lemma HeardAtOnce(limits: Limits, u: UserId, socket: SocketId, s: Session, step: Step)
    requires step.OnServer? && step.step.Serve? && Legal(s.net.world, step.step.event)
    requires Stores(limits, s.net.world, step.step.event) && s.client.inbox == []
    ensures var (c, m) := (step.step.event.conversation, step.step.event.message);
            var s1 := Apply(limits, u, socket, s, step);
            && s1.client.list == s.client.list
            && s1.client.inbox == (if (c, socket) in s.net.rooms then [Notice(c, m)] else [])
            && Apply(limits, u, socket, s1, Hear(0)).client.list ==
                 if (c, socket) in s.net.rooms then Bumped(s.client.list, c, m) else s.client.list
  {
    NextAnswers(limits, s.net.world, step.step.event);
    Rooms.BroadcastsAreDelivered(limits, s.net, step.step.event);
  }

  /** A conversation that is put into the list as soon as the server has returned it is the stored one, in front
      unless it is known. */
  lemma StartedAtOnce(limits: Limits, u: UserId, socket: SocketId, s: Session, step: Step)
    requires step.OnServer? && step.step.Serve? && step.step.event.Create? && step.step.event.user == u
    requires s.client.pending == [] && step.found in Next(limits, s.net.world, step.step.event).db.conversations
    ensures var end := Apply(limits, u, socket, Apply(limits, u, socket, s, step), Land(0));
            var x := Entry(step.found, end.net.world.db.conversations[step.found].lastMessage);
            && end.client.pending == []
            && end.client.list == if x.id in Ids(s.client.list) then s.client.list else [x] + s.client.list
  {
    FindKnown(s.client.list, step.found);
  }

  // ---------- Runs that end out of order ----------

  lemma DistinctPair(u: UserId, v: UserId)
    requires u != v
    ensures Distinct([u] + [v]) == [u, v]
  {
    var s := [u] + [v];
    assert s[..1] == [u] && [u][..0] == [];
    assert Distinct([u]) == [] + [u];
  }

  /** A session whose client, on the given socket, shows conversation c and is in its room. */
  function Showing(db: Store, u: UserId, socket: SocketId, c: ConversationId): Session {
    Session(Rooms.EMPTY_NET.(world := INITIAL.(db := db), sockets := map[socket := u], rooms := {(c, socket)}),
            Client([Entry(c, None)], [], [], CLEAR))
  }

  function WithGroup(u: UserId, v: UserId): Store {
    EMPTY_STORE.(conversations := map[0 := Conversation(Group, None, [u, v], None, 0)])
  }

  function WithOlderDirect(u: UserId, v: UserId): Store {
    EMPTY_STORE.(conversations := map[0 := Conversation(Direct, None, [v, u], None, 0),
                                      1 := Conversation(Group, None, [u, v], None, 1)])
  }

  lemma ShowingIsFresh(u: UserId, v: UserId, socket: SocketId)
    requires u != v
    ensures FreshSession(Showing(WithGroup(u, v), u, socket, 0), u)
    ensures FreshSession(Showing(WithOlderDirect(u, v), u, socket, 1), u)
  {
  }

  function Begin(limits: Limits, u: UserId, socket: SocketId, s: Session): Trace {
    Trace(limits, u, socket, Runs.Begin(s))
  }

  function Last(t: Trace): Session
    requires t.run.states != []
  {
    Runs.Last(t.run)
  }

  function Then(t: Trace, step: Step): Trace
    requires t.run.states != []
  {
    t.(run := Runs.Then(Stepping(t.limits, t.user, t.socket), t.run, step))
  }

  lemma BeginIsTimely(limits: Limits, u: UserId, socket: SocketId, s: Session)
    ensures TimelyRun(Begin(limits, u, socket, s))
  {
    Runs.BeginIsRun(Stepping(limits, u, socket), s);
  }

  lemma ThenIsTimely(t: Trace, step: Step)
    requires TimelyRun(t) && Timely(t.limits, Last(t).net, step)
    ensures TimelyRun(Then(t, step)) && Then(t, step).run.states[0] == t.run.states[0]
    ensures Last(Then(t, step)) == Apply(t.limits, t.user, t.socket, Last(t), step)
  {
    var t' := Then(t, step);
    Runs.ThenIsRun(Stepping(t.limits, t.user, t.socket), t.run, step);
    forall k: nat | k < |t'.run.steps| ensures TimelyAt(t', k) {
      assert k < |t.run.steps| ==> TimelyAt(t, k);
    }
  }

  /** u, who knows a group only, asks for the 1:1 conversation that v began before it. */
  function OlderDirectRun(limits: Limits, u: UserId, v: UserId, socket: SocketId): Trace {
    Then(Then(Begin(limits, u, socket, Showing(WithOlderDirect(u, v), u, socket, 1)), DirectAgain(u, v)), Land(0))
  }

  function DirectAgain(u: UserId, v: UserId): Step {
    OnServer(Rooms.Serve(Create(u, Direct, None, [v], 2, 2)), 0)
  }

  lemma OlderDirectAnswered(limits: Limits, u: UserId, v: UserId, socket: SocketId)
    requires u != v
    ensures var s0 := Showing(WithOlderDirect(u, v), u, socket, 1);
            && Apply(limits, u, socket, s0, DirectAgain(u, v)) == s0.(client := s0.client.(pending := [Entry(0, None)]))
            && Timely(limits, s0.net, DirectAgain(u, v))
  {
    var db := WithOlderDirect(u, v);
    DistinctPair(u, v);
    assert MatchesDirect(db.conversations[0], [u, v]) && !MatchesDirect(db.conversations[1], [u, v]);
    assert Existing(db, [u, v]) == {0};
    assert [] + [Entry(0, None)] == [Entry(0, None)];
  }

  lemma LandedBefore(db: Store, x: Entry, y: Entry, ledger: Ledger)
    requires x.id != y.id
    ensures var client := Landed(db, Client([y], [], [x], ledger), 0);
            client.list == [x, y] && client.inbox == [] && client.pending == []
  {
    assert Ids([y]) == [y.id];
    NotInIds([y], x.id);
  }

  /** Starting an older 1:1 conversation that the client does not know puts it before a newer group. */
  lemma OlderDirectComesFirst(limits: Limits, u: UserId, v: UserId, socket: SocketId)
    requires u != v
    ensures var t := OlderDirectRun(limits, u, v, socket);
            && TimelyRun(t) && FreshSession(t.run.states[0], u)
            && Last(t).client.list == [Entry(0, None), Entry(1, None)] && Newer(Last(t).net.world.db, 1, 0)
  {
    var s0 := Showing(WithOlderDirect(u, v), u, socket, 1);
    var t0 := Begin(limits, u, socket, s0);
    ShowingIsFresh(u, v, socket);
    OlderDirectAnswered(limits, u, v, socket);
    BeginIsTimely(limits, u, socket, s0);
    ThenIsTimely(t0, DirectAgain(u, v));
    ThenIsTimely(Then(t0, DirectAgain(u, v)), Land(0));
    LandedBefore(s0.net.world.db, Entry(0, None), Entry(1, None), CLEAR);
  }

  function SecondGroup(u: UserId, v: UserId): Step {
    OnServer(Rooms.Serve(Create(u, Group, None, [v], 1, 1)), 1)
  }

  function FirstGroupMessage(v: UserId, other: SocketId): Step {
    OnServer(Rooms.Serve(Send(v, other, 0, ONE_LETTER, 0, 2, 2)), 0)
  }

  /** u starts a second group; before the answer is put into the list, a message in the first is heard. */
  function LateAnswerRun(limits: Limits, u: UserId, v: UserId, socket: SocketId, other: SocketId): Trace {
    var t0 := Begin(limits, u, socket, Showing(WithGroup(u, v), u, socket, 0));
    Then(Then(Then(Then(t0, SecondGroup(u, v)), FirstGroupMessage(v, other)), Hear(0)), Land(0))
  }

  /** The session once the second group is stored and its answer under way. */
  function WithSecondGroup(u: UserId, v: UserId, socket: SocketId): Session {
    var s := Showing(WithGroup(u, v), u, socket, 0);
    var second := Conversation(Group, None, [u, v], None, 1);
    var db := EMPTY_STORE.(conversations := WithGroup(u, v).conversations[1 := second]);
    Session(s.net.(world := INITIAL.(db := db)), s.client.(pending := [Entry(1, None)]))
  }

  lemma SecondGroupCreated(limits: Limits, u: UserId, v: UserId, socket: SocketId)
    requires u != v
    ensures var s := Showing(WithGroup(u, v), u, socket, 0);
            && Apply(limits, u, socket, s, SecondGroup(u, v)) == WithSecondGroup(u, v, socket)
            && Timely(limits, s.net, SecondGroup(u, v))
  {
    DistinctPair(u, v);
    assert [] + [Entry(1, None)] == [Entry(1, None)];
  }

  lemma FirstGroupPosted(w: World, v: UserId, other: SocketId, limits: Limits)
    requires w.buckets == map[] && w.db.messages == map[] && w.emitted == [] && IsMember(w.db, 0, v)
    ensures var e := Send(v, other, 0, ONE_LETTER, 0, 2, 2);
            var w' := Next(limits, w, e);
            && Legal(w, e) && Stores(limits, w, e) && |w'.emitted| == 1 && ConversationOf(w'.emitted[0]) == 0
            && w'.db.conversations == w.db.conversations[
                 0 := w.db.conversations[0].(lastMessage := Some(0), updatedAt := 2)]
  {
    OneLetterIsAccepted();
  }

  lemma FirstGroupMessaged(limits: Limits, u: UserId, v: UserId, socket: SocketId, other: SocketId)
    ensures var s1 := WithSecondGroup(u, v, socket);
            var s2 := Apply(limits, u, socket, s1, FirstGroupMessage(v, other));
            && Timely(limits, s1.net, FirstGroupMessage(v, other))
            && s2.client == s1.client.(inbox := [Notice(0, 0)], ledger := Ledger({0}, {}))
            && Newer(s2.net.world.db, 0, 1)
  {
    var s1 := WithSecondGroup(u, v, socket);
    FirstGroupPosted(s1.net.world, v, other, limits);
    assert socket in Rooms.InRoom(s1.net.rooms, 0) by { assert (0, socket) in s1.net.rooms && (0, socket).0 == 0; }
    assert Ids([Entry(0, None)]) == [0];
    assert [] + [Notice(0, 0)] == [Notice(0, 0)];
    assert {} + {0} == {0};
  }

  lemma HeardOne(db: Store, c: ConversationId, m: MessageId, pending: seq<Entry>, ledger: Ledger)
    ensures var client := Heard(db, Client([Entry(c, None)], [Notice(c, m)], pending, ledger), 0);
            client.list == [Entry(c, Some(m))] && client.inbox == [] && client.pending == pending
  {
    assert Bumped([Entry(c, None)], c, m) == [Entry(c, Some(m))];
  }

  lemma HearThenLand(limits: Limits, u: UserId, socket: SocketId, s: Session)
    requires s.client == Client([Entry(0, None)], [Notice(0, 0)], [Entry(1, None)], s.client.ledger)
    ensures var end := Apply(limits, u, socket, Apply(limits, u, socket, s, Hear(0)), Land(0));
            && end.net == s.net && end.client.list == [Entry(1, None), Entry(0, Some(0))]
            && end.client.inbox == [] && end.client.pending == []
  {
    HeardOne(s.net.world.db, 0, 0, [Entry(1, None)], s.client.ledger);
    var heard := Heard(s.net.world.db, s.client, 0);
    LandedBefore(s.net.world.db, Entry(1, None), Entry(0, Some(0)), heard.ledger);
  }

  /** A conversation is put in front of one that became more recent while its answer was on the way. */
  lemma {:induction false} LateAnswerComesFirst(limits: Limits, u: UserId, v: UserId, socket: SocketId, other: SocketId)
    requires u != v
    ensures var t := LateAnswerRun(limits, u, v, socket, other);
            && TimelyRun(t) && FreshSession(t.run.states[0], u)
            && Last(t).client.list == [Entry(1, None), Entry(0, Some(0))]
            && Last(t).client.inbox == [] && Last(t).client.pending == []
            && Newer(Last(t).net.world.db, 0, 1)
  {
    var s0 := Showing(WithGroup(u, v), u, socket, 0);
    var t0 := Begin(limits, u, socket, s0);
    var t1 := Then(t0, SecondGroup(u, v));
    var t2 := Then(t1, FirstGroupMessage(v, other));
    ShowingIsFresh(u, v, socket);
    SecondGroupCreated(limits, u, v, socket);
    FirstGroupMessaged(limits, u, v, socket, other);
    BeginIsTimely(limits, u, socket, s0);
    ThenIsTimely(t0, SecondGroup(u, v));
    ThenIsTimely(t1, FirstGroupMessage(v, other));
    ThenIsTimely(t2, Hear(0));
    ThenIsTimely(Then(t2, Hear(0)), Land(0));
    HearThenLand(limits, u, socket, Last(t2));
  }
}
