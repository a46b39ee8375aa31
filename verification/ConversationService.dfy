/** src/services/conversation.service.ts without the history pages: creation with 1:1 reuse, and the
    conversation list with its unread counts. */
module ConversationService {
  import opened Domain
  import opened Sanitize

  ghost predicate NoDuplicates<T>(s: seq<T>) {
    forall i, j :: 0 <= i < j < |s| ==> s[i] != s[j]
  }

  ghost function Elements<T>(s: seq<T>): set<T> {
    set x | x in s
  }

  /** `Array.from(new Set(s))`: first occurrences, in order. */
  function Distinct(s: seq<UserId>): seq<UserId> {
    if s == [] then [] else
      var d := Distinct(s[..|s| - 1]);
      var x := s[|s| - 1];
      if x in d then d else d + [x]
  }

  lemma {:induction false} DistinctKeepsElements(s: seq<UserId>)
    ensures NoDuplicates(Distinct(s)) && Elements(Distinct(s)) == Elements(s)
  {
    if s != [] {
      var front, x := s[..|s| - 1], s[|s| - 1];
      DistinctKeepsElements(front);
      ElementsSnoc(front, x);
      ElementsSnoc(Distinct(front), x);
      assert s == front + [x];
      assert x in Distinct(front) ==> x in Elements(Distinct(front));
    }
  }

  lemma ElementsSnoc<T>(s: seq<T>, x: T)
    ensures Elements(s + [x]) == Elements(s) + {x}
  {
  }

  /** `{ type: '1:1', members: { $all: memberIds, $size: memberIds.length } }`. */
  predicate MatchesDirect(conversation: Conversation, memberIds: seq<UserId>) {
    && conversation.kind == Direct
    && (forall m :: m in memberIds ==> m in conversation.members)
    && |conversation.members| == |memberIds|
  }

  function Existing(db: Store, memberIds: seq<UserId>): set<ConversationId> {
    set c | c in db.conversations && MatchesDirect(db.conversations[c], memberIds)
  }

  function Insert(db: Store, kind: Kind, name: Option<Text>, memberIds: seq<UserId>, id: ConversationId,
                  now: nat): Store {
    db.(conversations := db.conversations[id := Conversation(kind, name, memberIds, None, now)])
  }

  /** One whole `createConversation`: the store afterwards and the conversation returned. `findOne` may
      return any match. */
  ghost predicate IsCreation(db: Store, current: UserId, kind: Kind, name: Option<Text>, listed: seq<UserId>,
                                     id: ConversationId, now: nat, db': Store, found: ConversationId)
  {
    var memberIds := Distinct([current] + listed);
    if kind == Direct && Existing(db, memberIds) != {} then
      db' == db && found in Existing(db, memberIds)
    else
      db' == Insert(db, kind, name, memberIds, id, now) && found == id
  }

  // ---------- 1:1 uniqueness ----------

  ghost predicate MembersDistinct(db: Store) {
    forall c :: c in db.conversations ==> NoDuplicates(db.conversations[c].members)
  }

  /** No two stored 1:1 conversations have the same set of members. */
  ghost predicate DirectUnique(db: Store) {
    forall c, d :: c in db.conversations && d in db.conversations ==>
      (SameDirect(db.conversations[c], db.conversations[d]) ==> c == d)
  }

  ghost predicate SameDirect(a: Conversation, b: Conversation) {
    a.kind == Direct && b.kind == Direct && Elements(a.members) == Elements(b.members)
  }

  lemma {:induction false} SizeOfDistinct<T>(s: seq<T>)
    requires NoDuplicates(s)
    ensures |Elements(s)| == |s|
  {
    if s != [] {
      var n := |s| - 1;
      SizeOfDistinct(s[..n]);
      assert Elements(s) == Elements(s[..n]) + {s[n]};
    }
  }

  lemma {:induction false} SizeAtMost<T>(s: seq<T>)
    ensures |Elements(s)| <= |s|
    ensures |Elements(s)| == |s| ==> NoDuplicates(s)
  {
    if s != [] {
      var n := |s| - 1;
      var front, x := s[..n], s[n];
      SizeAtMost(front);
      ElementsSnoc(front, x);
      assert s == front + [x];
      assert x in Elements(front) ==> Elements(s) == Elements(front);
      assert x in Elements(front) <==> x in front;
    }
  }

  lemma SubsetOfEqualSize<T>(a: set<T>, b: set<T>)
    requires a <= b && |a| >= |b|
    ensures a == b
  {
    if x :| x in b && x !in a {
      SubsetCard(a, b - {x});
    }
  }

  lemma {:induction false} SubsetCard<T>(a: set<T>, b: set<T>)
    requires a <= b
    ensures |a| <= |b|
  {
    if x :| x in a {
      SubsetCard(a - {x}, b - {x});
    }
  }

  /** For a duplicate-free query, `$all` with `$size` finds a 1:1 conversation iff its members are the same
      set and are stored without duplicates. */
  lemma AllAndSizeIsSetEquality(conversation: Conversation, memberIds: seq<UserId>)
    requires NoDuplicates(memberIds)
    ensures MatchesDirect(conversation, memberIds) <==>
              && conversation.kind == Direct
              && Elements(conversation.members) == Elements(memberIds)
              && NoDuplicates(conversation.members)
  {
    var members := conversation.members;
    SizeOfDistinct(memberIds);
    SizeAtMost(members);
    if MatchesDirect(conversation, memberIds) {
      assert Elements(memberIds) <= Elements(members);
      SubsetOfEqualSize(Elements(memberIds), Elements(members));
    } else if conversation.kind == Direct && Elements(members) == Elements(memberIds) && NoDuplicates(members) {
      SizeOfDistinct(members);
      forall m | m in memberIds ensures m in members {
        assert m in Elements(memberIds);
      }
      assert false;
    }
  }

  /** The insert that ends `createConversation` keeps 1:1 conversations unique exactly when no match exists
      at that moment. As the look-up is one `await` earlier, two overlapping calls can both insert. */
  lemma InsertKeepsUniqueIff(db: Store, name: Option<Text>, memberIds: seq<UserId>, id: ConversationId, now: nat)
    requires MembersDistinct(db) && DirectUnique(db) && NoDuplicates(memberIds) && id !in db.conversations
    ensures DirectUnique(Insert(db, Direct, name, memberIds, id, now)) <==> Existing(db, memberIds) == {}
  {
    var db' := Insert(db, Direct, name, memberIds, id, now);
    if c :| c in Existing(db, memberIds) {
      AllAndSizeIsSetEquality(db.conversations[c], memberIds);
      assert SameDirect(db'.conversations[c], db'.conversations[id]);
    } else {
      forall c, d | c in db'.conversations && d in db'.conversations &&
          SameDirect(db'.conversations[c], db'.conversations[d])
        ensures c == d
      {
        if c != d && (c == id || d == id) {
          var other := if c == id then d else c;
          AllAndSizeIsSetEquality(db.conversations[other], memberIds);
          MatchIsExisting(db, memberIds, other);
        }
      }
    }
  }

  lemma MatchIsExisting(db: Store, memberIds: seq<UserId>, c: ConversationId)
    requires c in db.conversations
    ensures MatchesDirect(db.conversations[c], memberIds) <==> c in Existing(db, memberIds)
  {
  }

  lemma CreateKeepsUnique(db: Store, current: UserId, kind: Kind, name: Option<Text>, listed: seq<UserId>,
                          id: ConversationId, now: nat, db': Store, found: ConversationId)
    requires MembersDistinct(db) && DirectUnique(db) && id !in db.conversations
    requires IsCreation(db, current, kind, name, listed, id, now, db', found)
    ensures MembersDistinct(db') && DirectUnique(db')
    ensures found in db'.conversations && Elements(db'.conversations[found].members) == Elements([current] + listed)
    ensures db'.conversations[found].kind == kind
  {
    var memberIds := Distinct([current] + listed);
    DistinctKeepsElements([current] + listed);
    if kind == Direct && Existing(db, memberIds) != {} {
      AllAndSizeIsSetEquality(db.conversations[found], memberIds);
    } else if kind == Direct {
      InsertKeepsUniqueIff(db, name, memberIds, id, now);
    }
  }

  /** Two people get the same 1:1 conversation whoever asks, however often, and however much later, as
      long as it is still stored with its kind and members (which nothing rewrites). */
  lemma DirectCreationIsSymmetric(db: Store, a: UserId, b: UserId, c: ConversationId,
                                  id: ConversationId, now: nat, db': Store, found: ConversationId, swap: bool)
    requires MembersDistinct(db) && DirectUnique(db)
    requires c in db.conversations && db.conversations[c].kind == Direct &&
        Elements(db.conversations[c].members) == {a, b}
    requires var (x, y) := if swap then (b, a) else (a, b);
             IsCreation(db, x, Direct, None, [y], id, now, db', found)
    ensures db' == db && found == c
  {
    var (x, y) := if swap then (b, a) else (a, b);
    DistinctKeepsElements([x] + [y]);
    var memberIds := Distinct([x] + [y]);
    assert Elements([x] + [y]) == {a, b};
    AllAndSizeIsSetEquality(db.conversations[c], memberIds);
    assert c in Existing(db, memberIds);
    AllAndSizeIsSetEquality(db.conversations[found], memberIds);
    assert SameDirect(db.conversations[c], db.conversations[found]);
  }

  // ---------- Conversation list ----------

  /** The caller's unread messages in one conversation: sent by others and not yet `read`. */
  function UnreadIds(db: Store, c: ConversationId, u: UserId): set<MessageId> {
    set m | m in db.messages && db.messages[m].conversation == c && db.messages[m].sender != u &&
        db.messages[m].status != Read
  }

  /** The aggregation's `$match` over all listed conversations. */
  function UnreadMatches(db: Store, listed: set<ConversationId>, u: UserId): set<MessageId> {
    set m | m in db.messages && db.messages[m].conversation in listed && db.messages[m].sender != u &&
        db.messages[m].status != Read
  }

  function ConversationsOf(db: Store, ids: set<MessageId>): set<ConversationId> {
    set m | m in ids && m in db.messages :: db.messages[m].conversation
  }

  /** The aggregation's `$group` by conversation, with a count. */
  function UnreadGroups(db: Store, listed: set<ConversationId>, u: UserId): map<ConversationId, nat> {
    var matches := UnreadMatches(db, listed, u);
    var conversations := ConversationsOf(db, matches);
    map c | c in conversations :: |set m | m in matches && db.messages[m].conversation == c|
  }

  function CountOrZero(groups: map<ConversationId, nat>, c: ConversationId): nat {
    if c in groups then groups[c] else 0
  }

  /** The grouped counts, with 0 for a conversation without a group, are the sizes of the unread sets. */
  lemma GroupsCountUnread(db: Store, listed: set<ConversationId>, u: UserId, c: ConversationId)
    requires c in listed
    ensures CountOrZero(UnreadGroups(db, listed, u), c) == |UnreadIds(db, c, u)|
  {
    var matches := UnreadMatches(db, listed, u);
    var mine := set m | m in matches && db.messages[m].conversation == c;
    assert mine == UnreadIds(db, c, u);
    if m :| m in mine {
      assert c in ConversationsOf(db, matches);
    } else {
      forall m | m in matches ensures db.messages[m].conversation != c {
        assert m !in mine;
      }
    }
  }

  datatype Listed = Listed(conversation: ConversationId, unreadCount: nat)

  /** A possible result of `listConversations`: the caller's conversations as the first query finds them, newest
      `updatedAt` first, in any order among equal ones; and the counts that the aggregation, a second query, finds
      when it runs. */
  ghost predicate IsListing(db: Store, later: Store, u: UserId, listing: seq<Listed>) {
    var ids := seq(|listing|, i requires 0 <= i < |listing| => listing[i].conversation);
    && IsServerOrder(db, u, ids)
    && forall i :: 0 <= i < |listing| ==>
         listing[i].unreadCount == CountOrZero(UnreadGroups(later, Elements(ids), u), listing[i].conversation)
  }

  ghost predicate IsServerOrder(db: Store, u: UserId, ids: seq<ConversationId>) {
    && NoDuplicates(ids)
    && (forall c :: c in ids <==> IsMember(db, c, u))
    && (forall i :: 0 <= i < |ids| ==> ids[i] in db.conversations)
    && (forall i, j :: 0 <= i < j < |ids| ==> db.conversations[ids[i]].updatedAt >= db.conversations[ids[j]].updatedAt)
  }

  /** Every row of the list carries the number of the caller's unread messages in that conversation, as of the
      second query. */
  lemma ListingCountsUnread(db: Store, later: Store, u: UserId, listing: seq<Listed>, i: nat)
    requires IsListing(db, later, u, listing) && i < |listing|
    ensures listing[i].unreadCount == |UnreadIds(later, listing[i].conversation, u)|
  {
    var ids := seq(|listing|, k requires 0 <= k < |listing| => listing[k].conversation);
    assert ids[i] in ids;
    GroupsCountUnread(later, Elements(ids), u, ids[i]);
  }
}
