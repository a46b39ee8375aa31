/** What the unread counts mean over runs of whole handlers (AtomicServer). */
module Receipts {
  import opened Domain
  import opened Sanitize
  import opened SocketRateLimit
  import opened ConversationService
  import opened MessageValidator
  import opened AtomicServer
  import Service = MessageService

  // ---------- Acknowledgements ----------

  /** The acknowledgements of a run that come from members, for messages of the conversation stored by then. */
  ghost function Acknowledged(limits: Limits, w: World, es: seq<Event>): seq<Ack>
    decreases |es|
  {
    if es == [] then [] else
      var rest := Acknowledged(limits, Next(limits, w, es[0]), es[1..]);
      if es[0].Acknowledge? && Accepts(w.db, es[0]) then [Ack(es[0].user, es[0].conversation, es[0].upTo)] + rest
      else rest
  }

  lemma NextAcks(limits: Limits, w: World, e: Event)
    ensures Next(limits, w, e).acks ==
              if e.Acknowledge? && Accepts(w.db, e) then w.acks + [Ack(e.user, e.conversation, e.upTo)] else w.acks
  {
    NextAnswers(limits, w, e);
  }

  /** The server accepts these and no others. */
  lemma {:induction false} AcksAreAccepted(limits: Limits, w: World, es: seq<Event>)
    ensures Run(limits, w, es).acks == w.acks + Acknowledged(limits, w, es)
    decreases |es|
  {
    if es != [] {
      NextAcks(limits, w, es[0]);
      AcksAreAccepted(limits, Next(limits, w, es[0]), es[1..]);
    }
  }

  // ---------- Watermarks ----------

  /** The newest `createdAt` that u has acknowledged in conversation c; -1 before the first acknowledgement. */
  function Watermark(db: Store, acks: seq<Ack>, c: ConversationId, u: UserId): int {
    if acks == [] then -1 else
      var n := |acks| - 1;
      var a := acks[n];
      var older := Watermark(db, acks[..n], c, u);
      if a.conversation == c && a.user == u && a.upTo in db.messages && db.messages[a.upTo].createdAt > older
      then db.messages[a.upTo].createdAt else older
  }

  /** Some acknowledgement by u in c reaches `at`. */
  ghost predicate Reached(db: Store, acks: seq<Ack>, c: ConversationId, u: UserId, at: nat) {
    exists i :: 0 <= i < |acks| && Reaches(db, acks[i], c, u, at)
  }

  predicate Reaches(db: Store, a: Ack, c: ConversationId, u: UserId, at: nat) {
    a.conversation == c && a.user == u && a.upTo in db.messages && at <= db.messages[a.upTo].createdAt
  }

  lemma {:induction false} WatermarkReaches(db: Store, acks: seq<Ack>, c: ConversationId, u: UserId, at: nat)
    ensures at <= Watermark(db, acks, c, u) <==> Reached(db, acks, c, u, at)
  {
    if acks != [] {
      var n := |acks| - 1;
      WatermarkReaches(db, acks[..n], c, u, at);
      if Reached(db, acks[..n], c, u, at) {
        var i :| 0 <= i < n && Reaches(db, acks[..n][i], c, u, at);
        assert Reaches(db, acks[i], c, u, at);
      }
      if i :| 0 <= i < |acks| && Reaches(db, acks[i], c, u, at) {
        assert i == n || Reaches(db, acks[..n][i], c, u, at);
      }
    }
  }

  /** Somebody other than its sender has acknowledged the message or a later one in its conversation. */
  ghost predicate AckedByOther(w: World, m: MessageId)
    requires m in w.db.messages
  {
    exists i :: 0 <= i < |w.acks| && AcksAsOther(w.db, w.acks[i], w.db.messages[m])
  }

  predicate AcksAsOther(db: Store, a: Ack, message: Message) {
    a.user != message.sender && Reaches(db, a, message.conversation, a.user, message.createdAt)
  }

  ghost predicate ReadIffAcked(w: World) {
    forall m :: m in w.db.messages ==> (w.db.messages[m].status == Read <==> AckedByOther(w, m))
  }

  lemma AcksAsOtherStable(db: Store, db': Store, a: Ack, m: MessageId)
    requires Extends(db, db') && m in db.messages && a.upTo in db.messages
    ensures AcksAsOther(db, a, db.messages[m]) <==> AcksAsOther(db', a, db'.messages[m])
  {
  }

  lemma AckedStable(w: World, w': World, m: MessageId)
    requires Valid(w) && Extends(w.db, w'.db) && w'.acks == w.acks && m in w.db.messages
    ensures AckedByOther(w, m) <==> AckedByOther(w', m)
  {
  }

  /** Another member's acknowledgement already reaches time `now` in conversation c. */
  ghost predicate AckedAhead(w: World, c: ConversationId, sender: UserId, now: nat) {
    exists i :: 0 <= i < |w.acks| && w.acks[i].user != sender && Reaches(w.db, w.acks[i], c, w.acks[i].user, now)
  }

  /** Where two messages share a `createdAt`: a new message keeps `read` and acknowledgement in agreement
      exactly when no other member has already acknowledged a message as late as it. */
  lemma SendKeepsReadIffAckedIff(limits: Limits, w: World, e: Event)
    requires Valid(w) && Legal(w, e) && ReadIffAcked(w) && e.Send? && Next(limits, w, e).db != w.db
    ensures ReadIffAcked(Next(limits, w, e)) <==> !AckedAhead(w, e.conversation, e.user, e.createdAt)
  {
    var w' := Next(limits, w, e);
    NextExtends(limits, w, e);
    forall i | 0 <= i < |w.acks|
      ensures AcksAsOther(w'.db, w'.acks[i], w'.db.messages[e.message]) <==>
                w.acks[i].user != e.user && Reaches(w.db, w.acks[i], e.conversation, w.acks[i].user, e.createdAt)
    {
      assert ValidAck(w.db, w.acks[i]);
      assert SameButStatus(w.db.messages[w.acks[i].upTo], w'.db.messages[w.acks[i].upTo]);
    }
    assert AckedByOther(w', e.message) <==> AckedAhead(w, e.conversation, e.user, e.createdAt);
    forall m | m in w.db.messages
      ensures w'.db.messages[m].status == Read <==> AckedByOther(w', m)
    {
      AckedStable(w, w', m);
    }
  }

  lemma SendKeepsReadIffAcked(limits: Limits, w: World, e: Event)
    requires Valid(w) && Legal(w, e) && StrictClock(limits, w, e) && ReadIffAcked(w) && e.Send?
    ensures ReadIffAcked(Next(limits, w, e))
  {
    var w' := Next(limits, w, e);
    if w'.db == w.db {
      ExtendsRefl(w.db);
      StatusesKeepReadIffAcked(w, w');
    } else {
      forall i | 0 <= i < |w.acks|
        ensures !Reaches(w.db, w.acks[i], e.conversation, w.acks[i].user, e.createdAt)
      {
        assert ValidAck(w.db, w.acks[i]);
      }
      SendKeepsReadIffAckedIff(limits, w, e);
    }
  }

  lemma AcknowledgeKeepsReadIffAcked(limits: Limits, w: World, e: Event)
    requires Valid(w) && ReadIffAcked(w) && e.Acknowledge?
    ensures ReadIffAcked(Next(limits, w, e))
  {
    var w' := Next(limits, w, e);
    if w' != w {
      var a := Ack(e.user, e.conversation, e.upTo);
      NextExtends(limits, w, e);
      assert w'.acks == w.acks + [a];
      forall m | m in w'.db.messages
        ensures w'.db.messages[m].status == Read <==> AckedByOther(w', m)
      {
        var mid := w'.(acks := w.acks);
        AckedStable(w, mid, m);
        AckedAppend(mid, w', a, m);
        AcksAsOtherStable(w.db, w'.db, a, m);
      }
    }
  }

  lemma AckedAppend(w: World, w': World, a: Ack, m: MessageId)
    requires w'.db == w.db && w'.acks == w.acks + [a] && m in w.db.messages
    ensures AckedByOther(w', m) <==> AckedByOther(w, m) || AcksAsOther(w.db, a, w.db.messages[m])
  {
    if i :| 0 <= i < |w.acks| && AcksAsOther(w.db, w.acks[i], w.db.messages[m]) {
      assert AcksAsOther(w'.db, w'.acks[i], w'.db.messages[m]);
    }
    if AcksAsOther(w.db, a, w.db.messages[m]) {
      assert w'.acks[|w.acks|] == a;
    }
  }

  lemma NextKeepsReadIffAcked(limits: Limits, w: World, e: Event)
    requires Valid(w) && Legal(w, e) && StrictClock(limits, w, e) && ReadIffAcked(w)
    ensures ReadIffAcked(Next(limits, w, e))
  {
    match e
    case Send(_, _, _, _, _, _, _) => SendKeepsReadIffAcked(limits, w, e);
    case Acknowledge(_, _, _) => AcknowledgeKeepsReadIffAcked(limits, w, e);
    case Create(_, _, _, _, _, _) => CreateKeepsReadIffAcked(limits, w, e);
    case Deliver(_, _) => DeliverKeepsReadIffAcked(limits, w, e);
  }

  lemma CreateKeepsReadIffAcked(limits: Limits, w: World, e: Event)
    requires Valid(w) && Legal(w, e) && ReadIffAcked(w) && e.Create?
    ensures ReadIffAcked(Next(limits, w, e))
  {
  }

  lemma DeliverKeepsReadIffAcked(limits: Limits, w: World, e: Event)
    requires Valid(w) && ReadIffAcked(w) && e.Deliver?
    ensures ReadIffAcked(Next(limits, w, e))
  {
    var w' := Next(limits, w, e);
    NextExtends(limits, w, e);
    if Service.AfterDelivered(w.db, e.message, e.user).Ok? {
      DeliverKeepsRead(w.db, e.message, e.user);
    }
    assert SameRead(w.db, w'.db);
    StatusesKeepReadIffAcked(w, w');
  }

  lemma DeliverKeepsRead(db: Store, id: MessageId, u: UserId)
    requires Service.AfterDelivered(db, id, u).Ok?
    ensures SameRead(db, Service.AfterDelivered(db, id, u).value)
  {
  }

  ghost predicate SameRead(db: Store, db': Store) {
    db'.messages.Keys == db.messages.Keys &&
    forall m :: m in db.messages ==> (db'.messages[m].status == Read <==> db.messages[m].status == Read)
  }

  lemma StatusesKeepReadIffAcked(w: World, w': World)
    requires Valid(w) && ReadIffAcked(w) && Extends(w.db, w'.db) && w'.acks == w.acks
    requires SameRead(w.db, w'.db)
    ensures ReadIffAcked(w')
  {
    forall m | m in w'.db.messages
      ensures w'.db.messages[m].status == Read <==> AckedByOther(w', m)
    {
      AckedStable(w, w', m);
    }
  }

  lemma {:induction false} RunKeepsReadIffAcked(limits: Limits, w: World, es: seq<Event>)
    requires Valid(w) && LegalRun(limits, w, es) && StrictRun(limits, w, es) && ReadIffAcked(w)
    ensures ReadIffAcked(Run(limits, w, es)) && Valid(Run(limits, w, es))
    decreases |es|
  {
    if es != [] {
      NextValid(limits, w, es[0]);
      NextKeepsReadIffAcked(limits, w, es[0]);
      RunKeepsReadIffAcked(limits, Next(limits, w, es[0]), es[1..]);
    }
  }

  /** Others' messages that lie above the watermark of every member but their sender. */
  ghost function AboveWatermarks(w: World, c: ConversationId, u: UserId): set<MessageId> {
    set m | m in w.db.messages && w.db.messages[m].conversation == c && w.db.messages[m].sender != u &&
        AboveAll(w, w.db.messages[m])
  }

  /** Sent after the newest message that v has acknowledged. */
  predicate Above(w: World, message: Message, v: UserId) {
    Watermark(w.db, w.acks, message.conversation, v) < message.createdAt
  }

  ghost predicate AboveAll(w: World, message: Message) {
    message.conversation in w.db.conversations &&
    forall v :: v in w.db.conversations[message.conversation].members && v != message.sender ==> Above(w, message, v)
  }

  lemma AckedIffNotAbove(w: World, m: MessageId)
    requires Valid(w) && m in w.db.messages
    ensures AckedByOther(w, m) <==> !AboveAll(w, w.db.messages[m])
  {
    var message := w.db.messages[m];
    var c := message.conversation;
    assert ValidMessage(w.db, message);
    if i :| 0 <= i < |w.acks| && AcksAsOther(w.db, w.acks[i], message) {
      var a := w.acks[i];
      assert ValidAck(w.db, a);
      assert Reached(w.db, w.acks, c, a.user, message.createdAt);
      WatermarkReaches(w.db, w.acks, c, a.user, message.createdAt);
    }
    if v :| v in w.db.conversations[c].members && v != message.sender && !Above(w, message, v) {
      WatermarkReaches(w.db, w.acks, c, v, message.createdAt);
      var i :| 0 <= i < |w.acks| && Reaches(w.db, w.acks[i], c, v, message.createdAt);
      assert AcksAsOther(w.db, w.acks[i], message);
    }
  }

  /** Over every run with strictly increasing `createdAt`, the acknowledgements counting being those from members for
      stored messages: a message is `read` iff some member other than
      its sender has acknowledged it or a later message, and a user's unread messages are exactly the others'
      messages above the watermark of every member but their sender. */
  lemma UnreadIsAboveWatermarks(limits: Limits, es: seq<Event>, c: ConversationId, u: UserId)
    requires LegalRun(limits, INITIAL, es) && StrictRun(limits, INITIAL, es)
    ensures var w := Run(limits, INITIAL, es);
            && w.acks == Acknowledged(limits, INITIAL, es)
            && ReadIffAcked(w) && UnreadIds(w.db, c, u) == AboveWatermarks(w, c, u)
  {
    AcksAreAccepted(limits, INITIAL, es);
    RunKeepsReadIffAcked(limits, INITIAL, es);
    var w := Run(limits, INITIAL, es);
    forall m | m in w.db.messages
      ensures w.db.messages[m].status == Read <==> !AboveAll(w, w.db.messages[m])
    {
      AckedIffNotAbove(w, m);
    }
  }

  /** In a 1:1 conversation of u and v, what u has not read is what v sent after u's own watermark. */
  lemma DirectUnreadIsAboveOwnWatermark(limits: Limits, es: seq<Event>, c: ConversationId, u: UserId, v: UserId)
    requires LegalRun(limits, INITIAL, es) && StrictRun(limits, INITIAL, es) && u != v
    requires c in Run(limits, INITIAL, es).db.conversations
    requires Elements(Run(limits, INITIAL, es).db.conversations[c].members) == {u, v}
    ensures var w := Run(limits, INITIAL, es);
            w.acks == Acknowledged(limits, INITIAL, es) &&
            UnreadIds(w.db, c, u) ==
              set m | m in w.db.messages && w.db.messages[m].conversation == c && w.db.messages[m].sender == v &&
                      w.db.messages[m].createdAt > Watermark(w.db, w.acks, c, u)
  {
    var w := Run(limits, INITIAL, es);
    UnreadIsAboveWatermarks(limits, es, c, u);
    RunValid(limits, INITIAL, es);
    var members := w.db.conversations[c].members;
    assert forall x :: x in members <==> x in Elements(members);
    forall m | m in w.db.messages && w.db.messages[m].conversation == c && w.db.messages[m].sender != u
      ensures w.db.messages[m].sender == v
      ensures AboveAll(w, w.db.messages[m]) <==> w.db.messages[m].createdAt > Watermark(w.db, w.acks, c, u)
    {
      assert ValidMessage(w.db, w.db.messages[m]);
    }
  }

  /** What u has not acknowledged: others' messages above u's own watermark. */
  ghost function OwnUnread(w: World, c: ConversationId, u: UserId): set<MessageId> {
    set m | m in w.db.messages && w.db.messages[m].conversation == c && w.db.messages[m].sender != u &&
            w.db.messages[m].createdAt > Watermark(w.db, w.acks, c, u)
  }

  /** A third member has acknowledged a message of somebody else that u has not. */
  ghost predicate ReadByThird(w: World, c: ConversationId, u: UserId) {
    exists m :: m in OwnUnread(w, c, u) && !AboveOthers(w, w.db.messages[m], u)
  }

  ghost predicate AboveOthers(w: World, message: Message, u: UserId) {
    message.conversation in w.db.conversations &&
    forall v :: v in w.db.conversations[message.conversation].members && v != message.sender && v != u ==>
                  Above(w, message, v)
  }

  /** One status is shared by all readers, so in a group a member's unread messages are the ones that member
      has not acknowledged exactly when no third member has acknowledged one of those first. */
  lemma UnreadIsOwnIff(limits: Limits, es: seq<Event>, c: ConversationId, u: UserId)
    requires LegalRun(limits, INITIAL, es) && StrictRun(limits, INITIAL, es)
    requires IsMember(Run(limits, INITIAL, es).db, c, u)
    ensures var w := Run(limits, INITIAL, es);
            && w.acks == Acknowledged(limits, INITIAL, es)
            && (UnreadIds(w.db, c, u) == OwnUnread(w, c, u) <==> !ReadByThird(w, c, u))
  {
    var w := Run(limits, INITIAL, es);
    UnreadIsAboveWatermarks(limits, es, c, u);
    RunValid(limits, INITIAL, es);
    forall m | m in w.db.messages && w.db.messages[m].conversation == c && w.db.messages[m].sender != u
      ensures m in UnreadIds(w.db, c, u) <==> m in OwnUnread(w, c, u) && AboveOthers(w, w.db.messages[m], u)
    {
      assert m in UnreadIds(w.db, c, u) <==> m in AboveWatermarks(w, c, u);
    }
  }

  lemma FirstRead(limits: Limits, a: UserId, b: UserId, c: UserId, s: SocketId)
    requires a != b
    ensures var w := Next(limits, FirstMessage(limits, Group, a, [b, c], s), Acknowledge(b, 0, 0));
            && IsMember(w.db, 0, b) && IsMember(w.db, 0, c)
            && w.db.messages == map[0 := Message(0, a, ONE_LETTER, Read, 0)] && w.acks == [Ack(b, 0, 0)]
  {
    FirstMessageStored(limits, Group, a, [b, c], s);
    var listed := [a] + [b, c];
    assert b in Elements(listed) && c in Elements(listed) by { assert listed[1] == b && listed[2] == c; }
  }

  lemma WatermarkOfOne(db: Store, a: Ack, c: ConversationId, u: UserId)
    requires a.upTo in db.messages
    ensures Watermark(db, [a], c, u) == if a.conversation == c && a.user == u then db.messages[a.upTo].createdAt else -1
  {
    assert [a][..0] == [];
  }

  /** a writes to a group with b and c, b reads it: c has not acknowledged the message, yet c's unread count no
      longer shows it. */
  lemma ReadByThirdHappens(limits: Limits, a: UserId, b: UserId, c: UserId, s: SocketId)
    requires a != b && b != c && a != c
    ensures var w := Next(limits, FirstMessage(limits, Group, a, [b, c], s), Acknowledge(b, 0, 0));
            && IsMember(w.db, 0, c) && ReadByThird(w, 0, c)
            && OwnUnread(w, 0, c) == {0} && UnreadIds(w.db, 0, c) == {}
  {
    var w := Next(limits, FirstMessage(limits, Group, a, [b, c], s), Acknowledge(b, 0, 0));
    FirstRead(limits, a, b, c, s);
    WatermarkOfOne(w.db, Ack(b, 0, 0), 0, b);
    WatermarkOfOne(w.db, Ack(b, 0, 0), 0, c);
    assert 0 in OwnUnread(w, 0, c) && !AboveOthers(w, w.db.messages[0], c);
  }

  // ---------- Conservation ----------

  ghost function SentByOthers(db: Store, ids: set<MessageId>, v: UserId): set<MessageId> {
    set m | m in ids && m in db.messages && db.messages[m].sender != v
  }

  /** A read acknowledgement lowers the reader's unread count by the number of broadcast ids, another user's
      by the number of those ids that user did not send, and no count in another conversation. */
  lemma ReadConservation(db: Store, c: ConversationId, upTo: MessageId, reader: UserId, v: UserId, d: ConversationId)
    requires Service.AfterRead(db, c, upTo, reader).Ok?
    ensures var (db', ids) := Service.AfterRead(db, c, upTo, reader).value;
            && |UnreadIds(db, c, reader)| == |UnreadIds(db', c, reader)| + |ids|
            && |UnreadIds(db, c, v)| == |UnreadIds(db', c, v)| + |SentByOthers(db, ids, v)|
            && (d != c ==> UnreadIds(db', d, v) == UnreadIds(db, d, v))
  {
    var (db', ids) := Service.AfterRead(db, c, upTo, reader).value;
    ReadSplits(db, db', ids, c, v);
    ReadSplits(db, db', ids, c, reader);
    assert ids == SentByOthers(db, ids, reader);
  }

  lemma ReadSplits(db: Store, db': Store, ids: set<MessageId>, c: ConversationId, v: UserId)
    requires forall m :: m in ids ==>
        m in db.messages && db.messages[m].conversation == c && db.messages[m].status != Read
    requires db' == db.(messages := Service.SetRead(db.messages, ids))
    ensures |UnreadIds(db, c, v)| == |UnreadIds(db', c, v)| + |SentByOthers(db, ids, v)|
  {
    var before, after, moved := UnreadIds(db, c, v), UnreadIds(db', c, v), SentByOthers(db, ids, v);
    assert before == after + moved;
    DisjointCount(before, after, moved);
  }

  lemma DisjointCount<T>(whole: set<T>, a: set<T>, b: set<T>)
    requires whole == a + b && a !! b
    ensures |whole| == |a| + |b|
  {
  }

  /** Every id in a `message:read` broadcast is now `read`, and no two such broadcasts share an id. */
  ghost predicate ReadOnce(w: World) {
    && (forall i :: 0 <= i < |w.emitted| && w.emitted[i].MessageRead? ==> AllRead(w.db, w.emitted[i].ids))
    && (forall i, j :: 0 <= i < j < |w.emitted| && w.emitted[i].MessageRead? && w.emitted[j].MessageRead? ==>
          w.emitted[i].ids !! w.emitted[j].ids)
  }

  ghost predicate AllRead(db: Store, ids: set<MessageId>) {
    forall m :: m in ids ==> m in db.messages && db.messages[m].status == Read
  }

  /** Whole handlers never take `read` back. */
  ghost predicate ReadStays(db: Store, db': Store) {
    forall m :: m in db.messages && db.messages[m].status == Read ==>
        m in db'.messages && db'.messages[m].status == Read
  }

  lemma NextReadStays(limits: Limits, w: World, e: Event)
    requires Legal(w, e)
    ensures ReadStays(w.db, Next(limits, w, e).db)
  {
  }

  lemma NextReadOnce(limits: Limits, w: World, e: Event)
    requires ReadOnce(w) && Legal(w, e)
    ensures ReadOnce(Next(limits, w, e))
  {
    var w' := Next(limits, w, e);
    NextReadStays(limits, w, e);
    NextEmits(limits, w, e);
    var n := |w.emitted|;
    forall i | 0 <= i < |w'.emitted| && w'.emitted[i].MessageRead?
      ensures AllRead(w'.db, w'.emitted[i].ids)
    {
      assert i < n ==> AllRead(w.db, w.emitted[i].ids);
    }
    forall i, j | 0 <= i < j < |w'.emitted| && w'.emitted[i].MessageRead? && w'.emitted[j].MessageRead?
      ensures w'.emitted[i].ids !! w'.emitted[j].ids
    {
      assert AllRead(w.db, w.emitted[i].ids);
    }
  }

  /** A step emits at most one broadcast; a `message:read` names messages that were unread before and are
      read after. */
  lemma NextEmits(limits: Limits, w: World, e: Event)
    requires Legal(w, e)
    ensures var w' := Next(limits, w, e);
            w'.emitted == w.emitted ||
            (|w'.emitted| == |w.emitted| + 1 && w'.emitted[..|w.emitted|] == w.emitted &&
             var b := w'.emitted[|w.emitted|];
             b.MessageRead? ==>
               AllRead(w'.db, b.ids) &&
               forall m :: m in b.ids ==> m in w.db.messages && w.db.messages[m].status != Read)
  {
  }

  /** Over a whole run each message id appears in at most one `message:read` broadcast. */
  lemma {:induction false} EachReadBroadcastOnce(limits: Limits, w: World, es: seq<Event>)
    requires ReadOnce(w) && LegalRun(limits, w, es)
    ensures ReadOnce(Run(limits, w, es))
    decreases |es|
  {
    if es != [] {
      NextReadOnce(limits, w, es[0]);
      EachReadBroadcastOnce(limits, Next(limits, w, es[0]), es[1..]);
    }
  }
}
