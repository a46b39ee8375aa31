/** The message list a client keeps for its active conversation: the state updaters of
    frontend-ui/src/hooks/useMessages.ts, fed by the broadcasts of AtomicServer. */
module MessageReplica {
  import opened Domain
  import opened SocketRateLimit
  import opened AtomicServer
  import opened ConversationService
  import opened MessageValidator
  import Service = MessageService

  /** One entry of the list. */
  datatype Shown = Shown(id: MessageId, message: Message)

  /** What one broadcast does to one entry: `onDelivered` advances `sent` only, `onRead` overwrites. */
  function Touch(active: ConversationId, x: Shown, b: Broadcast): Shown {
    match b
    case MessageNew(_, _) => x
    case MessageDelivered(c, id, _) =>
      if c == active && x.id == id && x.message.status == Sent
      then x.(message := x.message.(status := Delivered)) else x
    case MessageRead(c, ids, _) =>
      if c == active && x.id in ids then x.(message := x.message.(status := Read)) else x
  }

  predicate Appends(active: ConversationId, b: Broadcast) {
    b.MessageNew? && b.message.conversation == active
  }

  /** The list after one event: `onNewMessage` appends, the receipts map over the list. */
  function Reduce(active: ConversationId, view: seq<Shown>, b: Broadcast): (r: seq<Shown>)
  {
    if Appends(active, b) then view + [Shown(b.id, b.message)]
    else seq(|view|, i requires 0 <= i < |view| => Touch(active, view[i], b))
  }

  function ReduceAll(active: ConversationId, view: seq<Shown>, es: seq<Broadcast>): seq<Shown>
    decreases |es|
  {
    if es == [] then view else ReduceAll(active, Reduce(active, view, es[0]), es[1..])
  }

  function TouchAll(active: ConversationId, x: Shown, es: seq<Broadcast>): Shown
    decreases |es|
  {
    if es == [] then x else TouchAll(active, Touch(active, x, es[0]), es[1..])
  }

  // ---------- Receipts are joins ----------

  predicate ReadsId(active: ConversationId, b: Broadcast, id: MessageId) {
    b.MessageRead? && b.conversation == active && id in b.ids
  }

  predicate DeliversId(active: ConversationId, b: Broadcast, id: MessageId) {
    b.MessageDelivered? && b.conversation == active && b.id == id
  }

  predicate IsReceiptOf(active: ConversationId, b: Broadcast, id: MessageId) {
    ReadsId(active, b, id) || DeliversId(active, b, id)
  }

  ghost predicate SomeRead(active: ConversationId, es: seq<Broadcast>, id: MessageId) {
    exists b :: b in es && ReadsId(active, b, id)
  }

  ghost predicate SomeDelivered(active: ConversationId, es: seq<Broadcast>, id: MessageId) {
    exists b :: b in es && DeliversId(active, b, id)
  }

  /** The least upper bound, in sent < delivered < read, of a status and the receipts for one message. */
  ghost function Joined(active: ConversationId, s: Status, es: seq<Broadcast>, id: MessageId): Status {
    if s == Read || SomeRead(active, es, id) then Read
    else if s == Delivered || SomeDelivered(active, es, id) then Delivered
    else Sent
  }

  /** Any sequence of events leaves an entry at the join of its status and its receipts; nothing else of
      it changes. */
  lemma {:induction false} TouchAllIsJoin(active: ConversationId, x: Shown, es: seq<Broadcast>)
    ensures TouchAll(active, x, es) == x.(message := x.message.(status := Joined(active, x.message.status, es, x.id)))
    decreases |es|
  {
    if es != [] {
      TouchAllIsJoin(active, Touch(active, x, es[0]), es[1..]);
      SomeFirst(active, es, x.id);
    }
  }

  lemma SomeFirst(active: ConversationId, es: seq<Broadcast>, id: MessageId)
    requires es != []
    ensures SomeRead(active, es, id) <==> ReadsId(active, es[0], id) || SomeRead(active, es[1..], id)
    ensures SomeDelivered(active, es, id) <==> DeliversId(active, es[0], id) || SomeDelivered(active, es[1..], id)
  {
  }

  ghost predicate OnlyReceipts(es: seq<Broadcast>) {
    forall b :: b in es ==> !b.MessageNew?
  }

  lemma {:induction false} ReceiptsTouchEntries(active: ConversationId, view: seq<Shown>, es: seq<Broadcast>)
    requires OnlyReceipts(es)
    ensures |ReduceAll(active, view, es)| == |view|
    ensures forall k :: 0 <= k < |view| ==> ReduceAll(active, view, es)[k] == TouchAll(active, view[k], es)
    decreases |es|
  {
    if es != [] {
      assert es[0] in es;
      assert OnlyReceipts(es[1..]);
      ReceiptsTouchEntries(active, Reduce(active, view, es[0]), es[1..]);
    }
  }

  /** Receipts may be reordered, repeated or delivered in different batches: two clients that saw the same
      set of them, from the same list, show the same list. */
  lemma ReceiptsConverge(active: ConversationId, view: seq<Shown>, es: seq<Broadcast>, fs: seq<Broadcast>)
    requires OnlyReceipts(es) && OnlyReceipts(fs)
    requires forall b :: b in es <==> b in fs
    ensures ReduceAll(active, view, es) == ReduceAll(active, view, fs)
  {
    ReceiptsTouchEntries(active, view, es);
    ReceiptsTouchEntries(active, view, fs);
    forall k | 0 <= k < |view|
      ensures ReduceAll(active, view, es)[k] == ReduceAll(active, view, fs)[k]
    {
      TouchAllIsJoin(active, view[k], es);
      TouchAllIsJoin(active, view[k], fs);
      JoinedBySet(active, view[k].message.status, es, fs, view[k].id);
    }
  }

  lemma JoinedBySet(active: ConversationId, s: Status, es: seq<Broadcast>, fs: seq<Broadcast>, id: MessageId)
    requires forall b :: IsReceiptOf(active, b, id) ==> (b in es <==> b in fs)
    ensures Joined(active, s, es, id) == Joined(active, s, fs, id)
  {
  }

  function Level(active: ConversationId, b: Broadcast, id: MessageId): nat {
    if ReadsId(active, b, id) then 2 else if DeliversId(active, b, id) then 1 else 0
  }

  /** One event: a message announced for the active conversation is appended as it is; any other event keeps every
      entry but for its status, which becomes the higher of what it was and what the event says. */
  lemma EventMeaning(active: ConversationId, view: seq<Shown>, b: Broadcast)
    ensures b.MessageNew? && b.message.conversation == active ==>
              Reduce(active, view, b) == view + [Shown(b.id, b.message)]
    ensures !(b.MessageNew? && b.message.conversation == active) ==>
              var next := Reduce(active, view, b);
              && |next| == |view|
              && forall k :: 0 <= k < |view| ==>
                   && next[k] == view[k].(message := view[k].message.(status := next[k].message.status))
                   && Rank(next[k].message.status) ==
                        (if Rank(view[k].message.status) < Level(active, b, view[k].id)
                         then Level(active, b, view[k].id) else Rank(view[k].message.status))
  {
  }

  // ---------- The database status is the join of its broadcasts ----------

  /** Every broadcast is about a stored message, under that message's conversation; every stored status is
      the join of `sent` and the receipts broadcast so far. */
  ghost predicate StatusIsJoin(w: World) {
    && (forall b :: b in w.emitted ==> AboutStored(w.db, b) && Announced(w.db, b))
    && (forall m :: m in w.db.messages ==> JoinOfReceipts(w, m))
  }

  /** A stored message agrees, apart from its status, with the one announced. */
  ghost predicate Announced(db: Store, b: Broadcast) {
    b.MessageNew? ==> b.id in db.messages && b.message.status == Sent && SameButStatus(b.message, db.messages[b.id])
  }

  ghost predicate AboutStored(db: Store, b: Broadcast) {
    forall m :: Concerns(b, m) ==> m in db.messages && ConversationOf(b) == db.messages[m].conversation
  }

  ghost predicate JoinOfReceipts(w: World, m: MessageId)
    requires m in w.db.messages
  {
    w.db.messages[m].status == Joined(w.db.messages[m].conversation, Sent, w.emitted, m)
  }

  predicate Concerns(b: Broadcast, m: MessageId) {
    match b
    case MessageNew(_, _) => false
    case MessageDelivered(_, id, _) => id == m
    case MessageRead(_, ids, _) => m in ids
  }

  lemma JoinedAppend(c: ConversationId, s: Status, es: seq<Broadcast>, b: Broadcast, id: MessageId)
    ensures Joined(c, s, es + [b], id) == Joined(c, Joined(c, s, es, id), [b], id)
  {
  }

  lemma JoinedConcat(c: ConversationId, s: Status, es: seq<Broadcast>, fs: seq<Broadcast>, id: MessageId)
    ensures Joined(c, s, es + fs, id) == Joined(c, Joined(c, s, es, id), fs, id)
  {
  }

  /** A step either emits nothing and keeps every status, or emits one broadcast: a `message:new` for the one
      new message, or a receipt that moves each status exactly as a client's updater would. */
  ghost predicate Mirrors(w: World, w': World) {
    || (w'.emitted == w.emitted && w'.db.messages == w.db.messages)
    || (exists b :: w'.emitted == w.emitted + [b] && MirrorsOne(w, b, w'))
  }

  ghost predicate MirrorsOne(w: World, b: Broadcast, w': World) {
    match b
    case MessageNew(id, message) =>
      id !in w.db.messages && message.status == Sent && w'.db.messages == w.db.messages[id := message]
    case _ =>
      && w'.db.messages.Keys == w.db.messages.Keys
      && (forall m :: m in w.db.messages ==> Touched(w.db.messages[m], b, m, w'.db.messages[m]))
      && AboutStored(w.db, b)
  }

  ghost predicate Touched(message: Message, b: Broadcast, m: MessageId, message': Message) {
    Shown(m, message') == Touch(message.conversation, Shown(m, message), b)
  }

  lemma NextMirrors(limits: Limits, w: World, e: Event)
    requires Legal(w, e)
    ensures Mirrors(w, Next(limits, w, e))
  {
    var w' := Next(limits, w, e);
    match e
    case Create(_, _, _, _, _, _) =>
    case Send(_, _, _, _, _, _, _) =>
      if w'.emitted != w.emitted {
        var b := w'.emitted[|w.emitted|];
        assert w'.emitted == w.emitted + [b] && MirrorsOne(w, b, w');
      }
    case Deliver(user, id) =>
      DeliverMirrors(limits, w, e);
    case Acknowledge(user, c, upTo) =>
      AcknowledgeMirrors(limits, w, e);
  }

  lemma DeliverMirrors(limits: Limits, w: World, e: Event)
    requires e.Deliver?
    ensures Mirrors(w, Next(limits, w, e))
  {
  }

  lemma AcknowledgeMirrors(limits: Limits, w: World, e: Event)
    requires e.Acknowledge?
    ensures Mirrors(w, Next(limits, w, e))
  {
  }

  lemma OldMessageStaysJoin(w: World, b: Broadcast, w': World, m: MessageId)
    requires w'.emitted == w.emitted + [b] && m in w.db.messages && m in w'.db.messages
    requires JoinOfReceipts(w, m) && Touched(w.db.messages[m], b, m, w'.db.messages[m])
    ensures JoinOfReceipts(w', m)
  {
    var c := w.db.messages[m].conversation;
    JoinedAppend(c, Sent, w.emitted, b, m);
    TouchAllIsJoin(c, Shown(m, w.db.messages[m]), [b]);
    assert [b][1..] == [];
  }

  lemma NewMessageIsJoin(w: World, b: Broadcast, w': World)
    requires StatusIsJoin(w) && w'.emitted == w.emitted + [b] && b.MessageNew? && MirrorsOne(w, b, w')
    ensures JoinOfReceipts(w', b.id)
  {
  }

  lemma NextStatusIsJoin(w: World, w': World)
    requires StatusIsJoin(w) && Mirrors(w, w')
    ensures StatusIsJoin(w')
  {
    if w'.emitted == w.emitted && w'.db.messages == w.db.messages {
      forall m | m in w'.db.messages ensures JoinOfReceipts(w', m) {
        assert JoinOfReceipts(w, m);
      }
      forall x | x in w'.emitted ensures AboutStored(w'.db, x) && Announced(w'.db, x) {
        assert AboutStored(w.db, x) && Announced(w.db, x);
      }
    } else {
      var b :| w'.emitted == w.emitted + [b] && MirrorsOne(w, b, w');
      forall x | x in w'.emitted ensures AboutStored(w'.db, x) && Announced(w'.db, x) {
        AnnouncedStable(w, b, w', x);
      }
      forall m | m in w'.db.messages
        ensures JoinOfReceipts(w', m)
      {
        if m in w.db.messages {
          assert JoinOfReceipts(w, m);
          if b.MessageNew? {
            assert Touched(w.db.messages[m], b, m, w'.db.messages[m]);
          }
          OldMessageStaysJoin(w, b, w', m);
        } else {
          NewMessageIsJoin(w, b, w');
        }
      }
    }
  }

  lemma AnnouncedStable(w: World, b: Broadcast, w': World, x: Broadcast)
    requires w'.emitted == w.emitted + [b] && MirrorsOne(w, b, w') && x in w'.emitted
    requires x in w.emitted ==> AboutStored(w.db, x) && Announced(w.db, x)
    ensures AboutStored(w'.db, x) && Announced(w'.db, x)
  {
  }

  lemma {:induction false} RunStatusIsJoin(limits: Limits, w: World, es: seq<Event>)
    requires StatusIsJoin(w) && LegalRun(limits, w, es)
    ensures StatusIsJoin(Run(limits, w, es))
    ensures w.emitted <= Run(limits, w, es).emitted
    decreases |es|
  {
    if es != [] {
      NextMirrors(limits, w, es[0]);
      NextStatusIsJoin(w, Next(limits, w, es[0]));
      RunStatusIsJoin(limits, Next(limits, w, es[0]), es[1..]);
    }
  }

  // ---------- The client ends with the database's messages ----------

  ghost predicate Settled(view: seq<Shown>, db: Store) {
    forall k :: 0 <= k < |view| ==> Matches(view[k], db)
  }

  ghost predicate Matches(x: Shown, db: Store) {
    x.id in db.messages && x.message == db.messages[x.id]
  }

  /** Every entry already shown, and every entry yet to be appended, ends equal to the stored message. */
  ghost predicate WillSettle(active: ConversationId, view: seq<Shown>, es: seq<Broadcast>, db: Store) {
    && (forall k :: 0 <= k < |view| ==> EntrySettles(active, view, es, db, k))
    && (forall p :: 0 <= p < |es| ==> AppendSettles(active, es, db, p))
  }

  ghost predicate EntrySettles(active: ConversationId, view: seq<Shown>, es: seq<Broadcast>, db: Store, k: int)
    requires 0 <= k < |view|
  {
    Matches(TouchAll(active, view[k], es), db)
  }

  ghost predicate AppendSettles(active: ConversationId, es: seq<Broadcast>, db: Store, p: int)
    requires 0 <= p < |es|
  {
    Appends(active, es[p]) ==> Matches(TouchAll(active, Shown(es[p].id, es[p].message), es[p + 1..]), db)
  }

  lemma NextWillSettle(active: ConversationId, view: seq<Shown>, es: seq<Broadcast>, db: Store)
    requires es != []
    ensures WillSettle(active, view, es, db) <==> WillSettle(active, Reduce(active, view, es[0]), es[1..], db)
  {
    var next, rest := Reduce(active, view, es[0]), es[1..];
    assert es[0 + 1..] == rest;
    forall k | 0 <= k < |view|
      ensures EntrySettles(active, view, es, db, k) <==> EntrySettles(active, next, rest, db, k)
    {
      assert Appends(active, es[0]) ==> next[k] == view[k] == Touch(active, view[k], es[0]);
    }
    if Appends(active, es[0]) {
      assert AppendSettles(active, es, db, 0) <==> EntrySettles(active, next, rest, db, |view|);
    }
    forall p | 0 <= p < |rest| ensures AppendSettles(active, rest, db, p) <==> AppendSettles(active, es, db, p + 1) {
      assert es[p + 1] == rest[p] && es[p + 1 + 1..] == rest[p + 1..];
    }
    if WillSettle(active, next, rest, db) {
      assert forall k :: 0 <= k < |view| ==> EntrySettles(active, next, rest, db, k);
      forall p | 0 <= p < |es| ensures AppendSettles(active, es, db, p) {
        if p > 0 {
          assert AppendSettles(active, rest, db, p - 1);
        } else if Appends(active, es[0]) {
          assert EntrySettles(active, next, rest, db, |view|);
        }
      }
    }
    if WillSettle(active, view, es, db) {
      assert AppendSettles(active, es, db, 0);
      forall k | 0 <= k < |next| ensures EntrySettles(active, next, rest, db, k) {
        assert k < |view| ==> EntrySettles(active, view, es, db, k);
      }
      forall p | 0 <= p < |rest| ensures AppendSettles(active, rest, db, p) {
        assert AppendSettles(active, es, db, p + 1);
      }
    }
  }

  lemma {:induction false} SettlesIff(active: ConversationId, view: seq<Shown>, es: seq<Broadcast>, db: Store)
    ensures Settled(ReduceAll(active, view, es), db) <==> WillSettle(active, view, es, db)
    decreases |es|
  {
    if es == [] {
      assert forall k :: 0 <= k < |view| ==> (EntrySettles(active, view, es, db, k) <==> Matches(view[k], db));
    } else {
      NextWillSettle(active, view, es, db);
      SettlesIff(active, Reduce(active, view, es[0]), es[1..], db);
    }
  }

  /** The client starts from a snapshot of the store and sees only real broadcasts, in any order and any
      number of times; every receipt of a shown message that came after the snapshot, or after the message's
      own `message:new`, arrives after that message is shown. */
  ghost predicate Fed(active: ConversationId, snapshot: World, w: World, view: seq<Shown>, es: seq<Broadcast>)
    requires |snapshot.emitted| <= |w.emitted|
  {
    && (forall k :: 0 <= k < |view| ==> Matches(view[k], snapshot.db) && view[k].message.conversation == active)
    && (forall b :: b in es ==> b in w.emitted)
    && (forall k, b :: 0 <= k < |view| && b in w.emitted[|snapshot.emitted|..] ==>
          (IsReceiptOf(active, b, view[k].id) ==> b in es))
    && (forall p, b :: 0 <= p < |es| && Appends(active, es[p]) && b in w.emitted ==>
          (IsReceiptOf(active, b, es[p].id) ==> b in es[p + 1..]))
  }

  // ---------- Exactly which entries settle ----------

  /** The receipts an entry has seen move its status as far as those it should have seen. */
  ghost predicate Informed(active: ConversationId, x: Shown, seen: seq<Broadcast>, due: seq<Broadcast>) {
    Joined(active, x.message.status, seen, x.id) == Joined(active, x.message.status, due, x.id)
  }

  lemma SnapshotEntrySettlesIff(active: ConversationId, snapshot: World, w: World, x: Shown, es: seq<Broadcast>)
    requires StatusIsJoin(snapshot) && StatusIsJoin(w) && snapshot.emitted <= w.emitted && Extends(snapshot.db, w.db)
    requires Matches(x, snapshot.db) && x.message.conversation == active
    ensures Matches(TouchAll(active, x, es), w.db) <==> Informed(active, x, es, w.emitted[|snapshot.emitted|..])
  {
    var after := w.emitted[|snapshot.emitted|..];
    assert w.emitted == snapshot.emitted + after;
    assert JoinOfReceipts(snapshot, x.id) && JoinOfReceipts(w, x.id);
    assert SameButStatus(snapshot.db.messages[x.id], w.db.messages[x.id]);
    TouchAllIsJoin(active, x, es);
    JoinedConcat(active, Sent, snapshot.emitted, after, x.id);
  }

  lemma NewEntrySettlesIff(active: ConversationId, w: World, b: Broadcast, es: seq<Broadcast>)
    requires StatusIsJoin(w) && b in w.emitted && Appends(active, b)
    ensures Matches(TouchAll(active, Shown(b.id, b.message), es), w.db) <==>
              Informed(active, Shown(b.id, b.message), es, w.emitted)
  {
    assert Announced(w.db, b) && JoinOfReceipts(w, b.id);
    assert SameButStatus(b.message, w.db.messages[b.id]);
    TouchAllIsJoin(active, Shown(b.id, b.message), es);
  }

  /** Every entry of the snapshot has learned what was broadcast since, and every announced one what was
      broadcast about it. */
  ghost predicate AllInformed(active: ConversationId, snapshot: World, w: World, view: seq<Shown>, es: seq<Broadcast>)
    requires |snapshot.emitted| <= |w.emitted|
  {
    && (forall k :: 0 <= k < |view| ==> Informed(active, view[k], es, w.emitted[|snapshot.emitted|..]))
    && (forall p :: 0 <= p < |es| && Appends(active, es[p]) ==>
          Informed(active, Shown(es[p].id, es[p].message), es[p + 1..], w.emitted))
  }

  /** Whatever events reach the client, in whatever order and however many are lost: its list ends equal to the
      stored messages exactly when each entry has seen, after it was shown, receipts that reach as far as those
      broadcast since its snapshot (since it was stored, for an announced one). */
  lemma ReplicaSettlesIff(limits: Limits, before: seq<Event>, after: seq<Event>, active: ConversationId,
                          view: seq<Shown>, es: seq<Broadcast>)
    requires LegalRun(limits, INITIAL, before) && LegalRun(limits, Run(limits, INITIAL, before), after)
    requires forall k :: 0 <= k < |view| ==>
               Matches(view[k], Run(limits, INITIAL, before).db) && view[k].message.conversation == active
    requires forall b :: b in es && b.MessageNew? ==> b in Run(limits, Run(limits, INITIAL, before), after).emitted
    ensures var (snapshot, w) := (Run(limits, INITIAL, before), Run(limits, Run(limits, INITIAL, before), after));
            && |snapshot.emitted| <= |w.emitted|
            && (Settled(ReduceAll(active, view, es), w.db) <==> AllInformed(active, snapshot, w, view, es))
  {
    var (snapshot, w) := (Run(limits, INITIAL, before), Run(limits, Run(limits, INITIAL, before), after));
    RunStatusIsJoin(limits, INITIAL, before);
    RunStatusIsJoin(limits, snapshot, after);
    RunExtends(limits, snapshot, after);
    SettlesIff(active, view, es, w.db);
    forall k | 0 <= k < |view|
      ensures EntrySettles(active, view, es, w.db, k) <==>
          Informed(active, view[k], es, w.emitted[|snapshot.emitted|..])
    {
      SnapshotEntrySettlesIff(active, snapshot, w, view[k], es);
    }
    forall p | 0 <= p < |es| && Appends(active, es[p])
      ensures AppendSettles(active, es, w.db, p) <==>
                Informed(active, Shown(es[p].id, es[p].message), es[p + 1..], w.emitted)
    {
      assert es[p] in es;
      NewEntrySettlesIff(active, w, es[p], es[p + 1..]);
    }
  }

  lemma SnapshotEntryInformed(active: ConversationId, snapshot: World, w: World, x: Shown, es: seq<Broadcast>)
    requires StatusIsJoin(snapshot) && snapshot.emitted <= w.emitted
    requires Matches(x, snapshot.db) && x.message.conversation == active
    requires forall b :: b in es ==> b in w.emitted
    requires forall b :: b in w.emitted[|snapshot.emitted|..] && IsReceiptOf(active, b, x.id) ==> b in es
    ensures Informed(active, x, es, w.emitted[|snapshot.emitted|..])
  {
    var before, after := snapshot.emitted, w.emitted[|snapshot.emitted|..];
    assert w.emitted == before + after;
    assert JoinOfReceipts(snapshot, x.id);
    JoinedConcat(active, Sent, before, es, x.id);
    JoinedConcat(active, Sent, before, after, x.id);
    assert forall b :: b in before + es <==> b in before || b in es;
    assert forall b :: b in w.emitted <==> b in before || b in after;
    JoinedBySet(active, Sent, before + es, before + after, x.id);
  }

  /** With whole handlers on the server, every message the client shows ends equal to the stored one,
      status included, however the receipts were reordered or repeated on the way. */
  lemma ReplicaMatchesDatabase(limits: Limits, before: seq<Event>, after: seq<Event>, active: ConversationId,
                               view: seq<Shown>, es: seq<Broadcast>)
    requires LegalRun(limits, INITIAL, before) && LegalRun(limits, Run(limits, INITIAL, before), after)
    requires var snapshot := Run(limits, INITIAL, before);
             var w := Run(limits, snapshot, after);
             |snapshot.emitted| <= |w.emitted| && Fed(active, snapshot, w, view, es)
    ensures Settled(ReduceAll(active, view, es), Run(limits, Run(limits, INITIAL, before), after).db)
  {
    var snapshot := Run(limits, INITIAL, before);
    var w := Run(limits, snapshot, after);
    RunStatusIsJoin(limits, INITIAL, before);
    RunStatusIsJoin(limits, snapshot, after);
    forall k | 0 <= k < |view| ensures Informed(active, view[k], es, w.emitted[|snapshot.emitted|..]) {
      SnapshotEntryInformed(active, snapshot, w, view[k], es);
    }
    forall p | 0 <= p < |es| && Appends(active, es[p])
      ensures Informed(active, Shown(es[p].id, es[p].message), es[p + 1..], w.emitted)
    {
      assert es[p] in es && Announced(w.db, es[p]);
      JoinedBySet(active, Sent, es[p + 1..], w.emitted, es[p].id);
    }
    ReplicaSettlesIff(limits, before, after, active, view, es);
  }

  // ---------- What `load` does to events that came first ----------

  /** What changes the list while one conversation stays active. */
  datatype Input = FromSocket(b: Broadcast) | Loaded(page: seq<Shown>)

  function Reversed(page: seq<Shown>): seq<Shown> {
    if page == [] then [] else Reversed(page[1..]) + [page[0]]
  }

  /** `load` replaces the list by the page, oldest first. */
  function Apply(active: ConversationId, view: seq<Shown>, input: Input): seq<Shown> {
    match input
    case FromSocket(b) => Reduce(active, view, b)
    case Loaded(page) => Reversed(page)
  }

  function ApplyAll(active: ConversationId, view: seq<Shown>, inputs: seq<Input>): seq<Shown>
    decreases |inputs|
  {
    if inputs == [] then view else ApplyAll(active, Apply(active, view, inputs[0]), inputs[1..])
  }

  function FromSocketAll(es: seq<Broadcast>): seq<Input> {
    seq(|es|, i requires 0 <= i < |es| => FromSocket(es[i]))
  }

  function Ids(view: seq<Shown>): seq<MessageId> {
    seq(|view|, i requires 0 <= i < |view| => view[i].id)
  }

  function NewIds(active: ConversationId, es: seq<Broadcast>): seq<MessageId>
    decreases |es|
  {
    if es == [] then []
    else (if Appends(active, es[0]) then [es[0].id] else []) + NewIds(active, es[1..])
  }

  lemma {:induction false} ShownIds(active: ConversationId, view: seq<Shown>, es: seq<Broadcast>)
    ensures Ids(ReduceAll(active, view, es)) == Ids(view) + NewIds(active, es)
    decreases |es|
  {
    if es == [] {
      assert Ids(view) + [] == Ids(view);
    } else {
      var next := Reduce(active, view, es[0]);
      var added := if Appends(active, es[0]) then [es[0].id] else [];
      IdsAfter(active, view, es[0]);
      ShownIds(active, next, es[1..]);
      assert (Ids(view) + added) + NewIds(active, es[1..]) == Ids(view) + (added + NewIds(active, es[1..]));
    }
  }

  lemma IdsAfter(active: ConversationId, view: seq<Shown>, b: Broadcast)
    ensures Ids(Reduce(active, view, b)) == Ids(view) + if Appends(active, b) then [b.id] else []
  {
  }

  lemma {:induction false} SocketInputs(active: ConversationId, view: seq<Shown>, es: seq<Broadcast>)
    ensures ApplyAll(active, view, FromSocketAll(es)) == ReduceAll(active, view, es)
    decreases |es|
  {
    if es != [] {
      assert FromSocketAll(es)[1..] == FromSocketAll(es[1..]);
      SocketInputs(active, Reduce(active, view, es[0]), es[1..]);
    }
  }

  /** When `load` resolves, everything the socket delivered before it is discarded: the list then holds the
      page and the messages announced afterwards, each as often as it occurs there. A message announced
      before `load` resolves and missing from its page is not shown, and one in the page that is announced
      again afterwards is shown twice. */
  lemma {:induction false} LoadDiscardsEarlierEvents(active: ConversationId, view: seq<Shown>, early: seq<Broadcast>,
                                                     page: seq<Shown>, late: seq<Broadcast>)
    ensures ApplyAll(active, view, FromSocketAll(early) + [Loaded(page)] + FromSocketAll(late)) ==
              ReduceAll(active, Reversed(page), late)
    ensures Ids(ReduceAll(active, Reversed(page), late)) == Ids(Reversed(page)) + NewIds(active, late)
    decreases |early|
  {
    var inputs := FromSocketAll(early) + [Loaded(page)] + FromSocketAll(late);
    if early == [] {
      assert inputs == [Loaded(page)] + FromSocketAll(late);
      assert inputs[1..] == FromSocketAll(late);
      SocketInputs(active, Reversed(page), late);
    } else {
      assert inputs[1..] == FromSocketAll(early[1..]) + [Loaded(page)] + FromSocketAll(late);
      LoadDiscardsEarlierEvents(active, Reduce(active, view, early[0]), early[1..], page, late);
    }
    ShownIds(active, Reversed(page), late);
  }

  /** What the client shows after `load` is right exactly when the events that came later make up for all
      receipts since the page was read: those that came before `load` resolved count for nothing. */
  lemma LoadSettlesIff(limits: Limits, before: seq<Event>, after: seq<Event>, active: ConversationId, view: seq<Shown>,
                       early: seq<Broadcast>, page: seq<Shown>, late: seq<Broadcast>)
    requires LegalRun(limits, INITIAL, before) && LegalRun(limits, Run(limits, INITIAL, before), after)
    requires forall x :: x in page ==>
               Matches(x, Run(limits, INITIAL, before).db) && x.message.conversation == active
    requires forall b :: b in late && b.MessageNew? ==> b in Run(limits, Run(limits, INITIAL, before), after).emitted
    ensures var (snapshot, w) := (Run(limits, INITIAL, before), Run(limits, Run(limits, INITIAL, before), after));
            && |snapshot.emitted| <= |w.emitted|
            && (Settled(ApplyAll(active, view, FromSocketAll(early) + [Loaded(page)] + FromSocketAll(late)), w.db) <==>
                  AllInformed(active, snapshot, w, Reversed(page), late))
  {
    ReversedElements(page);
    LoadDiscardsEarlierEvents(active, view, early, page, late);
    assert forall k :: 0 <= k < |Reversed(page)| ==> Reversed(page)[k] in Reversed(page);
    ReplicaSettlesIff(limits, before, after, active, Reversed(page), late);
  }

  /** Messages of the conversation stored after the page was read. */
  function StoredSince(snapshot: World, w: World, active: ConversationId): set<MessageId> {
    set m | m in w.db.messages && m !in snapshot.db.messages && w.db.messages[m].conversation == active
  }

  lemma {:induction false} ReversedAt(page: seq<Shown>, k: nat)
    requires k < |page|
    ensures |Reversed(page)| == |page| && Reversed(page)[k] == page[|page| - 1 - k]
  {
    if |page| > 1 {
      ReversedAt(page[1..], if k < |page| - 1 then k else 0);
    }
  }

  ghost predicate OldestFirst(shown: seq<Shown>) {
    forall i, j :: 0 <= i < j < |shown| ==> shown[i].message.createdAt <= shown[j].message.createdAt
  }

  lemma ReversedIsOldestFirst(page: seq<Shown>)
    requires forall i, j :: 0 <= i < j < |page| ==> page[i].message.createdAt >= page[j].message.createdAt
    ensures |Reversed(page)| == |page| && OldestFirst(Reversed(page))
    ensures forall k :: 0 <= k < |page| ==> Reversed(page)[k] == page[|page| - 1 - k]
  {
    assert page == [] ==> Reversed(page) == [];
    forall k | 0 <= k < |page| ensures |Reversed(page)| == |page| && Reversed(page)[k] == page[|page| - 1 - k] {
      ReversedAt(page, k);
    }
  }

  /** A page that is newest first is shown oldest first, and what is announced later comes after it. */
  lemma LoadShowsOldestFirst(active: ConversationId, view: seq<Shown>, early: seq<Broadcast>, page: seq<Shown>,
                             late: seq<Broadcast>)
    requires forall i, j :: 0 <= i < j < |page| ==> page[i].message.createdAt >= page[j].message.createdAt
    ensures var loaded := ApplyAll(active, view, FromSocketAll(early) + [Loaded(page)]);
            && OldestFirst(loaded)
            && |loaded| == |page| && (forall k :: 0 <= k < |page| ==> loaded[k] == page[|page| - 1 - k])
    ensures var loaded := ApplyAll(active, view, FromSocketAll(early) + [Loaded(page)]);
            var shown := ApplyAll(active, view, FromSocketAll(early) + [Loaded(page)] + FromSocketAll(late));
            Ids(shown) == Ids(loaded) + NewIds(active, late)
  {
    LoadDiscardsEarlierEvents(active, view, early, page, []);
    LoadDiscardsEarlierEvents(active, view, early, page, late);
    assert FromSocketAll(early) + [Loaded(page)] + FromSocketAll([]) == FromSocketAll(early) + [Loaded(page)];
    assert ReduceAll(active, Reversed(page), []) == Reversed(page);
    ReversedIsOldestFirst(page);
  }

  lemma {:induction false} ReversedIds(page: seq<Shown>)
    requires NoDuplicates(Ids(page))
    ensures NoDuplicates(Ids(Reversed(page))) && Elements(Ids(Reversed(page))) == Elements(Ids(page))
  {
    if page != [] {
      var rest, x := page[1..], page[0];
      assert Ids(page) == [x.id] + Ids(rest);
      assert Ids(rest) == Ids(page)[1..];
      ReversedIds(rest);
      assert Ids(Reversed(page)) == Ids(Reversed(rest)) + [x.id];
      ElementsSnoc(Ids(Reversed(rest)), x.id);
      forall i | 0 <= i < |Ids(Reversed(rest))| ensures Ids(Reversed(rest))[i] != x.id {
        assert Ids(Reversed(rest))[i] in Elements(Ids(Reversed(rest)));
        assert Ids(Reversed(rest))[i] in Ids(rest);
        var j :| 0 <= j < |Ids(rest)| && Ids(rest)[j] == Ids(Reversed(rest))[i];
        assert Ids(page)[j + 1] == Ids(rest)[j] && Ids(page)[0] == x.id;
      }
      assert Elements(Ids(page)) == {x.id} + Elements(Ids(rest));
    }
  }

  lemma ConcatDistinct<T>(a: seq<T>, b: seq<T>)
    ensures NoDuplicates(a + b) <==> NoDuplicates(a) && NoDuplicates(b) && Elements(a) !! Elements(b)
    ensures Elements(a + b) == Elements(a) + Elements(b)
  {
    if x :| x in Elements(a) && x in Elements(b) {
      var i :| 0 <= i < |a| && a[i] == x;
      var j :| 0 <= j < |b| && b[j] == x;
      assert (a + b)[i] == (a + b)[|a| + j];
    }
    if NoDuplicates(a + b) {
      forall i, j | 0 <= i < j < |a| ensures a[i] != a[j] {
        assert (a + b)[i] != (a + b)[j];
      }
      forall i, j | 0 <= i < j < |b| ensures b[i] != b[j] {
        assert (a + b)[|a| + i] != (a + b)[|a| + j];
      }
    }
    if NoDuplicates(a) && NoDuplicates(b) && Elements(a) !! Elements(b) {
      forall i, j | 0 <= i < j < |a + b| ensures (a + b)[i] != (a + b)[j] {
        if i < |a| <= j {
          assert a[i] in Elements(a) && b[j - |a|] in Elements(b);
        }
      }
    }
  }

  /** From the page on, every message is shown exactly once, and none besides, iff the messages announced after
      `load` resolved are exactly those stored since the page was read, each announced once. */
  lemma ShownOnceIff(snapshot: World, w: World, active: ConversationId, view: seq<Shown>, early: seq<Broadcast>,
                     page: seq<Shown>, late: seq<Broadcast>)
    requires NoDuplicates(Ids(page)) && forall x :: x in page ==> x.id in snapshot.db.messages
    ensures var ids := Ids(ApplyAll(active, view, FromSocketAll(early) + [Loaded(page)] + FromSocketAll(late)));
            (NoDuplicates(ids) && Elements(ids) == Elements(Ids(page)) + StoredSince(snapshot, w, active)) <==>
              (NoDuplicates(NewIds(active, late)) && Elements(NewIds(active, late)) == StoredSince(snapshot, w, active))
  {
    var since, announced := StoredSince(snapshot, w, active), NewIds(active, late);
    var before := Ids(Reversed(page));
    LoadDiscardsEarlierEvents(active, view, early, page, late);
    ReversedIds(page);
    ConcatDistinct(before, announced);
    assert Elements(before) !! since by {
      forall i | 0 <= i < |page| ensures Ids(page)[i] !in since {
        assert page[i] in page;
      }
    }
  }

  lemma {:induction false} ReversedElements(page: seq<Shown>)
    ensures forall x :: x in Reversed(page) <==> x in page
  {
    if page != [] {
      ReversedElements(page[1..]);
    }
  }

  lemma FirstDelivery(limits: Limits, u: UserId, v: UserId, s: SocketId)
    ensures var snapshot := FirstMessage(limits, Direct, v, [u], s);
            var w := Next(limits, snapshot, Deliver(u, 0));
            && Matches(Shown(0, Message(0, v, ONE_LETTER, Sent, 0)), snapshot.db)
            && w.db.messages == map[0 := Message(0, v, ONE_LETTER, Delivered, 0)]
            && w.emitted == snapshot.emitted + [MessageDelivered(0, 0, u)]
  {
    FirstMessageStored(limits, Direct, v, [u], s);
    assert u in Elements([v] + [u]) by { assert ([v] + [u])[1] == u; }
  }

  /** A receipt that arrives while `load` is under way is lost: v sends, u's `load` reads the page, another tab
      of u confirms delivery, and the message stays `sent` in this one. */
  lemma LoadLosesReceipt(limits: Limits, u: UserId, v: UserId, s: SocketId)
    ensures var snapshot := FirstMessage(limits, Direct, v, [u], s);
            var w := Next(limits, snapshot, Deliver(u, 0));
            var shown := Shown(0, Message(0, v, ONE_LETTER, Sent, 0));
            var inputs := FromSocketAll([MessageDelivered(0, 0, u)]) + [Loaded([shown])] + FromSocketAll([]);
            var end := ApplyAll(0, [], inputs);
            && Matches(shown, snapshot.db) && w.emitted == snapshot.emitted + [MessageDelivered(0, 0, u)]
            && end == [shown] && !Settled(end, w.db)
  {
    var shown := Shown(0, Message(0, v, ONE_LETTER, Sent, 0));
    FirstDelivery(limits, u, v, s);
    LoadDiscardsEarlierEvents(0, [], [MessageDelivered(0, 0, u)], [shown], []);
    assert Reversed([shown]) == Reversed([]) + [shown] == [shown];
    assert !Matches([shown][0], Next(limits, FirstMessage(limits, Direct, v, [u], s), Deliver(u, 0)).db);
  }
}
