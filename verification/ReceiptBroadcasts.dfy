/** What the receipt handlers emit when they interleave at their `await`s (src/sockets/handlers/receipt.handler.ts
    over ReceiptInterleaving), and how far the stored statuses keep up with it. A handler emits right after its last
    database answer. */
module ReceiptBroadcasts {
  import opened Domain
  import opened Sanitize
  import opened ConversationService
  import opened ReceiptInterleaving
  import AtomicServer
  import MessageReplica
  import MessageService
  import SocketRateLimit
  import Runs
  import Since

  type Broadcast = AtomicServer.Broadcast

  /** `message:new` for a stored message; `message:delivered` for every accepted delivery, whether or not it had to
      save; `message:read` for the ids a handler has written. */
  function Emits(s: State, step: Step): seq<Broadcast> {
    match step
    case Insert(sender, c, text, id, now) =>
      if IsMember(s.db, c, sender) && id !in s.db.messages then
        [AtomicServer.MessageNew(id, Message(c, sender, text, Sent, now))]
      else []
    case DeliverCheck(t) =>
      if t in s.tasks && s.tasks[t].DeliverLoaded? && AnswersAtOnce(s.db, s.tasks[t]) then
        [DeliveredOne(s.db, s.tasks[t].message, s.tasks[t].user)]
      else []
    case DeliverSave(t) =>
      if t in s.tasks && s.tasks[t].DeliverSaving? && s.tasks[t].message in s.db.messages then
        [DeliveredOne(s.db, s.tasks[t].message, s.tasks[t].user)]
      else []
    case ReadUpdate(t) =>
      if t in s.tasks && s.tasks[t].ReadCollected? then
        [AtomicServer.MessageRead(s.tasks[t].conversation, s.tasks[t].ids, s.tasks[t].user)]
      else []
    case _ => []
  }

  /** A member's delivery of a message that was loaded as delivered or read: there is nothing to save. */
  predicate AnswersAtOnce(db: Store, task: Task)
    requires task.DeliverLoaded?
  {
    task.seen != Sent && task.message in db.messages && IsMember(db, db.messages[task.message].conversation, task.user)
  }

  function DeliveredOne(db: Store, m: MessageId, u: UserId): Broadcast
    requires m in db.messages
  {
    AtomicServer.MessageDelivered(db.messages[m].conversation, m, u)
  }

  // ---------- Handlers that nothing interrupts ----------

  /** A read handler whose steps follow each other does to the store, and emits, what a whole handler does. */
  lemma LoneReadIsWhole(limits: SocketRateLimit.Limits, w: AtomicServer.World, s: State, t: TaskId, user: UserId,
                        c: ConversationId, upTo: MessageId)
    requires s.db == w.db && t !in s.tasks
    ensures var s1 := Apply(s, ReadStart(t, user, c, upTo));
            var s2 := Apply(s1, ReadBound(t));
            var s3 := Apply(s2, ReadCollect(t));
            var w' := AtomicServer.Next(limits, w, AtomicServer.Acknowledge(user, c, upTo));
            && Apply(s3, ReadUpdate(t)) == State(w'.db, s.tasks)
            && w'.emitted == w.emitted + Emits(s, ReadStart(t, user, c, upTo)) + Emits(s1, ReadBound(t)) +
                             Emits(s2, ReadCollect(t)) + Emits(s3, ReadUpdate(t))
  {
    var s1 := Apply(s, ReadStart(t, user, c, upTo));
    var s2 := Apply(s1, ReadBound(t));
    var s3 := Apply(s2, ReadCollect(t));
    assert s.tasks - {t} == s.tasks;
    if upTo in s.db.messages && MessageService.ReadTargets(s.db, c, upTo, user) == {} {
      assert MessageService.SetRead(s.db.messages, {}) == s.db.messages;
    }
    assert forall es: seq<Broadcast> :: es + [] == es;
  }

  /** The same for a delivery. */
  lemma LoneDeliveryIsWhole(limits: SocketRateLimit.Limits, w: AtomicServer.World, s: State, t: TaskId, user: UserId,
                            m: MessageId)
    requires s.db == w.db && t !in s.tasks
    ensures var s1 := Apply(s, DeliverLoad(t, user, m));
            var s2 := Apply(s1, DeliverCheck(t));
            var w' := AtomicServer.Next(limits, w, AtomicServer.Deliver(user, m));
            && Apply(s2, DeliverSave(t)) == State(w'.db, s.tasks)
            && w'.emitted == w.emitted + Emits(s, DeliverLoad(t, user, m)) + Emits(s1, DeliverCheck(t)) +
                             Emits(s2, DeliverSave(t))
  {
    assert s.tasks - {t} == s.tasks;
    assert forall es: seq<Broadcast> :: es + [] == es;
  }

  /** A message is inserted and announced as the service creates it. */
  lemma InsertIsCreation(s: State, sender: UserId, c: ConversationId, text: Text, id: MessageId, now: nat)
    requires id !in s.db.messages
    ensures var (s', step) := (Apply(s, Insert(sender, c, text, id, now)), Insert(sender, c, text, id, now));
            match MessageService.AfterCreate(s.db, sender, c, text, id, now)
            case Ok(db) =>
              && s'.db.messages == db.messages
              && Emits(s, step) == [AtomicServer.MessageNew(id, db.messages[id])]
            case NotFound => s' == s && Emits(s, step) == []
  {
  }

  // ---------- Runs ----------

  type Trace = Runs.Trace<State, Step>

  function Stepping(): (State, Step) -> State {
    (s, step) => Apply(s, step)
  }

  ghost predicate IsRun(t: Trace) {
    Runs.IsRun(Stepping(), t)
  }

  lemma NextState(t: Trace, k: nat)
    requires IsRun(t) && k < |t.steps|
    ensures t.states[k + 1] == Apply(t.states[k], t.steps[k])
  {
    assert Runs.IsStep(Stepping(), t, k);
  }

  function Emitted(t: Trace, k: nat): seq<Broadcast>
    requires k <= |t.steps| < |t.states|
  {
    if k == 0 then [] else Emitted(t, k - 1) + Emits(t.states[k - 1], t.steps[k - 1])
  }

  // ---------- What suspended handlers hold ----------

  predicate TaskFits(db: Store, task: Task) {
    match task
    case DeliverLoaded(_, m, seen) => m in db.messages && (seen != Sent ==> db.messages[m].status != Sent)
    case DeliverSaving(_, m) => m in db.messages
    case ReadCollected(_, c, ids) => forall m :: m in ids ==> m in db.messages && db.messages[m].conversation == c
    case _ => true
  }

  ghost predicate Fitting(s: State) {
    forall t :: t in s.tasks ==> TaskFits(s.db, s.tasks[t])
  }

  ghost predicate Grows(db: Store, db': Store) {
    forall m :: m in db.messages ==>
      && m in db'.messages && db'.messages[m].conversation == db.messages[m].conversation
      && (db.messages[m].status != Sent ==> db'.messages[m].status != Sent)
  }

  lemma StepGrows(s: State, step: Step)
    ensures Grows(s.db, Apply(s, step).db)
  {
  }

  lemma FitsStays(db: Store, db': Store, task: Task)
    requires Grows(db, db') && TaskFits(db, task)
    ensures TaskFits(db', task)
  {
  }

  lemma StepFitting(s: State, step: Step)
    requires Fitting(s)
    ensures Fitting(Apply(s, step))
  {
    var s' := Apply(s, step);
    StepGrows(s, step);
    forall t | t in s'.tasks ensures TaskFits(s'.db, s'.tasks[t]) {
      if t in s.tasks && s'.tasks[t] == s.tasks[t] {
        FitsStays(s.db, s'.db, s.tasks[t]);
      }
    }
  }

  lemma {:induction false} RunFitting(t: Trace, k: nat)
    requires IsRun(t) && t.states[0].tasks == map[] && k <= |t.steps|
    ensures Fitting(t.states[k])
    decreases k
  {
    if k > 0 {
      RunFitting(t, k - 1);
      NextState(t, k - 1);
      StepFitting(t.states[k - 1], t.steps[k - 1]);
    }
  }

  // ---------- Stored statuses and the join of the receipts ----------

  function StatusIn(s: State, m: MessageId): Status
    requires m in s.db.messages
  {
    s.db.messages[m].status
  }

  /** The status of m at the start, or `sent` if it was stored later. */
  function FirstStatus(t: Trace, m: MessageId): Status
    requires t.states != []
  {
    if m in t.states[0].db.messages then t.states[0].db.messages[m].status else Sent
  }

  /** The join of m's first status and the receipts emitted for it so far: what a client shows that got them all. */
  ghost function JoinAt(t: Trace, k: nat, m: MessageId): Status
    requires k <= |t.steps| < |t.states| && m in t.states[k].db.messages
  {
    MessageReplica.Joined(t.states[k].db.messages[m].conversation, FirstStatus(t, m), Emitted(t, k), m)
  }

  /** The store lags: the receipts say `read`, it says `delivered`. */
  predicate Lags(join: Status, stored: Status) {
    join == Read && stored == Delivered
  }

  predicate Lowers(s: State, s': State, m: MessageId) {
    RankOf(s', m) < RankOf(s, m)
  }

  predicate Raises(s: State, s': State, m: MessageId) {
    RankOf(s, m) < 2 && RankOf(s', m) == 2
  }

  lemma JoinNone(c: ConversationId, join: Status, m: MessageId)
    ensures MessageReplica.Joined(c, join, [], m) == join
  {
  }

  lemma JoinOne(c: ConversationId, join: Status, b: Broadcast, m: MessageId)
    ensures MessageReplica.Joined(c, join, [b], m) ==
              if MessageReplica.ReadsId(c, b, m) then Read
              else if MessageReplica.DeliversId(c, b, m) && join == Sent then Delivered else join
  {
    assert b in [b];
  }

  /** The join and the status of m after a step. */
  ghost predicate InKeeping(s: State, s': State, m: MessageId, join: Status, join': Status)
    requires m in s.db.messages
  {
    && m in s'.db.messages && (join' == StatusIn(s', m) || Lags(join', StatusIn(s', m)))
    && (Lags(join', StatusIn(s', m)) <==> Lowers(s, s', m) || (Lags(join, StatusIn(s, m)) && !Raises(s, s', m)))
  }

  ghost predicate Tracked(s: State, m: MessageId, join: Status) {
    m in s.db.messages && (join == StatusIn(s, m) || Lags(join, StatusIn(s, m)))
  }

  lemma SaveJoin(s: State, t: TaskId, m: MessageId, join: Status)
    requires Fitting(s) && Tracked(s, m, join)
    ensures InKeeping(s, Apply(s, DeliverSave(t)), m, join,
                      MessageReplica.Joined(s.db.messages[m].conversation, join, Emits(s, DeliverSave(t)), m))
  {
    var c := s.db.messages[m].conversation;
    JoinNone(c, join, m);
    if t in s.tasks && s.tasks[t].DeliverSaving? {
      assert TaskFits(s.db, s.tasks[t]);
      JoinOne(c, join, DeliveredOne(s.db, s.tasks[t].message, s.tasks[t].user), m);
    }
  }

  lemma CheckJoin(s: State, t: TaskId, m: MessageId, join: Status)
    requires Fitting(s) && Tracked(s, m, join)
    ensures InKeeping(s, Apply(s, DeliverCheck(t)), m, join,
                      MessageReplica.Joined(s.db.messages[m].conversation, join, Emits(s, DeliverCheck(t)), m))
  {
    var c := s.db.messages[m].conversation;
    JoinNone(c, join, m);
    if t in s.tasks && s.tasks[t].DeliverLoaded? {
      assert TaskFits(s.db, s.tasks[t]);
      JoinOne(c, join, DeliveredOne(s.db, s.tasks[t].message, s.tasks[t].user), m);
    }
  }

  lemma UpdateJoin(s: State, t: TaskId, m: MessageId, join: Status)
    requires Fitting(s) && Tracked(s, m, join)
    ensures InKeeping(s, Apply(s, ReadUpdate(t)), m, join,
                      MessageReplica.Joined(s.db.messages[m].conversation, join, Emits(s, ReadUpdate(t)), m))
  {
    var c := s.db.messages[m].conversation;
    JoinNone(c, join, m);
    if t in s.tasks && s.tasks[t].ReadCollected? {
      var task := s.tasks[t];
      assert TaskFits(s.db, task);
      JoinOne(c, join, AtomicServer.MessageRead(task.conversation, task.ids, task.user), m);
    }
  }

  lemma OtherJoin(s: State, step: Step, m: MessageId, join: Status)
    requires Tracked(s, m, join) && !step.DeliverSave? && !step.DeliverCheck? && !step.ReadUpdate?
    ensures InKeeping(s, Apply(s, step), m, join,
                      MessageReplica.Joined(s.db.messages[m].conversation, join, Emits(s, step), m))
  {
    var c := s.db.messages[m].conversation;
    JoinNone(c, join, m);
    if step.Insert? {
      JoinOne(c, join, AtomicServer.MessageNew(step.message,
                                               Message(step.conversation, step.sender, step.text, Sent, step.now)), m);
    }
  }

  lemma StepJoin(s: State, step: Step, m: MessageId, join: Status)
    requires Fitting(s) && Tracked(s, m, join)
    ensures InKeeping(s, Apply(s, step), m, join,
                      MessageReplica.Joined(s.db.messages[m].conversation, join, Emits(s, step), m))
  {
    match step
    case DeliverSave(t) => SaveJoin(s, t, m, join);
    case DeliverCheck(t) => CheckJoin(s, t, m, join);
    case ReadUpdate(t) => UpdateJoin(s, t, m, join);
    case _ => OtherJoin(s, step, m, join);
  }

  /** Receipts are about stored messages only. */
  ghost predicate AllStored(db: Store, es: seq<Broadcast>) {
    forall b, m :: b in es && MessageReplica.Concerns(b, m) ==> m in db.messages
  }

  lemma StepAllStored(s: State, step: Step)
    requires Fitting(s)
    ensures AllStored(s.db, Emits(s, step))
  {
    if step.ReadUpdate? && step.t in s.tasks {
      assert TaskFits(s.db, s.tasks[step.t]);
    }
  }

  lemma {:induction false} RunAllStored(t: Trace, k: nat)
    requires IsRun(t) && t.states[0].tasks == map[] && k <= |t.steps|
    ensures AllStored(t.states[k].db, Emitted(t, k))
    decreases k
  {
    if k > 0 {
      RunAllStored(t, k - 1);
      RunFitting(t, k - 1);
      NextState(t, k - 1);
      StepAllStored(t.states[k - 1], t.steps[k - 1]);
      StepGrows(t.states[k - 1], t.steps[k - 1]);
    }
  }

  lemma NothingYet(c: ConversationId, db: Store, es: seq<Broadcast>, m: MessageId)
    requires AllStored(db, es) && m !in db.messages
    ensures MessageReplica.Joined(c, Sent, es, m) == Sent
  {
    forall b | b in es ensures !MessageReplica.ReadsId(c, b, m) && !MessageReplica.DeliversId(c, b, m) {
      assert !MessageReplica.Concerns(b, m);
    }
  }

  // ---------- Over a run ----------

  /** Step k takes the status of m down: a stale save lands. */
  predicate LowersAt(t: Trace, k: nat, m: MessageId) {
    k < |t.steps| < |t.states| && Lowers(t.states[k], t.states[k + 1], m)
  }

  /** Step k raises the status of m to `read`. */
  predicate RaisesAt(t: Trace, k: nat, m: MessageId) {
    k < |t.steps| < |t.states| && Raises(t.states[k], t.states[k + 1], m)
  }

  function Lowering(t: Trace, m: MessageId): nat -> bool {
    (k: nat) => LowersAt(t, k, m)
  }

  function Raising(t: Trace, m: MessageId): nat -> bool {
    (k: nat) => RaisesAt(t, k, m)
  }

  /** A stale save has landed and nothing has raised m to `read` since. */
  ghost predicate LateSave(t: Trace, k: nat, m: MessageId) {
    Since.Holds(Lowering(t, m), Raising(t, m), k)
  }

  /** What is proved of m after k steps; nothing, before it is stored. */
  ghost predicate Explained(t: Trace, k: nat, m: MessageId)
    requires k <= |t.steps| < |t.states|
  {
    if m in t.states[k].db.messages then
      && Tracked(t.states[k], m, JoinAt(t, k, m))
      && (Lags(JoinAt(t, k, m), StatusIn(t.states[k], m)) <==> LateSave(t, k, m))
    else !LateSave(t, k, m)
  }

  lemma ExplainedNext(t: Trace, k: nat, m: MessageId)
    requires IsRun(t) && t.states[0].tasks == map[] && k < |t.steps| && Explained(t, k, m)
    ensures Explained(t, k + 1, m)
  {
    var s, s' := t.states[k], t.states[k + 1];
    NextState(t, k);
    Since.Next(Lowering(t, m), Raising(t, m), k);
    RunFitting(t, k);
    if m in s.db.messages {
      var c := s.db.messages[m].conversation;
      StepJoin(s, t.steps[k], m, JoinAt(t, k, m));
      StepGrows(s, t.steps[k]);
      MessageReplica.JoinedConcat(c, FirstStatus(t, m), Emitted(t, k), Emits(s, t.steps[k]), m);
    } else if m in s'.db.messages {
      StoredIsNew(t, k, m);
    }
  }

  lemma {:induction false} StoredStays(t: Trace, k: nat, m: MessageId)
    requires IsRun(t) && k <= |t.steps| && m in t.states[0].db.messages
    ensures m in t.states[k].db.messages
    decreases k
  {
    if k > 0 {
      StoredStays(t, k - 1, m);
      NextState(t, k - 1);
      StepGrows(t.states[k - 1], t.steps[k - 1]);
    }
  }

  lemma StoredIsNew(t: Trace, k: nat, m: MessageId)
    requires IsRun(t) && t.states[0].tasks == map[] && k < |t.steps|
    requires m !in t.states[k].db.messages && m in t.states[k + 1].db.messages
    ensures StatusIn(t.states[k + 1], m) == Sent == JoinAt(t, k + 1, m)
    ensures !LowersAt(t, k, m)
  {
    var c := t.states[k + 1].db.messages[m].conversation;
    NextState(t, k);
    if m in t.states[0].db.messages {
      StoredStays(t, k, m);
    }
    RunAllStored(t, k);
    RunFitting(t, k);
    StepAllStored(t.states[k], t.steps[k]);
    NothingYet(c, t.states[k].db, Emitted(t, k + 1), m);
  }

  lemma {:induction false} RunExplained(t: Trace, k: nat, m: MessageId)
    requires IsRun(t) && t.states[0].tasks == map[] && k <= |t.steps|
    ensures Explained(t, k, m)
    decreases k
  {
    if k == 0 {
      if m in t.states[0].db.messages {
        JoinNone(t.states[0].db.messages[m].conversation, FirstStatus(t, m), m);
      }
    } else {
      RunExplained(t, k - 1, m);
      ExplainedNext(t, k - 1, m);
    }
  }

  /** Over every interleaving of deliveries, reads and sends: the stored status of a message is the join of its
      receipts exactly when no stale save has landed after the last write that raised it to `read`; otherwise the
      receipts say `read` and the store says `delivered`. */
  lemma StoredIsJoinIff(t: Trace, k: nat, m: MessageId)
    requires IsRun(t) && t.states[0].tasks == map[] && k <= |t.steps| && m in t.states[k].db.messages
    ensures StatusIn(t.states[k], m) == JoinAt(t, k, m) <==> !LateSave(t, k, m)
    ensures LateSave(t, k, m) ==> JoinAt(t, k, m) == Read && StatusIn(t.states[k], m) == Delivered
  {
    RunExplained(t, k, m);
  }

  lemma {:induction false} OnlyStatusChanges(t: Trace, k: nat, m: MessageId)
    requires IsRun(t) && k <= |t.steps| && m in t.states[0].db.messages
    ensures m in t.states[k].db.messages
    ensures AtomicServer.SameButStatus(t.states[0].db.messages[m], t.states[k].db.messages[m])
    decreases k
  {
    if k > 0 {
      OnlyStatusChanges(t, k - 1, m);
      NextState(t, k - 1);
    }
  }

  /** A client that showed a message as it was at the start and got every broadcast since shows it as stored exactly
      when no stale save has landed after the last write that raised it to `read`. */
  lemma {:induction false} ShownIsStoredIff(t: Trace, k: nat, m: MessageId)
    requires IsRun(t) && t.states[0].tasks == map[] && k <= |t.steps| && m in t.states[0].db.messages
    ensures var message := t.states[0].db.messages[m];
            var shown := MessageReplica.TouchAll(message.conversation, MessageReplica.Shown(m, message), Emitted(t, k));
            MessageReplica.Matches(shown, t.states[k].db) <==> !LateSave(t, k, m)
  {
    var message := t.states[0].db.messages[m];
    OnlyStatusChanges(t, k, m);
    MessageReplica.TouchAllIsJoin(message.conversation, MessageReplica.Shown(m, message), Emitted(t, k));
    StoredIsJoinIff(t, k, m);
  }

  // ---------- Ids broadcast twice ----------

  /** Step k broadcasts m as read: a handler's update lands. */
  predicate BroadcastsRead(t: Trace, k: nat, m: MessageId) {
    k < |t.steps| < |t.states| && t.steps[k].ReadUpdate? && Holding(t.states[k], t.steps[k].t, m)
  }

  predicate Holding(s: State, task: TaskId, m: MessageId) {
    task in s.tasks && s.tasks[task].ReadCollected? && m in s.tasks[task].ids
  }

  /** At step h a handler collects m, unread by then, for its update. */
  predicate Collects(t: Trace, h: nat, task: TaskId, m: MessageId) {
    h < |t.steps| < |t.states| && t.steps[h] == ReadCollect(task) && Holding(t.states[h + 1], task, m) &&
    m in t.states[h].db.messages && StatusIn(t.states[h], m) != Read
  }

  lemma StepHolding(s: State, step: Step, task: TaskId, m: MessageId)
    requires Holding(Apply(s, step), task, m)
    ensures Holding(s, task, m) || (step == ReadCollect(task) && m in s.db.messages && StatusIn(s, m) != Read)
  {
  }

  lemma {:induction false} HeldWasCollected(t: Trace, k: nat, task: TaskId, m: MessageId) returns (h: nat)
    requires IsRun(t) && t.states[0].tasks == map[] && k <= |t.steps| && Holding(t.states[k], task, m)
    ensures h < k && Collects(t, h, task, m)
    decreases k
  {
    NextState(t, k - 1);
    StepHolding(t.states[k - 1], t.steps[k - 1], task, m);
    if Holding(t.states[k - 1], task, m) {
      h := HeldWasCollected(t, k - 1, task, m);
    } else {
      h := k - 1;
    }
  }

  /** A message that was read and is not any more was taken down in between. */
  lemma {:induction false} LoweredBetween(t: Trace, i: nat, k: nat, m: MessageId) returns (d: nat)
    requires IsRun(t) && i <= k <= |t.steps| && m in t.states[i].db.messages && StatusIn(t.states[i], m) == Read
    requires m in t.states[k].db.messages && StatusIn(t.states[k], m) != Read
    ensures i <= d < k && LowersAt(t, d, m)
    decreases k
  {
    NextState(t, k - 1);
    if Lowers(t.states[k - 1], t.states[k], m) {
      d := k - 1;
    } else {
      StaysStored(t, i, k - 1, m);
      ReadBefore(t.states[k - 1], t.steps[k - 1], m);
      d := LoweredBetween(t, i, k - 1, m);
    }
  }

  lemma ReadBefore(s: State, step: Step, m: MessageId)
    requires m in s.db.messages && !Lowers(s, Apply(s, step), m)
    requires m in Apply(s, step).db.messages && StatusIn(Apply(s, step), m) != Read
    ensures StatusIn(s, m) != Read
  {
  }

  lemma {:induction false} StaysStored(t: Trace, i: nat, k: nat, m: MessageId)
    requires IsRun(t) && i <= k <= |t.steps| && m in t.states[i].db.messages
    ensures m in t.states[k].db.messages
    decreases k
  {
    if i < k {
      StaysStored(t, i, k - 1, m);
      NextState(t, k - 1);
      StepGrows(t.states[k - 1], t.steps[k - 1]);
    }
  }

  ghost predicate LoweredIn(t: Trace, i: nat, k: nat, m: MessageId) {
    exists d: nat :: i < d < k && LowersAt(t, d, m)
  }

  /** The handler whose update lands at j collected m at h: before the update at i landed, or after a stale save had
      taken m down again. */
  ghost predicate CollectedAgain(t: Trace, h: nat, i: nat, j: nat, m: MessageId) {
    && i < j && h < j && BroadcastsRead(t, i, m) && BroadcastsRead(t, j, m)
    && Collects(t, h, t.steps[j].t, m) && (h < i || LoweredIn(t, i, h, m))
  }

  lemma SecondIsCollectedAgain(t: Trace, i: nat, j: nat, m: MessageId) returns (h: nat)
    requires IsRun(t) && t.states[0].tasks == map[] && i < j && BroadcastsRead(t, i, m) && BroadcastsRead(t, j, m)
    ensures CollectedAgain(t, h, i, j, m)
  {
    h := HeldWasCollected(t, j, t.steps[j].t, m);
    if h >= i {
      assert h != i;
      RunFitting(t, i);
      assert TaskFits(t.states[i].db, t.states[i].tasks[t.steps[i].t]);
      NextState(t, i);
      assert m in t.states[i + 1].db.messages && StatusIn(t.states[i + 1], m) == Read;
      var d := LoweredBetween(t, i + 1, h, m);
    }
  }

  /** Over every interleaving, an id is in two `message:read` broadcasts exactly when two handlers whose updates land
      collected it, the later to land before the other's update or after a downgrade. */
  lemma ReadTwiceIff(t: Trace, m: MessageId)
    requires IsRun(t) && t.states[0].tasks == map[]
    ensures (exists i: nat, j: nat :: i < j && BroadcastsRead(t, i, m) && BroadcastsRead(t, j, m)) <==>
              exists h: nat, i: nat, j: nat :: CollectedAgain(t, h, i, j, m)
  {
    if i: nat, j: nat :| i < j && BroadcastsRead(t, i, m) && BroadcastsRead(t, j, m) {
      var h := SecondIsCollectedAgain(t, i, j, m);
    }
  }

  // ---------- Runs in which it goes wrong ----------

  function Begin(s: State): Trace {
    Runs.Begin(s)
  }

  function Last(t: Trace): State
    requires t.states != []
  {
    Runs.Last(t)
  }

  function Then(t: Trace, step: Step): Trace
    requires t.states != []
  {
    Runs.Then(Stepping(), t, step)
  }

  lemma ThenIsRun(t: Trace, step: Step)
    requires IsRun(t)
    ensures IsRun(Then(t, step)) && Then(t, step).states[0] == t.states[0]
    ensures Last(Then(t, step)) == Apply(Last(t), step)
    ensures Emitted(Then(t, step), |t.steps| + 1) == Emitted(t, |t.steps|) + Emits(Last(t), step)
  {
    Runs.ThenIsRun(Stepping(), t, step);
    EmittedPrefix(t, Then(t, step), |t.steps|);
  }

  lemma {:induction false} EmittedPrefix(t: Trace, t': Trace, k: nat)
    requires k <= |t.steps| < |t.states| && |t'.steps| < |t'.states| && t.steps <= t'.steps && t.states <= t'.states
    ensures Emitted(t, k) == Emitted(t', k)
  {
    if k > 0 {
      EmittedPrefix(t, t', k - 1);
    }
  }

  lemma OpenRead(s: State, task: TaskId, user: UserId, c: ConversationId, m: MessageId)
    requires Openable(s, user, c, m) && task !in s.tasks
    ensures var s1 := Apply(s, ReadStart(task, user, c, m));
            var s2 := Apply(s1, ReadBound(task));
            var s3 := Apply(s2, ReadCollect(task));
            s3.db == s.db && Holding(s3, task, m) && s3.tasks.Keys == s.tasks.Keys + {task} &&
            forall other :: other in s.tasks ==> s3.tasks[other] == s.tasks[other]
  {
    assert m in MessageService.ReadTargets(s.db, c, m, user);
  }

  function OpenReadRun(t: Trace, task: TaskId, user: UserId, c: ConversationId, m: MessageId): Trace
    requires t.states != []
  {
    Then(Then(Then(t, ReadStart(task, user, c, m)), ReadBound(task)), ReadCollect(task))
  }

  lemma OpenReadIsRun(t: Trace, task: TaskId, user: UserId, c: ConversationId, m: MessageId)
    requires IsRun(t) && Openable(Last(t), user, c, m) && task !in Last(t).tasks
    ensures var t' := OpenReadRun(t, task, user, c, m);
            && IsRun(t') && t'.states[0] == t.states[0] && |t'.steps| == |t.steps| + 3
            && Last(t').db == Last(t).db && Holding(Last(t'), task, m)
            && Last(t').tasks.Keys == Last(t).tasks.Keys + {task}
            && (forall other :: other in Last(t).tasks ==> Last(t').tasks[other] == Last(t).tasks[other])
            && Emitted(t', |t'.steps|) == Emitted(t, |t.steps|)
  {
    var t1 := Then(t, ReadStart(task, user, c, m));
    var t2 := Then(t1, ReadBound(task));
    OpenRead(Last(t), task, user, c, m);
    ThenIsRun(t, ReadStart(task, user, c, m));
    ThenIsRun(t1, ReadBound(task));
    ThenIsRun(t2, ReadCollect(task));
  }

  /** Two overlapping acknowledgements, both of which collect m before either writes. */
  function TwoReadsRun(s: State, user: UserId, c: ConversationId, m: MessageId): Trace {
    Then(Then(OpenReadRun(OpenReadRun(Begin(s), 0, user, c, m), 1, user, c, m), ReadUpdate(0)), ReadUpdate(1))
  }

  lemma BothUpdates(s: State, m: MessageId)
    requires Holding(s, 0, m) && Holding(s, 1, m)
    ensures Holding(Apply(s, ReadUpdate(0)), 1, m)
  {
  }

  lemma BothOpen(s: State, user: UserId, c: ConversationId, m: MessageId)
    requires Openable(s, user, c, m) && s.tasks == map[]
    ensures var t := OpenReadRun(OpenReadRun(Begin(s), 0, user, c, m), 1, user, c, m);
            IsRun(t) && t.states[0] == s && |t.steps| == 6 && Holding(Last(t), 0, m) && Holding(Last(t), 1, m)
  {
    OpenReadIsRun(Begin(s), 0, user, c, m);
    OpenReadIsRun(OpenReadRun(Begin(s), 0, user, c, m), 1, user, c, m);
  }

  /** A member who acknowledges twice at once makes the server broadcast the same id twice. */
  lemma TwoReadsBroadcastTwice(s: State, user: UserId, c: ConversationId, m: MessageId)
    requires Openable(s, user, c, m) && s.tasks == map[]
    ensures var t := TwoReadsRun(s, user, c, m);
            IsRun(t) && t.states[0] == s && BroadcastsRead(t, 6, m) && BroadcastsRead(t, 7, m)
  {
    var t6 := OpenReadRun(OpenReadRun(Begin(s), 0, user, c, m), 1, user, c, m);
    BothOpen(s, user, c, m);
    BothUpdates(Last(t6), m);
    LastTwo(t6, ReadUpdate(0), ReadUpdate(1));
  }

  lemma LastTwo(t: Trace, a: Step, b: Step)
    requires IsRun(t)
    ensures var (n, t') := (|t.steps|, Then(Then(t, a), b));
            && IsRun(t') && |t'.steps| == n + 2 && t'.steps[n] == a && t'.steps[n + 1] == b
            && t'.states[0] == t.states[0]
            && t'.states[n] == Last(t) && t'.states[n + 1] == Apply(Last(t), a)
            && Last(t') == t'.states[n + 2] == Apply(Apply(Last(t), a), b)
  {
    ThenIsRun(t, a);
    ThenIsRun(Then(t, a), b);
  }

  /** A delivery loads m as sent and stops before its save; a read overtakes it; then the save lands. */
  function StaleSaveRun(s: State, user: UserId, c: ConversationId, m: MessageId): Trace {
    var t2 := Then(Then(Begin(s), DeliverLoad(0, user, m)), DeliverCheck(0));
    Then(Then(OpenReadRun(t2, 1, user, c, m), ReadUpdate(1)), DeliverSave(0))
  }

  lemma StaleDelivery(s: State, user: UserId, c: ConversationId, m: MessageId)
    requires Openable(s, user, c, m) && s.tasks == map[]
    ensures var t := Then(Then(Begin(s), DeliverLoad(0, user, m)), DeliverCheck(0));
            && IsRun(t) && t.states[0] == s && |t.steps| == 2
            && Last(t) == State(s.db, map[0 := DeliverSaving(user, m)])
  {
    var t1 := Then(Begin(s), DeliverLoad(0, user, m));
    ThenIsRun(Begin(s), DeliverLoad(0, user, m));
    ThenIsRun(t1, DeliverCheck(0));
  }

  lemma SaveAfterUpdate(s: State, user: UserId, m: MessageId)
    requires m in s.db.messages && Holding(s, 1, m) && s.tasks.Keys == {0, 1} && Saving(s.tasks[0], m)
    ensures var s1 := Apply(s, ReadUpdate(1));
            var s2 := Apply(s1, DeliverSave(0));
            Lowers(s1, s2, m) && s2.tasks == map[] && m in s2.db.messages &&
            s2.db.messages[m] == s.db.messages[m].(status := Delivered)
  {
    var s2 := Apply(Apply(s, ReadUpdate(1)), DeliverSave(0));
    assert s2.tasks.Keys == {};
  }

  /** Every client that got the broadcasts shows the message as read, while the store says delivered and the unread
      count still has it. */
  lemma {:induction false} StaleSaveSplitsViews(s: State, user: UserId, c: ConversationId, m: MessageId)
    requires Openable(s, user, c, m) && s.tasks == map[]
    ensures var t := StaleSaveRun(s, user, c, m);
            && IsRun(t) && |t.steps| == 7 && t.states[0] == s && Last(t).tasks == map[]
            && m in Last(t).db.messages && StatusIn(Last(t), m) == Delivered && JoinAt(t, 7, m) == Read
            && m in UnreadIds(Last(t).db, c, user)
  {
    var t2 := Then(Then(Begin(s), DeliverLoad(0, user, m)), DeliverCheck(0));
    var t5 := OpenReadRun(t2, 1, user, c, m);
    StaleDelivery(s, user, c, m);
    OpenReadIsRun(t2, 1, user, c, m);
    SaveAfterUpdate(Last(t5), user, m);
    LastTwo(t5, ReadUpdate(1), DeliverSave(0));
    LateAtOnce(StaleSaveRun(s, user, c, m), 6, m);
    StoredIsJoinIff(StaleSaveRun(s, user, c, m), 7, m);
  }

  lemma LateAtOnce(t: Trace, k: nat, m: MessageId)
    requires LowersAt(t, k, m)
    ensures LateSave(t, k + 1, m)
  {
    assert Since.HoldsFrom(Lowering(t, m), Raising(t, m), k, k + 1);
  }
}
