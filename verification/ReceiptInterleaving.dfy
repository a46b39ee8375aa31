/** The receipt services of src/services/message.service.ts with one step per `await`: handlers of any
    number of sockets interleave between a database answer and the write that follows it. */
module ReceiptInterleaving {
  import opened Domain
  import opened Sanitize
  import opened ConversationService
  import Service = MessageService

  type TaskId = nat

  /** Where a handler is suspended. */
  datatype Task =
    | DeliverLoaded(user: UserId, message: MessageId, seen: Status)           // `findById` has answered
    | DeliverSaving(user: UserId, message: MessageId)                         // member, saw `sent`; `save` under way
    | ReadMember(user: UserId, conversation: ConversationId, upTo: MessageId) // membership confirmed
    | ReadBounded(user: UserId, conversation: ConversationId, upTo: MessageId) // `upToMessage` found
    | ReadCollected(user: UserId, conversation: ConversationId, ids: set<MessageId>) // `updateMany` under way

  datatype State = State(db: Store, tasks: map<TaskId, Task>)

  datatype Step =
    | Insert(sender: UserId, conversation: ConversationId, text: Text, message: MessageId, now: nat)
    | DeliverLoad(t: TaskId, user: UserId, message: MessageId)
    | DeliverCheck(t: TaskId)
    | DeliverSave(t: TaskId)
    | ReadStart(t: TaskId, user: UserId, conversation: ConversationId, upTo: MessageId)
    | ReadBound(t: TaskId)
    | ReadCollect(t: TaskId)
    | ReadUpdate(t: TaskId)

  function SetStatus(db: Store, id: MessageId, s: Status): Store {
    if id in db.messages then db.(messages := db.messages[id := db.messages[id].(status := s)]) else db
  }

  /** One database answer or write. A step that is not enabled changes nothing. */
  function Apply(s: State, step: Step): State {
    match step
    case Insert(sender, c, text, id, now) =>
      if IsMember(s.db, c, sender) && id !in s.db.messages then
        s.(db := s.db.(messages := s.db.messages[id := Message(c, sender, text, Sent, now)]))
      else s
    case DeliverLoad(t, user, id) =>
      if t !in s.tasks && id in s.db.messages then
        s.(tasks := s.tasks[t := DeliverLoaded(user, id, s.db.messages[id].status)])
      else s
    case DeliverCheck(t) =>
      if t in s.tasks && s.tasks[t].DeliverLoaded? then
        var task := s.tasks[t];
        if MayDeliver(s.db, task) then s.(tasks := s.tasks[t := DeliverSaving(task.user, task.message)])
        else s.(tasks := s.tasks - {t})
      else s
    case DeliverSave(t) =>
      if t in s.tasks && s.tasks[t].DeliverSaving? then
        State(SetStatus(s.db, s.tasks[t].message, Delivered), s.tasks - {t})
      else s
    case ReadStart(t, user, c, upTo) =>
      if t !in s.tasks && IsMember(s.db, c, user) then s.(tasks := s.tasks[t := ReadMember(user, c, upTo)]) else s
    case ReadBound(t) =>
      if t in s.tasks && s.tasks[t].ReadMember? then
        var task := s.tasks[t];
        if task.upTo in s.db.messages && s.db.messages[task.upTo].conversation == task.conversation then
          s.(tasks := s.tasks[t := ReadBounded(task.user, task.conversation, task.upTo)])
        else s.(tasks := s.tasks - {t})
      else s
    case ReadCollect(t) =>
      if t in s.tasks && s.tasks[t].ReadBounded? && s.tasks[t].upTo in s.db.messages then
        var task := s.tasks[t];
        var ids := Service.ReadTargets(s.db, task.conversation, task.upTo, task.user);
        if ids == {} then s.(tasks := s.tasks - {t})
        else s.(tasks := s.tasks[t := ReadCollected(task.user, task.conversation, ids)])
      else s
    case ReadUpdate(t) =>
      if t in s.tasks && s.tasks[t].ReadCollected? then
        State(s.db.(messages := Service.SetRead(s.db.messages, s.tasks[t].ids)), s.tasks - {t})
      else s
  }

  /** The membership answer and the check of the status loaded earlier. */
  predicate MayDeliver(db: Store, task: Task)
    requires task.DeliverLoaded?
  {
    task.seen == Sent && task.message in db.messages && IsMember(db, db.messages[task.message].conversation, task.user)
  }

  function Exec(s: State, run: seq<Step>): State
    decreases |run|
  {
    if run == [] then s else Exec(Apply(s, run[0]), run[1..])
  }

  lemma {:induction false} ExecConcat(s: State, run: seq<Step>, more: seq<Step>)
    ensures Exec(s, run + more) == Exec(Exec(s, run), more)
    decreases |run|
  {
    if run == [] {
      assert run + more == more;
    } else {
      assert (run + more)[1..] == run[1..] + more;
      ExecConcat(Apply(s, run[0]), run[1..], more);
    }
  }

  /** The rank of a stored message's status; 0 while it is not stored. */
  function RankOf(s: State, m: MessageId): nat {
    if m in s.db.messages then Rank(s.db.messages[m].status) else 0
  }

  /** A handler that loaded m while it was `sent` and has not finished. */
  predicate IsStale(task: Task, m: MessageId) {
    match task
    case DeliverLoaded(_, id, seen) => id == m && seen == Sent
    case DeliverSaving(_, id) => id == m
    case _ => false
  }

  predicate Saving(task: Task, m: MessageId) {
    task.DeliverSaving? && task.message == m
  }

  predicate StaleAt(s: State, t: TaskId, m: MessageId) {
    t in s.tasks && IsStale(s.tasks[t], m)
  }

  // ---------- What one step can do to a status ----------

  /** A status goes down only from `read` to `delivered`, and only when the save of a handler that had seen
      the message as `sent` lands. */
  lemma OnlyStaleSavesDowngrade(s: State, step: Step, m: MessageId)
    ensures var s' := Apply(s, step);
            m in s.db.messages ==> m in s'.db.messages
    ensures var s' := Apply(s, step);
            RankOf(s', m) < RankOf(s, m) ==>
              && step.DeliverSave? && step.t in s.tasks && Saving(s.tasks[step.t], m)
              && s.db.messages[m].status == Read && s'.db.messages[m].status == Delivered
  {
  }

  /** No interleaving brings a status back to `sent`. */
  lemma {:induction false} NeverBackToSent(s: State, run: seq<Step>, m: MessageId)
    requires m in s.db.messages && s.db.messages[m].status != Sent
    ensures m in Exec(s, run).db.messages && Exec(s, run).db.messages[m].status != Sent
    decreases |run|
  {
    if run != [] {
      OnlyStaleSavesDowngrade(s, run[0], m);
      NeverBackToSent(Apply(s, run[0]), run[1..], m);
    }
  }

  /** A handler that is stale for m at the end of a run, and was not at its start, loaded m during the run
      while m was `sent`. */
  lemma {:induction false} StaleLoadedWhileSent(s: State, run: seq<Step>, t: TaskId, m: MessageId) returns (i: nat)
    requires !StaleAt(s, t, m) && StaleAt(Exec(s, run), t, m)
    ensures i < |run| && run[i].DeliverLoad? && run[i].t == t && run[i].message == m
    ensures var before := Exec(s, run[..i]);
            m in before.db.messages && before.db.messages[m].status == Sent
    decreases |run|
  {
    if StaleAt(Apply(s, run[0]), t, m) {
      i := 0;
    } else {
      var j := StaleLoadedWhileSent(Apply(s, run[0]), run[1..], t, m);
      i := j + 1;
      assert run[..i][1..] == run[1..][..j];
    }
  }

  // ---------- How often a status can go down ----------

  function Bit(b: bool): nat {
    if b then 1 else 0
  }

  /** Steps of the run that lower m's status. */
  function Downgrades(s: State, run: seq<Step>, m: MessageId): nat
    decreases |run|
  {
    if run == [] then 0
    else Bit(RankOf(Apply(s, run[0]), m) < RankOf(s, m)) + Downgrades(Apply(s, run[0]), run[1..], m)
  }

  /** Handlers that load m during the run while it is `sent`. */
  function SentLoads(s: State, run: seq<Step>, m: MessageId): nat
    decreases |run|
  {
    if run == [] then 0
    else Bit(LoadsSent(s, run[0], m)) + SentLoads(Apply(s, run[0]), run[1..], m)
  }

  predicate LoadsSent(s: State, step: Step, m: MessageId) {
    step.DeliverLoad? && step.message == m && step.t !in s.tasks && m in s.db.messages &&
        s.db.messages[m].status == Sent
  }

  /** `updateMany` writes of the run that raise m to `read`. */
  function Raises(s: State, run: seq<Step>, m: MessageId): nat
    decreases |run|
  {
    if run == [] then 0
    else Bit(RankOf(s, m) < 2 && RankOf(Apply(s, run[0]), m) == 2) + Raises(Apply(s, run[0]), run[1..], m)
  }

  function StaleTasks(s: State, m: MessageId): set<TaskId> {
    set t | t in s.tasks && IsStale(s.tasks[t], m)
  }

  lemma StaleBudget(s: State, step: Step, m: MessageId)
    ensures var s' := Apply(s, step);
            Bit(RankOf(s', m) < RankOf(s, m)) + |StaleTasks(s', m)| <= |StaleTasks(s, m)| + Bit(LoadsSent(s, step, m))
  {
    var s' := Apply(s, step);
    OnlyStaleSavesDowngrade(s, step, m);
    if RankOf(s', m) < RankOf(s, m) {
      SaveSpends(s, step.t, m);
    } else if LoadsSent(s, step, m) {
      assert StaleTasks(s', m) == StaleTasks(s, m) + {step.t};
    } else {
      StaleShrinks(s, step, m);
      SubsetCard(StaleTasks(s', m), StaleTasks(s, m));
    }
  }

  lemma SaveSpends(s: State, t: TaskId, m: MessageId)
    requires t in s.tasks && Saving(s.tasks[t], m)
    ensures |StaleTasks(Apply(s, DeliverSave(t)), m)| + 1 == |StaleTasks(s, m)|
    ensures !LoadsSent(s, DeliverSave(t), m)
  {
    assert t in StaleTasks(s, m);
    assert StaleTasks(Apply(s, DeliverSave(t)), m) == StaleTasks(s, m) - {t};
  }

  lemma StaleShrinks(s: State, step: Step, m: MessageId)
    requires !LoadsSent(s, step, m)
    ensures StaleTasks(Apply(s, step), m) <= StaleTasks(s, m)
  {
  }

  /** Over every interleaving, a status goes down at most once for each handler that saw the message as
      `sent`, and at most once for each write that raised it to `read`. */
  lemma {:induction false} DowngradeBound(s: State, run: seq<Step>, m: MessageId)
    ensures Downgrades(s, run, m) <= |StaleTasks(s, m)| + SentLoads(s, run, m)
    ensures Downgrades(s, run, m) <= Bit(RankOf(s, m) == 2) + Raises(s, run, m)
    decreases |run|
  {
    if run != [] {
      StaleBudget(s, run[0], m);
      OnlyStaleSavesDowngrade(s, run[0], m);
      DowngradeBound(Apply(s, run[0]), run[1..], m);
    }
  }

  // ---------- When statuses are safe ----------

  /** A handler whose save will land whatever the other handlers do. */
  predicate Threatens(s: State, t: TaskId, m: MessageId)
    requires m in s.db.messages
  {
    StaleAt(s, t, m) && (s.tasks[t].DeliverLoaded? ==> IsMember(s.db, s.db.messages[m].conversation, s.tasks[t].user))
  }

  ghost predicate Quiet(s: State, m: MessageId) {
    m in s.db.messages && s.db.messages[m].status != Sent && forall t :: t in s.tasks ==> !Threatens(s, t, m)
  }

  lemma QuietStep(s: State, step: Step, m: MessageId)
    requires Quiet(s, m)
    ensures Quiet(Apply(s, step), m) && RankOf(s, m) <= RankOf(Apply(s, step), m)
  {
    OnlyStaleSavesDowngrade(s, step, m);
    if step.DeliverSave? && step.t in s.tasks {
      assert !Threatens(s, step.t, m);
    }
    QuietTasks(s, step, m);
  }

  lemma QuietTasks(s: State, step: Step, m: MessageId)
    requires Quiet(s, m) && m in Apply(s, step).db.messages
    ensures forall t :: t in Apply(s, step).tasks ==> !Threatens(Apply(s, step), t, m)
  {
  }

  /** Once no handler that saw the message as `sent` can still save, the status never goes down again. */
  lemma {:induction false} QuietIsMonotone(s: State, run: seq<Step>, m: MessageId)
    requires Quiet(s, m)
    ensures Quiet(Exec(s, run), m) && RankOf(s, m) <= RankOf(Exec(s, run), m)
    ensures Downgrades(s, run, m) == 0
    decreases |run|
  {
    if run != [] {
      QuietStep(s, run[0], m);
      QuietIsMonotone(Apply(s, run[0]), run[1..], m);
    }
  }

  /** A `read` message can lose that status in some continuation exactly when a member's delivery handler
      that saw it as `sent` is still in flight. */
  lemma ReadIsSafeIff(s: State, m: MessageId)
    requires m in s.db.messages && s.db.messages[m].status == Read
    ensures (exists run :: RankOf(Exec(s, run), m) < 2) <==> exists t :: t in s.tasks && Threatens(s, t, m)
  {
    if t :| t in s.tasks && Threatens(s, t, m) {
      var run := [DeliverCheck(t), DeliverSave(t)];
      var s1 := Apply(s, run[0]);
      assert Saving(s1.tasks[t], m);
      var s2 := Apply(s1, run[1]);
      assert s2.db.messages[m].status == Delivered;
      assert run[1..] == [DeliverSave(t)] && run[1..][1..] == [];
      assert Exec(s1, run[1..]) == Exec(s2, []);
      assert RankOf(Exec(s, run), m) < 2;
    } else {
      forall run ensures RankOf(Exec(s, run), m) == 2 {
        QuietIsMonotone(s, run, m);
      }
    }
  }

  // ---------- The bound is attained ----------

  /** From task 2 * n on, the same user opens a delivery and a read of m and both stop before their write. */
  function OpenPair(n: nat, user: UserId, c: ConversationId, m: MessageId): seq<Step> {
    [DeliverLoad(2 * n, user, m), DeliverCheck(2 * n),
     ReadStart(2 * n + 1, user, c, m), ReadBound(2 * n + 1), ReadCollect(2 * n + 1)]
  }

  function OpenPairs(n: nat, user: UserId, c: ConversationId, m: MessageId): seq<Step> {
    if n == 0 then [] else OpenPairs(n - 1, user, c, m) + OpenPair(n - 1, user, c, m)
  }

  /** Then, pair by pair, the read lands and after it the delivery. */
  function ClosePairs(n: nat): seq<Step> {
    if n == 0 then [] else [ReadUpdate(2 * (n - 1) + 1), DeliverSave(2 * (n - 1))] + ClosePairs(n - 1)
  }

  ghost predicate PairsOpen(s: State, n: nat, m: MessageId) {
    forall i :: 0 <= i < n ==> PairOpen(s, i, m)
  }

  ghost predicate PairOpen(s: State, i: nat, m: MessageId) {
    && 2 * i in s.tasks && Saving(s.tasks[2 * i], m)
    && 2 * i + 1 in s.tasks && s.tasks[2 * i + 1].ReadCollected? && m in s.tasks[2 * i + 1].ids
  }

  ghost predicate Openable(s: State, user: UserId, c: ConversationId, m: MessageId) {
    && m in s.db.messages && s.db.messages[m].status == Sent && s.db.messages[m].conversation == c
    && s.db.messages[m].sender != user && IsMember(s.db, c, user)
  }

  lemma OpenOnePair(s: State, n: nat, user: UserId, c: ConversationId, m: MessageId)
    requires Openable(s, user, c, m) && 2 * n !in s.tasks && 2 * n + 1 !in s.tasks
    ensures var s' := Exec(s, OpenPair(n, user, c, m));
            && s'.db == s.db && PairOpen(s', n, m)
            && s'.tasks.Keys == s.tasks.Keys + {2 * n, 2 * n + 1}
            && forall t :: t in s.tasks ==> s'.tasks[t] == s.tasks[t]
  {
    var run := OpenPair(n, user, c, m);
    var s1 := Apply(s, run[0]);
    var s2 := Apply(s1, run[1]);
    var s3 := Apply(s2, run[2]);
    var s4 := Apply(s3, run[3]);
    var s5 := Apply(s4, run[4]);
    assert m in Service.ReadTargets(s.db, c, m, user);
    assert run == [run[0]] + ([run[1]] + ([run[2]] + ([run[3]] + [run[4]])));
    ExecOne(s, run[0]); ExecOne(s1, run[1]); ExecOne(s2, run[2]); ExecOne(s3, run[3]); ExecOne(s4, run[4]);
    ExecConcat(s3, [run[3]], [run[4]]);
    ExecConcat(s2, [run[2]], [run[3]] + [run[4]]);
    ExecConcat(s1, [run[1]], [run[2]] + ([run[3]] + [run[4]]));
    ExecConcat(s, [run[0]], [run[1]] + ([run[2]] + ([run[3]] + [run[4]])));
  }

  lemma ExecOne(s: State, step: Step)
    ensures Exec(s, [step]) == Apply(s, step)
  {
  }

  lemma {:induction false} OpenAllPairs(s: State, n: nat, user: UserId, c: ConversationId, m: MessageId)
    requires Openable(s, user, c, m) && s.tasks == map[]
    ensures var s' := Exec(s, OpenPairs(n, user, c, m));
            s'.db == s.db && PairsOpen(s', n, m) && forall t :: t in s'.tasks ==> t < 2 * n
  {
    if n > 0 {
      OpenAllPairs(s, n - 1, user, c, m);
      var mid := Exec(s, OpenPairs(n - 1, user, c, m));
      OpenOnePair(mid, n - 1, user, c, m);
      ExecConcat(s, OpenPairs(n - 1, user, c, m), OpenPair(n - 1, user, c, m));
      var s' := Exec(s, OpenPairs(n, user, c, m));
      forall i | 0 <= i < n ensures PairOpen(s', i, m) {
        assert i < n - 1 ==> PairOpen(mid, i, m);
      }
    }
  }

  lemma {:induction false} ClosingDowngrades(s: State, n: nat, m: MessageId)
    requires m in s.db.messages && s.db.messages[m].status != Read && PairsOpen(s, n, m)
    ensures Downgrades(s, ClosePairs(n), m) == n
    decreases n
  {
    if n > 0 {
      var run := ClosePairs(n);
      assert PairOpen(s, n - 1, m);
      var s1 := Apply(s, run[0]);
      var s2 := Apply(s1, run[1]);
      assert s1.db.messages[m].status == Read && s2.db.messages[m].status == Delivered;
      forall i | 0 <= i < n - 1 ensures PairOpen(s2, i, m) {
        assert PairOpen(s, i, m);
      }
      ClosingDowngrades(s2, n - 1, m);
      assert run[1..][1..] == ClosePairs(n - 1);
      assert Downgrades(s, run, m) == 1 + Downgrades(s2, ClosePairs(n - 1), m);
    }
  }

  /** For every n there is an interleaving of n deliveries and n reads of one message, by one member, that
      takes its status from `read` back to `delivered` exactly n times: the bound is attained. */
  lemma DowngradesHappen(s: State, n: nat, user: UserId, c: ConversationId, m: MessageId) returns (run: seq<Step>)
    requires Openable(s, user, c, m) && s.tasks == map[]
    ensures Downgrades(s, run, m) == SentLoads(s, run, m) == n
  {
    var open, close := OpenPairs(n, user, c, m), ClosePairs(n);
    OpenAllPairs(s, n, user, c, m);
    ClosingDowngrades(Exec(s, open), n, m);
    run := open + close;
    DowngradesConcat(s, open, close, m);
    DowngradeBound(s, run, m);
    assert StaleTasks(s, m) == {};
    SentLoadsAtMost(s, run, m);
    LoadsConcat(open, close);
    LoadsOfPairs(n, user, c, m);
  }

  function Loads(run: seq<Step>): nat {
    if run == [] then 0 else Bit(run[0].DeliverLoad?) + Loads(run[1..])
  }

  lemma {:induction false} LoadsConcat(run: seq<Step>, more: seq<Step>)
    ensures Loads(run + more) == Loads(run) + Loads(more)
  {
    if run == [] {
      assert run + more == more;
    } else {
      assert (run + more)[1..] == run[1..] + more;
      LoadsConcat(run[1..], more);
    }
  }

  lemma {:induction false} SentLoadsAtMost(s: State, run: seq<Step>, m: MessageId)
    ensures SentLoads(s, run, m) <= Loads(run)
    decreases |run|
  {
    if run != [] {
      SentLoadsAtMost(Apply(s, run[0]), run[1..], m);
    }
  }

  lemma {:induction false} LoadsOfPairs(n: nat, user: UserId, c: ConversationId, m: MessageId)
    ensures Loads(OpenPairs(n, user, c, m)) == n && Loads(ClosePairs(n)) == 0
  {
    if n > 0 {
      LoadsOfPairs(n - 1, user, c, m);
      LoadsConcat(OpenPairs(n - 1, user, c, m), OpenPair(n - 1, user, c, m));
      var pair := OpenPair(n - 1, user, c, m);
      assert pair == [pair[0]] + [pair[1]] + [pair[2]] + [pair[3]] + [pair[4]];
      LoadsConcat([pair[0]], pair[1..]);
      NoLoads(pair[1..]);
      assert pair == [pair[0]] + pair[1..];
      var first := [ReadUpdate(2 * (n - 1) + 1), DeliverSave(2 * (n - 1))];
      NoLoads(first);
      LoadsConcat(first, ClosePairs(n - 1));
    }
  }

  lemma {:induction false} NoLoads(run: seq<Step>)
    requires forall i :: 0 <= i < |run| ==> !run[i].DeliverLoad?
    ensures Loads(run) == 0
  {
    if run != [] {
      NoLoads(run[1..]);
    }
  }

  lemma {:induction false} DowngradesConcat(s: State, run: seq<Step>, more: seq<Step>, m: MessageId)
    ensures Downgrades(s, run + more, m) == Downgrades(s, run, m) + Downgrades(Exec(s, run), more, m)
    decreases |run|
  {
    if run == [] {
      assert run + more == more;
    } else {
      assert (run + more)[1..] == run[1..] + more;
      DowngradesConcat(Apply(s, run[0]), run[1..], more, m);
    }
  }
}
