/** `createConversation` of src/services/conversation.service.ts with one step per `await`: the look-up for an
    existing 1:1 conversation and the insert that follows it belong to different steps, between which other
    calls run. */
module CreationInterleaving {
  import opened Domain
  import opened Sanitize
  import opened ConversationService

  type TaskId = nat

  /** A call that found no match and will insert, or one that has. Calls are numbered once. */
  datatype Task = Inserting(name: Option<Text>, memberIds: seq<UserId>) | Finished

  datatype State = State(db: Store, tasks: map<TaskId, Task>)

  datatype Step =
    | LookUp(t: TaskId, current: UserId, name: Option<Text>, listed: seq<UserId>) // `findOne` has answered
    | Create(t: TaskId, id: ConversationId, now: nat)                             // the `create` after it
    | CreateGroup(current: UserId, name: Option<Text>, listed: seq<UserId>, id: ConversationId, now: nat)
    | Touch(conversation: ConversationId, message: MessageId, now: nat)           // a message is sent

  /** One database answer or write. A step that is not enabled changes nothing. */
  function Apply(s: State, step: Step): State {
    match step
    case LookUp(t, current, name, listed) =>
      var memberIds := Distinct([current] + listed);
      if t in s.tasks then s
      else if Existing(s.db, memberIds) != {} then s.(tasks := s.tasks[t := Finished])
      else s.(tasks := s.tasks[t := Inserting(name, memberIds)])
    case Create(t, id, now) =>
      if MayCreate(s, t, id) then
        State(Insert(s.db, Direct, s.tasks[t].name, s.tasks[t].memberIds, id, now), s.tasks[t := Finished])
      else s
    case CreateGroup(current, name, listed, id, now) =>
      if id in s.db.conversations then s
      else s.(db := Insert(s.db, Group, name, Distinct([current] + listed), id, now))
    case Touch(c, m, now) =>
      if c !in s.db.conversations then s
      else s.(db := s.db.(conversations :=
                            s.db.conversations[c := s.db.conversations[c].(lastMessage := Some(m), updatedAt := now)]))
  }

  predicate MayCreate(s: State, t: TaskId, id: ConversationId) {
    t in s.tasks && s.tasks[t].Inserting? && id !in s.db.conversations
  }

  /** The state after the first k steps of the run. */
  function At(s: State, run: seq<Step>, k: nat): State
    requires k <= |run|
  {
    if k == 0 then s else Apply(At(s, run, k - 1), run[k - 1])
  }

  // ---------- Overlapping calls ----------

  /** Step i of the run inserts a 1:1 conversation of the given members for task t. */
  ghost predicate Inserts(s: State, run: seq<Step>, i: nat, t: TaskId, members: set<UserId>) {
    i < |run| && run[i].Create? && run[i].t == t &&
    MayCreate(At(s, run, i), t, run[i].id) && Elements(At(s, run, i).tasks[t].memberIds) == members
  }

  /** Step h is a look-up by task t for these members that finds nothing. */
  ghost predicate LooksUpInVain(s: State, run: seq<Step>, h: nat, t: TaskId, members: set<UserId>) {
    h < |run| && run[h].LookUp? && run[h].t == t && t !in At(s, run, h).tasks &&
    var memberIds := Distinct([run[h].current] + run[h].listed);
    Elements(memberIds) == members && Existing(At(s, run, h).db, memberIds) == {}
  }

  /** Between task t's look-up and its insert at j, another task inserts the same members. */
  ghost predicate Overtaken(s: State, run: seq<Step>, j: nat, t: TaskId, members: set<UserId>) {
    Inserts(s, run, j, t, members) && OvertakenBefore(s, run, j, t, members)
  }

  ghost predicate OvertakenBefore(s: State, run: seq<Step>, j: nat, t: TaskId, members: set<UserId>) {
    exists h: nat, i: nat, t': TaskId ::
      h < i < j && t' != t && LooksUpInVain(s, run, h, t, members) && Inserts(s, run, i, t', members)
  }

  // ---------- One step ----------

  /** Conversations are never removed and keep their kind and members. */
  ghost predicate Persists(db: Store, db': Store) {
    forall c :: c in db.conversations ==>
      && c in db'.conversations
      && db'.conversations[c].kind == db.conversations[c].kind
      && db'.conversations[c].members == db.conversations[c].members
  }

  lemma StepPersists(s: State, step: Step)
    ensures Persists(s.db, Apply(s, step).db)
  {
  }

  lemma {:induction false} RunPersists(s: State, run: seq<Step>, i: nat, k: nat)
    requires i <= k <= |run|
    ensures Persists(At(s, run, i).db, At(s, run, k).db)
    decreases k
  {
    if i < k {
      RunPersists(s, run, i, k - 1);
      StepPersists(At(s, run, k - 1), run[k - 1]);
    }
  }

  /** Pending calls ask for duplicate-free members; stored members are duplicate-free. */
  ghost predicate Tidy(s: State) {
    MembersDistinct(s.db) && forall t :: t in s.tasks && s.tasks[t].Inserting? ==> NoDuplicates(s.tasks[t].memberIds)
  }

  lemma StepTidy(s: State, step: Step)
    requires Tidy(s)
    ensures Tidy(Apply(s, step))
  {
    match step
    case LookUp(_, current, _, listed) => DistinctKeepsElements([current] + listed);
    case CreateGroup(current, _, listed, _, _) => DistinctKeepsElements([current] + listed);
    case _ =>
  }

  lemma {:induction false} RunTidy(s: State, run: seq<Step>, k: nat)
    requires Tidy(s) && k <= |run|
    ensures Tidy(At(s, run, k))
  {
    if k > 0 {
      RunTidy(s, run, k - 1);
      StepTidy(At(s, run, k - 1), run[k - 1]);
    }
  }

  /** The step is an insert for members that have a 1:1 conversation by then. */
  predicate TooLate(s: State, step: Step) {
    step.Create? && MayCreate(s, step.t, step.id) && Existing(s.db, s.tasks[step.t].memberIds) != {}
  }

  lemma StepKeepsUniqueIff(s: State, step: Step)
    requires Tidy(s) && DirectUnique(s.db)
    ensures DirectUnique(Apply(s, step).db) <==> !TooLate(s, step)
  {
    match step
    case Create(t, id, now) =>
      if MayCreate(s, t, id) {
        InsertKeepsUniqueIff(s.db, s.tasks[t].name, s.tasks[t].memberIds, id, now);
      }
    case _ =>
  }

  // ---------- Where a match can come from ----------

  /** The step that makes the first match appear is another call's insert for the same members. */
  lemma MatchAppears(s: State, step: Step, t: TaskId)
    requires Tidy(s) && t in s.tasks && s.tasks[t].Inserting? && Existing(s.db, s.tasks[t].memberIds) == {}
    requires t in Apply(s, step).tasks && Apply(s, step).tasks[t].Inserting?
    requires Existing(Apply(s, step).db, s.tasks[t].memberIds) != {}
    ensures step.Create? && step.t != t && MayCreate(s, step.t, step.id)
    ensures Elements(s.tasks[step.t].memberIds) == Elements(s.tasks[t].memberIds)
  {
    var memberIds, db' := s.tasks[t].memberIds, Apply(s, step).db;
    var c :| c in Existing(db', memberIds);
    MatchIsExisting(db', memberIds, c);
    if c in s.db.conversations {
      assert MatchesDirect(s.db.conversations[c], memberIds);
      MatchIsExisting(s.db, memberIds, c);
    }
    AllAndSizeIsSetEquality(db'.conversations[c], memberIds);
  }

  ghost predicate LookedUpBefore(s: State, run: seq<Step>, k: nat, t: TaskId, members: set<UserId>) {
    exists h: nat :: h < k && LooksUpInVain(s, run, h, t, members)
  }

  /** What is known of a pending call after k steps: its own look-up, and an overtaking insert if a match is
      stored by now. */
  ghost predicate Explained(s: State, run: seq<Step>, k: nat, t: TaskId)
    requires k <= |run|
  {
    var now := At(s, run, k);
    t in now.tasks && now.tasks[t].Inserting? ==>
      var memberIds := now.tasks[t].memberIds;
      && LookedUpBefore(s, run, k, t, Elements(memberIds))
      && (Existing(now.db, memberIds) != {} ==> OvertakenBefore(s, run, k, t, Elements(memberIds)))
  }

  lemma {:induction false} RunExplained(s: State, run: seq<Step>, k: nat, t: TaskId)
    requires Tidy(s) && s.tasks == map[] && k <= |run|
    ensures Explained(s, run, k, t)
  {
    if k > 0 {
      RunTidy(s, run, k - 1);
      RunExplained(s, run, k - 1, t);
      StepExplained(s, run, k - 1, t);
    }
  }

  lemma StepExplained(s: State, run: seq<Step>, k: nat, t: TaskId)
    requires k < |run| && Tidy(At(s, run, k)) && Explained(s, run, k, t)
    ensures Explained(s, run, k + 1, t)
  {
    var before, after := At(s, run, k), At(s, run, k + 1);
    if t in after.tasks && after.tasks[t].Inserting? {
      var memberIds := after.tasks[t].memberIds;
      if t !in before.tasks {
        assert LooksUpInVain(s, run, k, t, Elements(memberIds));
      } else if Existing(before.db, memberIds) == {} && Existing(after.db, memberIds) != {} {
        MatchAppears(before, run[k], t);
        assert Inserts(s, run, k, run[k].t, Elements(memberIds));
      }
    }
  }

  // ---------- Exactly the overtaken calls break uniqueness ----------

  lemma {:induction false} UniqueUnlessOvertaken(s: State, run: seq<Step>, k: nat)
    requires Tidy(s) && DirectUnique(s.db) && s.tasks == map[] && k <= |run|
    requires forall j: nat, t: TaskId, members: set<UserId> :: !Overtaken(s, run, j, t, members)
    ensures DirectUnique(At(s, run, k).db)
  {
    if k > 0 {
      var before, step := At(s, run, k - 1), run[k - 1];
      UniqueUnlessOvertaken(s, run, k - 1);
      RunTidy(s, run, k - 1);
      if TooLate(before, step) {
        RunExplained(s, run, k - 1, step.t);
        assert Overtaken(s, run, k - 1, step.t, Elements(before.tasks[step.t].memberIds));
      }
      StepKeepsUniqueIff(before, step);
    }
  }

  lemma SecondInsertBreaks(s: State, step: Step, c: ConversationId)
    requires Tidy(s) && step.Create? && MayCreate(s, step.t, step.id)
    requires c in s.db.conversations && s.db.conversations[c].kind == Direct
    requires Elements(s.db.conversations[c].members) == Elements(s.tasks[step.t].memberIds)
    ensures !DirectUnique(Apply(s, step).db)
  {
    assert SameDirect(Apply(s, step).db.conversations[c], Apply(s, step).db.conversations[step.id]);
  }

  lemma TwoInsertsBreakUnique(s: State, run: seq<Step>, i: nat, j: nat, t: TaskId, t': TaskId, members: set<UserId>)
    requires Tidy(s) && i < j && Inserts(s, run, i, t', members) && Inserts(s, run, j, t, members)
    ensures !DirectUnique(At(s, run, |run|).db)
  {
    InsertedIsStored(s, run, i, j, t', members);
    RunTidy(s, run, j);
    SecondInsertBreaks(At(s, run, j), run[j], run[i].id);
    BrokenToTheEnd(s, run, j + 1);
  }

  lemma InsertedIsStored(s: State, run: seq<Step>, i: nat, j: nat, t: TaskId, members: set<UserId>)
    requires i < j <= |run| && Inserts(s, run, i, t, members)
    ensures var (conversations, c) := (At(s, run, j).db.conversations, run[i].id);
            && c in conversations && conversations[c].kind == Direct
            && Elements(conversations[c].members) == members
  {
    RunPersists(s, run, i + 1, j);
  }

  lemma BrokenToTheEnd(s: State, run: seq<Step>, k: nat)
    requires k <= |run| && !DirectUnique(At(s, run, k).db)
    ensures !DirectUnique(At(s, run, |run|).db)
  {
    RunPersists(s, run, k, |run|);
    BrokenStaysBroken(At(s, run, k).db, At(s, run, |run|).db);
  }

  lemma BrokenStaysBroken(db: Store, db': Store)
    requires Persists(db, db') && !DirectUnique(db)
    ensures !DirectUnique(db')
  {
    var c, d :| c in db.conversations && d in db.conversations &&
        SameDirect(db.conversations[c], db.conversations[d]) && c != d;
    assert SameDirect(db'.conversations[c], db'.conversations[d]);
  }

  /** Over every interleaving of creations (and of whatever else touches conversations), 1:1 conversations are
      unique at the end exactly when no call's pair was inserted by another call between its own empty look-up
      and its insert. */
  lemma {:induction false} UniqueIffNotOvertaken(s: State, run: seq<Step>)
    requires Tidy(s) && DirectUnique(s.db) && s.tasks == map[]
    ensures DirectUnique(At(s, run, |run|).db) <==>
        forall j: nat, t: TaskId, members: set<UserId> :: !Overtaken(s, run, j, t, members)
  {
    if j: nat, t: TaskId, members: set<UserId> :| Overtaken(s, run, j, t, members) {
      var h: nat, i: nat, t': TaskId :|
        h < i < j && t' != t && LooksUpInVain(s, run, h, t, members) && Inserts(s, run, i, t', members);
      TwoInsertsBreakUnique(s, run, i, j, t, t', members);
    } else {
      UniqueUnlessOvertaken(s, run, |run|);
    }
  }

  /** A call whose look-up and insert follow each other is a whole creation: it returns a match or stores what was
      asked for. So is the creation of a group. */
  lemma LoneCreationIsWhole(s: State, t: TaskId, current: UserId, name: Option<Text>, listed: seq<UserId>,
                            id: ConversationId, now: nat) returns (found: ConversationId)
    requires t !in s.tasks && id !in s.db.conversations
    ensures var end := Apply(Apply(s, LookUp(t, current, name, listed)), Create(t, id, now));
            && IsCreation(s.db, current, Direct, name, listed, id, now, end.db, found)
            && end.tasks == s.tasks[t := Finished]
    ensures var end := Apply(s, CreateGroup(current, name, listed, id, now));
            IsCreation(s.db, current, Group, name, listed, id, now, end.db, id) && end.tasks == s.tasks
  {
    var memberIds := Distinct([current] + listed);
    if c :| c in Existing(s.db, memberIds) {
      found := c;
    } else {
      found := id;
    }
  }

  lemma BothLookUp(a: UserId, b: UserId)
    ensures Apply(Apply(State(EMPTY_STORE, map[]), LookUp(0, a, None, [b])), LookUp(1, b, None, [a])) ==
              State(EMPTY_STORE,
                    map[0 := Inserting(None, Distinct([a] + [b])), 1 := Inserting(None, Distinct([b] + [a]))])
  {
    assert forall memberIds :: Existing(EMPTY_STORE, memberIds) == {};
  }

  lemma BothCreate(m0: seq<UserId>, m1: seq<UserId>, now: nat)
    ensures Apply(Apply(State(EMPTY_STORE, map[0 := Inserting(None, m0), 1 := Inserting(None, m1)]), Create(0, 0, now)),
                  Create(1, 1, now)).db.conversations ==
              map[0 := Conversation(Direct, None, m0, None, now), 1 := Conversation(Direct, None, m1, None, now)]
  {
  }

  /** Two people who start a 1:1 conversation with each other at once end up with two of them. */
  lemma TwoStartsTwoConversations(a: UserId, b: UserId, now: nat)
    ensures var run := [LookUp(0, a, None, [b]), LookUp(1, b, None, [a]), Create(0, 0, now), Create(1, 1, now)];
            var db := At(State(EMPTY_STORE, map[]), run, 4).db;
            db.conversations.Keys == {0, 1} && SameDirect(db.conversations[0], db.conversations[1])
  {
    var run := [LookUp(0, a, None, [b]), LookUp(1, b, None, [a]), Create(0, 0, now), Create(1, 1, now)];
    FourSteps(State(EMPTY_STORE, map[]), run);
    BothLookUp(a, b);
    BothCreate(Distinct([a] + [b]), Distinct([b] + [a]), now);
    DistinctKeepsElements([a] + [b]);
    DistinctKeepsElements([b] + [a]);
    assert Elements([a] + [b]) == Elements([b] + [a]);
  }

  lemma FourSteps(s: State, run: seq<Step>)
    requires |run| == 4
    ensures At(s, run, 4) == Apply(Apply(Apply(Apply(s, run[0]), run[1]), run[2]), run[3])
  {
    assert At(s, run, 1) == Apply(At(s, run, 0), run[0]);
    assert At(s, run, 2) == Apply(At(s, run, 1), run[1]);
    assert At(s, run, 3) == Apply(At(s, run, 2), run[2]);
    assert At(s, run, 4) == Apply(At(s, run, 3), run[3]);
  }
}
