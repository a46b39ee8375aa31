/** Reference-counted presence: src/services/presence.service.ts, the connect and disconnect handlers of
    src/sockets/handlers/presence.handler.ts, and the order in which src/sockets/index.ts starts them. Socket
    ids are never reused. */
module Presence {
  import opened Domain

  /** `Map<userId, Set<socketId>>`. */
  type Active = map<UserId, set<SocketId>>

  function Tracked(active: Active, u: UserId): set<SocketId> {
    if u in active then active[u] else {}
  }

  function Add(active: Active, u: UserId, s: SocketId): (Active, bool) {
    (active[u := Tracked(active, u) + {s}], Tracked(active, u) == {})
  }

  /** An unknown user counts as having closed the last connection. */
  function Remove(active: Active, u: UserId, s: SocketId): (Active, bool) {
    var left := Tracked(active, u) - {s};
    (if left == {} then active - {u} else active[u := left], left == {})
  }

  predicate IsOnline(active: Active, u: UserId) {
    u in active && active[u] != {}
  }

  /** The module-level map and its three operations. */
  class Connections {
    var activeConnections: Active

    constructor ()
      ensures activeConnections == map[]
    {
      activeConnections := map[];
    }

    method AddConnection(u: UserId, s: SocketId) returns (isFirst: bool)
      modifies this
      ensures (activeConnections, isFirst) == Add(old(activeConnections), u, s)
      ensures forall v, t :: t in Tracked(activeConnections, v) <==>
                             t in Tracked(old(activeConnections), v) || (v == u && t == s)
      ensures isFirst <==> Tracked(old(activeConnections), u) == {}
    {
      isFirst := u !in activeConnections || activeConnections[u] == {};
      if u in activeConnections {
        activeConnections := activeConnections[u := activeConnections[u] + {s}];
      } else {
        activeConnections := activeConnections[u := {s}];
      }
      assert {} + {s} == {s};
    }

    method RemoveConnection(u: UserId, s: SocketId) returns (isLast: bool)
      modifies this
      ensures (activeConnections, isLast) == Remove(old(activeConnections), u, s)
      ensures forall v, t :: t in Tracked(activeConnections, v) <==>
                             t in Tracked(old(activeConnections), v) && (v != u || t != s)
      ensures isLast <==> Tracked(activeConnections, u) == {}
    {
      if u !in activeConnections {
        assert activeConnections - {u} == activeConnections;
        return true;
      }
      var sockets := activeConnections[u] - {s};
      isLast := sockets == {};
      if isLast {
        activeConnections := activeConnections - {u};
      } else {
        activeConnections := activeConnections[u := sockets];
      }
    }

  }

  // ---------- Sockets and handlers ----------

  /** Where a socket stands. Its `disconnect` handler is armed before `addConnection` has run, so the two can
      happen in either order. */
  datatype Phase =
    | Connecting   // connected, joining rooms; `addConnection` still to come
    | Registered   // connected and added
    | ClosedEarly  // disconnected before `addConnection`, which is still to come
    | Leaked       // disconnected first, added afterwards
    | Closed       // added, then disconnected

  datatype Socket = Socket(user: UserId, phase: Phase)

  datatype Announcement = Announcement(user: UserId, online: bool)

  datatype State = State(sockets: map<SocketId, Socket>, active: Active, stored: map<UserId, bool>,
                         announced: seq<Announcement>)

  const INITIAL := State(map[], map[], map[], [])

  datatype Step =
    | Arrive(socket: SocketId, user: UserId)
    | Connect(socket: SocketId)     // handleUserConnect
    | Disconnect(socket: SocketId)  // handleUserDisconnect

  /** A transition writes the stored status and is broadcast. */
  function Announce(st: State, u: UserId, online: bool): State {
    st.(stored := st.stored[u := online], announced := st.announced + [Announcement(u, online)])
  }

  /** Handlers taken as one step each. A step that is not enabled changes nothing. */
  function Next(st: State, step: Step): State {
    match step
    case Arrive(s, u) =>
      if s in st.sockets then st else st.(sockets := st.sockets[s := Socket(u, Connecting)])
    case Connect(s) =>
      if s !in st.sockets || !(st.sockets[s].phase == Connecting || st.sockets[s].phase == ClosedEarly) then st else
        var u := st.sockets[s].user;
        var phase := if st.sockets[s].phase == Connecting then Registered else Leaked;
        var (active, isFirst) := Add(st.active, u, s);
        var added := st.(sockets := st.sockets[s := Socket(u, phase)], active := active);
        if isFirst then Announce(added, u, true) else added
    case Disconnect(s) =>
      if s !in st.sockets || !(st.sockets[s].phase == Connecting || st.sockets[s].phase == Registered) then st else
        var u := st.sockets[s].user;
        var phase := if st.sockets[s].phase == Connecting then ClosedEarly else Closed;
        var (active, isLast) := Remove(st.active, u, s);
        var removed := st.(sockets := st.sockets[s := Socket(u, phase)], active := active);
        if isLast then Announce(removed, u, false) else removed
  }

  /** The status of u is stored and broadcast if it has changed, and nothing else is. */
  predicate Announces(st: State, u: UserId, online: bool, changed: bool, st': State) {
    && st'.stored == (if changed then st.stored[u := online] else st.stored)
    && st'.announced == st.announced + if changed then [Announcement(u, online)] else []
  }

  /** The presence handlers over the mutable map, the stored statuses and the broadcasts. */
  class Handlers {
    const connections: Connections
    var stored: map<UserId, bool>
    var announced: seq<Announcement>
    ghost var sockets: map<SocketId, Socket>

    constructor ()
      ensures fresh(connections) && Observed() == INITIAL
    {
      connections := new Connections();
      stored, announced, sockets := map[], [], map[];
    }

    ghost function Observed(): State
      reads this, connections
    {
      State(sockets, connections.activeConnections, stored, announced)
    }

    /** A connection: the disconnect handler is armed, the connect handler still to come. */
    method OnConnection(s: SocketId, u: UserId)
      requires s !in sockets
      modifies this
      ensures Observed() == Next(old(Observed()), Arrive(s, u))
    {
      sockets := sockets[s := Socket(u, Connecting)];
    }

    /** Online is told exactly of users with a socket that has been added and not removed since: one that is
        registered, or one that leaked. */
    method IsUserOnline(u: UserId) returns (online: bool)
      requires TracksExactly(Observed())
      ensures online <==>
                exists s :: s in sockets && (sockets[s] == Socket(u, Registered) || sockets[s] == Socket(u, Leaked))
    {
      var active := connections.activeConnections;
      online := u in active && active[u] != {};
      assert TracksUser(Observed(), u);
      if online {
        var s :| s in active[u];
        assert s in SocketsIn(Observed(), u, Registered) + SocketsIn(Observed(), u, Leaked);
      } else {
        assert Tracked(active, u) == {};
        forall s | s in sockets ensures sockets[s] != Socket(u, Registered) && sockets[s] != Socket(u, Leaked) {
          assert s !in SocketsIn(Observed(), u, Registered) + SocketsIn(Observed(), u, Leaked);
        }
      }
    }

    method HandleUserConnect(s: SocketId, u: UserId)
      requires s in sockets && sockets[s].user == u &&
          (sockets[s].phase == Connecting || sockets[s].phase == ClosedEarly)
      modifies this, connections
      ensures Observed() == Next(old(Observed()), Connect(s))
      ensures forall v, t :: t in Tracked(connections.activeConnections, v) <==>
                             t in Tracked(old(connections.activeConnections), v) || (v == u && t == s)
      ensures Announces(old(Observed()), u, true, Tracked(old(connections.activeConnections), u) == {}, Observed())
    {
      var isFirst := connections.AddConnection(u, s);
      sockets := sockets[s := Socket(u, if sockets[s].phase == Connecting then Registered else Leaked)];
      if !isFirst {
        return;
      }
      stored := stored[u := true];
      announced := announced + [Announcement(u, true)];
    }

    method HandleUserDisconnect(s: SocketId, u: UserId)
      requires s in sockets && sockets[s].user == u &&
          (sockets[s].phase == Connecting || sockets[s].phase == Registered)
      modifies this, connections
      ensures Observed() == Next(old(Observed()), Disconnect(s))
      ensures forall v, t :: t in Tracked(connections.activeConnections, v) <==>
                             t in Tracked(old(connections.activeConnections), v) && (v != u || t != s)
      ensures Announces(old(Observed()), u, false, Tracked(connections.activeConnections, u) == {}, Observed())
    {
      var isLast := connections.RemoveConnection(u, s);
      sockets := sockets[s := Socket(u, if sockets[s].phase == Connecting then ClosedEarly else Closed)];
      if !isLast {
        return;
      }
      stored := stored[u := false];
      announced := announced + [Announcement(u, false)];
    }
  }

  function Exec(st: State, run: seq<Step>): State
    decreases |run|
  {
    if run == [] then st else Exec(Next(st, run[0]), run[1..])
  }

  // ---------- What is tracked ----------

  function SocketsIn(st: State, u: UserId, phase: Phase): set<SocketId> {
    set s | s in st.sockets && st.sockets[s] == Socket(u, phase)
  }

  ghost predicate TracksExactly(st: State) {
    && (forall u :: u in st.active ==> st.active[u] != {})
    && (forall u :: TracksUser(st, u))
  }

  ghost predicate TracksUser(st: State, u: UserId) {
    Tracked(st.active, u) == SocketsIn(st, u, Registered) + SocketsIn(st, u, Leaked)
  }

  lemma NextTracksUser(st: State, step: Step, u: UserId)
    requires TracksUser(st, u)
    ensures TracksUser(Next(st, step), u)
  {
  }

  lemma NextTracks(st: State, step: Step)
    requires TracksExactly(st)
    ensures TracksExactly(Next(st, step))
  {
    forall u ensures TracksUser(Next(st, step), u) {
      NextTracksUser(st, step, u);
    }
  }

  /** Over every interleaving, what is tracked for a user is the live registered sockets plus exactly those
      whose disconnect ran before their own `addConnection`; no empty set is stored; and the user counts as
      online iff there is such a socket, so in particular while any registered socket is live. */
  lemma {:induction false} TrackedOverRuns(st: State, run: seq<Step>, u: UserId)
    requires TracksExactly(st)
    ensures var end := Exec(st, run);
            && TracksExactly(end)
            && (IsOnline(end.active, u) <==> SocketsIn(end, u, Registered) != {} || SocketsIn(end, u, Leaked) != {})
    decreases |run|
  {
    if run == [] {
      assert TracksUser(st, u);
    } else {
      NextTracks(st, run[0]);
      TrackedOverRuns(Next(st, run[0]), run[1..], u);
    }
  }

  /** A leaked socket is never removed: from then on its user is online, whatever happens. */
  lemma {:induction false} LeakIsForever(st: State, run: seq<Step>, s: SocketId)
    requires TracksExactly(st) && s in st.sockets && st.sockets[s].phase == Leaked
    ensures s in Exec(st, run).sockets && Exec(st, run).sockets[s] == st.sockets[s]
    ensures IsOnline(Exec(st, run).active, st.sockets[s].user)
    decreases |run|
  {
    if run == [] {
      assert TracksUser(st, st.sockets[s].user);
      assert s in SocketsIn(st, st.sockets[s].user, Leaked);
    } else {
      NextTracks(st, run[0]);
      LeakIsForever(Next(st, run[0]), run[1..], s);
    }
  }

  lemma {:induction false} ExecSnoc(st: State, run: seq<Step>, k: nat)
    requires k < |run|
    ensures Exec(st, run[..k + 1]) == Next(Exec(st, run[..k]), run[k])
    decreases |run|
  {
    if k == 0 {
      assert run[..1] == [run[0]] && [run[0]][1..] == [] && run[..0] == [];
    } else {
      assert run[..k + 1][1..] == run[1..][..k] && run[..k][1..] == run[1..][..k - 1];
      ExecSnoc(Next(st, run[0]), run[1..], k - 1);
    }
  }

  // ---------- What is tracked, from the steps alone ----------

  /** Socket s has arrived before step k. */
  ghost predicate ArrivedBefore(run: seq<Step>, k: nat, s: SocketId) {
    exists h: nat :: h < k && ArrivesAt(run, h, s)
  }

  predicate ArrivesAt(run: seq<Step>, h: nat, s: SocketId) {
    h < |run| && run[h].Arrive? && run[h].socket == s
  }

  /** Its first arrival before step k is for user u. */
  ghost predicate BelongsTo(run: seq<Step>, k: nat, s: SocketId, u: UserId) {
    exists h: nat :: h < k && ArrivesAt(run, h, s) && run[h].user == u && !ArrivedBefore(run, h, s)
  }

  /** Its connect runs at step i, after its arrival. */
  ghost predicate ConnectsAt(run: seq<Step>, i: nat, s: SocketId) {
    i < |run| && run[i] == Connect(s) && ArrivedBefore(run, i, s)
  }

  ghost predicate DisconnectsAt(run: seq<Step>, j: nat, s: SocketId) {
    j < |run| && run[j] == Disconnect(s) && ArrivedBefore(run, j, s)
  }

  ghost predicate ConnectedBefore(run: seq<Step>, k: nat, s: SocketId) {
    exists i: nat :: i < k && ConnectsAt(run, i, s)
  }

  ghost predicate DisconnectedBefore(run: seq<Step>, k: nat, s: SocketId) {
    exists j: nat :: j < k && DisconnectsAt(run, j, s)
  }

  /** Its first disconnect ran before step k, after its connect. */
  ghost predicate ClosedAfterConnect(run: seq<Step>, k: nat, s: SocketId) {
    exists j: nat :: j < k && ClosesConnectedAt(run, j, s)
  }

  ghost predicate ClosesConnectedAt(run: seq<Step>, j: nat, s: SocketId) {
    DisconnectsAt(run, j, s) && !DisconnectedBefore(run, j, s) && ConnectedBefore(run, j, s)
  }

  lemma BeforeNext(run: seq<Step>, k: nat, s: SocketId, u: UserId)
    ensures ArrivedBefore(run, k + 1, s) <==> ArrivedBefore(run, k, s) || ArrivesAt(run, k, s)
    ensures ConnectedBefore(run, k + 1, s) <==> ConnectedBefore(run, k, s) || ConnectsAt(run, k, s)
    ensures DisconnectedBefore(run, k + 1, s) <==> DisconnectedBefore(run, k, s) || DisconnectsAt(run, k, s)
    ensures ClosedAfterConnect(run, k + 1, s) <==> ClosedAfterConnect(run, k, s) || ClosesConnectedAt(run, k, s)
    ensures BelongsTo(run, k + 1, s, u) <==>
              BelongsTo(run, k, s, u) || (ArrivesAt(run, k, s) && run[k].user == u && !ArrivedBefore(run, k, s))
  {
  }

  /** The phase that the steps before the k-th have brought the socket to. */
  ghost function PhaseBefore(run: seq<Step>, k: nat, s: SocketId): Phase {
    if ClosedAfterConnect(run, k, s) then Closed
    else if ConnectedBefore(run, k, s) then if DisconnectedBefore(run, k, s) then Leaked else Registered
    else if DisconnectedBefore(run, k, s) then ClosedEarly else Connecting
  }

  ghost predicate PhaseFits(run: seq<Step>, k: nat, s: SocketId, u: UserId)
    requires k <= |run|
  {
    var sockets := Exec(INITIAL, run[..k]).sockets;
    && (s in sockets <==> ArrivedBefore(run, k, s))
    && (s in sockets ==> sockets[s].phase == PhaseBefore(run, k, s))
    && (s in sockets ==> (sockets[s].user == u <==> BelongsTo(run, k, s, u)))
    && (ConnectedBefore(run, k, s) || DisconnectedBefore(run, k, s) || BelongsTo(run, k, s, u) ==> s in sockets)
    && (ClosedAfterConnect(run, k, s) ==> ConnectedBefore(run, k, s) && DisconnectedBefore(run, k, s))
  }

  lemma PhaseFitsNext(run: seq<Step>, k: nat, s: SocketId, u: UserId)
    requires k < |run| && PhaseFits(run, k, s, u)
    ensures PhaseFits(run, k + 1, s, u)
  {
    ExecSnoc(INITIAL, run, k);
    BeforeNext(run, k, s, u);
  }

  lemma {:induction false} PhasesFit(run: seq<Step>, k: nat, s: SocketId, u: UserId)
    requires k <= |run|
    ensures PhaseFits(run, k, s, u)
  {
    if k > 0 {
      PhasesFit(run, k - 1, s, u);
      PhaseFitsNext(run, k - 1, s, u);
    }
  }

  /** Over every order of handlers, what is tracked for a user after a run is exactly the sockets that arrived for
      that user, whose connect has run, and whose first disconnect, if any, did not run after the connect. */
  lemma TrackedFromSteps(run: seq<Step>, s: SocketId, u: UserId)
    ensures s in Tracked(Exec(INITIAL, run).active, u) <==>
              && BelongsTo(run, |run|, s, u) && ConnectedBefore(run, |run|, s)
              && !ClosedAfterConnect(run, |run|, s)
  {
    var end := Exec(INITIAL, run);
    assert run[..|run|] == run;
    PhasesFit(run, |run|, s, u);
    TrackedOverRuns(INITIAL, run, u);
    assert TracksUser(end, u);
    assert s in Tracked(end.active, u) <==> s in SocketsIn(end, u, Registered) || s in SocketsIn(end, u, Leaked);
  }

  /** `isUserOnline` after a run, from the steps alone. */
  lemma OnlineFromSteps(run: seq<Step>, u: UserId)
    ensures IsOnline(Exec(INITIAL, run).active, u) <==>
              exists s :: && BelongsTo(run, |run|, s, u) && ConnectedBefore(run, |run|, s)
                          && !ClosedAfterConnect(run, |run|, s)
  {
    var tracked := Tracked(Exec(INITIAL, run).active, u);
    forall s {
      TrackedFromSteps(run, s, u);
    }
    if s :| s in tracked {
      assert BelongsTo(run, |run|, s, u);
    }
  }

  /** Step i is the disconnect of a socket of u that has not been added yet. */
  predicate ClosesEarly(run: seq<Step>, i: nat, s: SocketId, u: UserId) {
    i < |run| && run[i] == Disconnect(s) && InPhase(Exec(INITIAL, run[..i]), s, u, Connecting)
  }

  /** Within the first k steps, the disconnect of a socket of u ran before its own connect. */
  ghost predicate DisconnectedFirst(run: seq<Step>, k: nat, s: SocketId, u: UserId)
    requires k <= |run|
  {
    exists i: nat, j: nat :: i < j < k && ClosesEarly(run, i, s, u) && run[j] == Connect(s)
  }

  ghost predicate ClosedFirst(run: seq<Step>, k: nat, s: SocketId, u: UserId)
    requires k <= |run|
  {
    exists i: nat :: i < k && ClosesEarly(run, i, s, u)
  }

  predicate InPhase(st: State, s: SocketId, u: UserId, phase: Phase) {
    s in st.sockets && st.sockets[s] == Socket(u, phase)
  }

  lemma NextPhase(st: State, step: Step, s: SocketId, u: UserId)
    ensures InPhase(Next(st, step), s, u, Leaked) <==>
              InPhase(st, s, u, Leaked) || (InPhase(st, s, u, ClosedEarly) && step == Connect(s))
    ensures InPhase(Next(st, step), s, u, ClosedEarly) <==>
              || (InPhase(st, s, u, ClosedEarly) && step != Connect(s))
              || (InPhase(st, s, u, Connecting) && step == Disconnect(s))
  {
  }

  lemma PhaseAfterEarlyClose(run: seq<Step>, k: nat, s: SocketId, u: UserId)
    requires k <= |run|
    ensures InPhase(Exec(INITIAL, run[..k]), s, u, Leaked) <==> DisconnectedFirst(run, k, s, u)
    ensures InPhase(Exec(INITIAL, run[..k]), s, u, ClosedEarly) <==>
              ClosedFirst(run, k, s, u) && !DisconnectedFirst(run, k, s, u)
  {
    if k > 0 {
      var n: nat := k - 1;
      PhaseAfterEarlyClose(run, n, s, u);
      ExecSnoc(INITIAL, run, n);
      NextPhase(Exec(INITIAL, run[..n]), run[n], s, u);
      EarlyCloseNext(run, n, s, u);
    }
  }

  lemma EarlyCloseNext(run: seq<Step>, n: nat, s: SocketId, u: UserId)
    requires n < |run|
    ensures ClosedFirst(run, n + 1, s, u) <==> ClosedFirst(run, n, s, u) || ClosesEarly(run, n, s, u)
    ensures DisconnectedFirst(run, n + 1, s, u) <==>
              DisconnectedFirst(run, n, s, u) || (ClosedFirst(run, n, s, u) && run[n] == Connect(s))
  {
  }

  /** Over every order of handlers, `isUserOnline` tells whether a registered socket of the user is live, exactly
      when one is or, in the whole run, no socket of the user had its disconnect run before its own connect. */
  lemma OnlineIsRightIff(run: seq<Step>, u: UserId)
    ensures var end := Exec(INITIAL, run);
            (IsOnline(end.active, u) <==> SocketsIn(end, u, Registered) != {}) <==>
              (SocketsIn(end, u, Registered) != {} || !exists s :: DisconnectedFirst(run, |run|, s, u))
  {
    var end := Exec(INITIAL, run);
    TrackedOverRuns(INITIAL, run, u);
    assert run[..|run|] == run;
    forall s ensures s in SocketsIn(end, u, Leaked) <==> DisconnectedFirst(run, |run|, s, u) {
      PhaseAfterEarlyClose(run, |run|, s, u);
    }
  }

  /** A tab closed before its connect handler ran: the user is announced offline, then online, and stays
      online with no socket open. */
  lemma EarlyDisconnectLeaks(u: UserId, s: SocketId)
    ensures var end := Exec(INITIAL, [Arrive(s, u), Disconnect(s), Connect(s)]);
            && end.sockets == map[s := Socket(u, Leaked)] && end.active == map[u := {s}]
            && end.announced == [Announcement(u, false), Announcement(u, true)]
  {
    var run := [Arrive(s, u), Disconnect(s), Connect(s)];
    assert run[1..] == [Disconnect(s), Connect(s)] && run[1..][1..] == [Connect(s)] && run[1..][1..][1..] == [];
    var st1 := Next(INITIAL, run[0]);
    var st2 := Next(st1, run[1]);
    assert st2.active == map[] && st2.announced == [Announcement(u, false)];
    assert {} + {s} == {s};
    assert Next(st2, run[2]).active == map[u := {s}];
    assert Exec(st2, [Connect(s)]) == Next(st2, Connect(s));
    assert Exec(st1, run[1..]) == Exec(st2, run[1..][1..]);
  }

  // ---------- Broadcasts ----------

  /** The user's own announcements: true for online. */
  function Log(announced: seq<Announcement>, u: UserId): seq<bool> {
    if announced == [] then [] else
      var n := |announced| - 1;
      var log := Log(announced[..n], u);
      if announced[n].user == u then log + [announced[n].online] else log
  }

  lemma LogAppend(announced: seq<Announcement>, a: Announcement, u: UserId)
    ensures Log(announced + [a], u) == if a.user == u then Log(announced, u) + [a.online] else Log(announced, u)
  {
  }

  /** The last broadcast, the stored status and `isUserOnline` agree; before the first broadcast, offline. */
  ghost predicate Agrees(st: State, u: UserId) {
    var log := Log(st.announced, u);
    if log == [] then u !in st.stored && !IsOnline(st.active, u)
    else u in st.stored && st.stored[u] == IsOnline(st.active, u) == log[|log| - 1]
  }

  /** The transition a handler makes on the map, if it makes one. */
  function Transition(st: State, step: Step): Option<Announcement> {
    match step
    case Arrive(_, _) => None
    case Connect(s) =>
      if s in st.sockets && (st.sockets[s].phase == Connecting || st.sockets[s].phase == ClosedEarly) &&
         Tracked(st.active, st.sockets[s].user) == {}
      then Some(Announcement(st.sockets[s].user, true)) else None
    case Disconnect(s) =>
      if s in st.sockets && (st.sockets[s].phase == Connecting || st.sockets[s].phase == Registered) &&
         Tracked(st.active, st.sockets[s].user) - {s} == {}
      then Some(Announcement(st.sockets[s].user, false)) else None
  }

  /** A handler announces its transition and nothing else, and afterwards its user is online iff it said so. */
  lemma NextTransition(st: State, step: Step)
    ensures var st' := Next(st, step);
            match Transition(st, step)
            case None => st'.announced == st.announced && st'.stored == st.stored
            case Some(a) => st'.announced == st.announced + [a] && st'.stored == st.stored[a.user := a.online]
    ensures forall u :: IsOnline(Next(st, step).active, u) == OnlineAfter(st, Transition(st, step), u)
  {
  }

  predicate OnlineAfter(st: State, transition: Option<Announcement>, u: UserId) {
    if transition.Some? && transition.value.user == u then transition.value.online else IsOnline(st.active, u)
  }

  lemma NextAgrees(st: State, step: Step, u: UserId)
    requires Agrees(st, u)
    ensures Agrees(Next(st, step), u)
  {
    NextTransition(st, step);
    if Transition(st, step).Some? {
      LogAppend(st.announced, Transition(st, step).value, u);
    }
    assert IsOnline(Next(st, step).active, u) == OnlineAfter(st, Transition(st, step), u);
  }

  /** Over every order of whole handlers, for any number of sockets, the three views of a user agree after
      every step, even when a disconnect overtakes its own connect. */
  lemma {:induction false} ViewsAgree(st: State, run: seq<Step>, u: UserId)
    requires Agrees(st, u)
    ensures Agrees(Exec(st, run), u)
    decreases |run|
  {
    if run != [] {
      NextAgrees(st, run[0], u);
      ViewsAgree(Next(st, run[0]), run[1..], u);
    }
  }

  ghost predicate Alternates(log: seq<bool>) {
    forall i :: 0 <= i < |log| ==> log[i] == (i % 2 == 0)
  }

  /** A disconnect handler finds no connection of the user to remove: it reports a last connection all the
      same, and announces offline once more. */
  predicate Spurious(st: State, step: Step, u: UserId) {
    step.Disconnect? && step.socket in st.sockets && st.sockets[step.socket] == Socket(u, Connecting) &&
        Tracked(st.active, u) == {}
  }

  predicate SpuriousFree(st: State, run: seq<Step>, u: UserId)
    decreases |run|
  {
    run == [] || (!Spurious(st, run[0], u) && SpuriousFree(Next(st, run[0]), run[1..], u))
  }

  lemma TransitionFlips(st: State, step: Step, u: UserId)
    requires TracksExactly(st)
    ensures Spurious(st, step, u) ==> Transition(st, step) == Some(Announcement(u, false)) && !IsOnline(st.active, u)
    ensures Transition(st, step).Some? && Transition(st, step).value.user == u && !Spurious(st, step, u) ==>
              Transition(st, step).value.online == !IsOnline(st.active, u)
  {
    assert TracksUser(st, u);
    if step.Disconnect? && step.socket in st.sockets && st.sockets[step.socket].user == u {
      if st.sockets[step.socket].phase == Registered {
        assert step.socket in SocketsIn(st, u, Registered);
      } else if st.sockets[step.socket].phase == Connecting {
        assert Tracked(st.active, u) - {step.socket} == Tracked(st.active, u);
      }
    }
  }

  lemma NextAlternates(st: State, step: Step, u: UserId)
    requires TracksExactly(st) && Agrees(st, u)
    ensures Alternates(Log(Next(st, step).announced, u)) <==> Alternates(Log(st.announced, u)) && !Spurious(st, step, u)
  {
    NextTransition(st, step);
    TransitionFlips(st, step, u);
    if Transition(st, step).Some? {
      var a := Transition(st, step).value;
      LogAppend(st.announced, a, u);
      AlternatesAppend(Log(st.announced, u), a.online);
    }
  }

  /** Appending keeps an alternating log alternating iff the new entry differs from the last one (and the
      first entry is online). */
  lemma AlternatesAppend(log: seq<bool>, online: bool)
    ensures Alternates(log + [online]) <==> Alternates(log) && online == (log == [] || !log[|log| - 1])
  {
    if Alternates(log + [online]) {
      assert forall i :: 0 <= i < |log| ==> log[i] == (log + [online])[i];
      assert (log + [online])[|log|] == online;
    }
  }

  /** A user's broadcasts alternate, starting with online, exactly when no disconnect ran while the user had
      nothing tracked. */
  lemma {:induction false} BroadcastsAlternateIff(st: State, run: seq<Step>, u: UserId)
    requires TracksExactly(st) && Agrees(st, u)
    ensures Alternates(Log(Exec(st, run).announced, u)) <==>
        Alternates(Log(st.announced, u)) && SpuriousFree(st, run, u)
    decreases |run|
  {
    if run != [] {
      NextTracks(st, run[0]);
      NextAgrees(st, run[0], u);
      NextAlternates(st, run[0], u);
      BroadcastsAlternateIff(Next(st, run[0]), run[1..], u);
    }
  }

  /** No disconnect handler runs before its socket's own connect handler. */
  predicate RegistersFirst(st: State, run: seq<Step>)
    decreases |run|
  {
    run == [] ||
    (!(run[0].Disconnect? && run[0].socket in st.sockets && st.sockets[run[0].socket].phase == Connecting) &&
     RegistersFirst(Next(st, run[0]), run[1..]))
  }

  lemma {:induction false} RegistersFirstIsSpuriousFree(st: State, run: seq<Step>, u: UserId)
    requires RegistersFirst(st, run)
    ensures SpuriousFree(st, run, u)
    decreases |run|
  {
    if run != [] {
      RegistersFirstIsSpuriousFree(Next(st, run[0]), run[1..], u);
    }
  }

  /** When every socket registers before it disconnects, each user's broadcasts strictly alternate online and
      offline, starting with online, and agree with the stored status and `isUserOnline`, for any number of tabs. */
  lemma PresenceAlternates(run: seq<Step>, u: UserId)
    requires RegistersFirst(INITIAL, run)
    ensures var end := Exec(INITIAL, run);
            Alternates(Log(end.announced, u)) && Agrees(end, u) && TracksExactly(end)
  {
    RegistersFirstIsSpuriousFree(INITIAL, run, u);
    BroadcastsAlternateIff(INITIAL, run, u);
    ViewsAgree(INITIAL, run, u);
    TrackedOverRuns(INITIAL, run, u);
  }

  // ---------- One step per `await` inside the handlers ----------

  /** A handler that has changed the map and still has to write the status (unless written) and broadcast. */
  datatype Task = Task(what: Announcement, written: bool)

  /** `core` is what whole handlers would have done so far, with the transitions in the order in which they
      happened on the map; the tasks' writes and broadcasts land later, in any order. */
  datatype SplitState = SplitState(core: State, tasks: seq<Task>, stored: map<UserId, bool>, emitted: seq<Announcement>)

  const SPLIT_INITIAL := SplitState(INITIAL, [], map[], [])

  datatype SplitStep = OnMap(step: Step) | Write(task: nat) | Emit(task: nat)

  function SplitNext(st: SplitState, step: SplitStep): SplitState {
    match step
    case OnMap(handler) => (
      match Transition(st.core, handler)
      case None => st.(core := Next(st.core, handler))
      case Some(a) => st.(core := Next(st.core, handler), tasks := st.tasks + [Task(a, false)]))
    case Write(k) =>
      if k < |st.tasks| && !st.tasks[k].written then
        var what := st.tasks[k].what;
        st.(stored := st.stored[what.user := what.online], tasks := st.tasks[k := Task(what, true)])
      else st
    case Emit(k) =>
      if k < |st.tasks| && st.tasks[k].written then
        st.(emitted := st.emitted + [st.tasks[k].what], tasks := st.tasks[..k] + st.tasks[k + 1..])
      else st
  }

  function SplitExec(st: SplitState, run: seq<SplitStep>): SplitState
    decreases |run|
  {
    if run == [] then st else SplitExec(SplitNext(st, run[0]), run[1..])
  }

  /** The steps on the map, which whole handlers would have taken in the same order. */
  function OnMapSteps(run: seq<SplitStep>): seq<Step> {
    if run == [] then []
    else (if run[0].OnMap? then [run[0].step] else []) + OnMapSteps(run[1..])
  }

  function Pending(tasks: seq<Task>): multiset<Announcement> {
    if tasks == [] then multiset{} else multiset{tasks[0].what} + Pending(tasks[1..])
  }

  lemma {:induction false} PendingConcat(a: seq<Task>, b: seq<Task>)
    ensures Pending(a + b) == Pending(a) + Pending(b)
  {
    if a == [] {
      assert a + b == b;
    } else {
      assert (a + b)[1..] == a[1..] + b;
      PendingConcat(a[1..], b);
    }
  }

  lemma PendingSplit(tasks: seq<Task>, k: nat, task: Task)
    requires k < |tasks| && task.what == tasks[k].what
    ensures Pending(tasks[k := task]) == Pending(tasks)
    ensures Pending(tasks) == Pending(tasks[..k] + tasks[k + 1..]) + multiset{tasks[k].what}
  {
    assert tasks == tasks[..k] + ([tasks[k]] + tasks[k + 1..]);
    assert tasks[k := task] == tasks[..k] + ([task] + tasks[k + 1..]);
    PendingConcat(tasks[..k], [tasks[k]] + tasks[k + 1..]);
    PendingConcat(tasks[..k], [task] + tasks[k + 1..]);
    PendingConcat(tasks[..k], tasks[k + 1..]);
    assert ([tasks[k]] + tasks[k + 1..])[1..] == tasks[k + 1..] == ([task] + tasks[k + 1..])[1..];
  }

  /** Every transition is announced exactly once: already broadcast, or still pending. */
  ghost predicate Conserved(st: SplitState) {
    multiset(st.emitted) + Pending(st.tasks) == multiset(st.core.announced)
  }

  lemma MapStepConserved(st: SplitState, step: Step)
    requires Conserved(st)
    ensures Conserved(SplitNext(st, OnMap(step)))
  {
    NextTransition(st.core, step);
    if Transition(st.core, step).Some? {
      var a := Transition(st.core, step).value;
      PendingConcat(st.tasks, [Task(a, false)]);
      PendingOne(Task(a, false));
    }
  }

  lemma PendingOne(task: Task)
    ensures Pending([task]) == multiset{task.what}
  {
  }

  lemma WriteConserved(st: SplitState, k: nat)
    requires Conserved(st)
    ensures Conserved(SplitNext(st, Write(k)))
  {
    if k < |st.tasks| {
      PendingSplit(st.tasks, k, Task(st.tasks[k].what, true));
    }
  }

  lemma EmitConserved(st: SplitState, k: nat)
    requires Conserved(st)
    ensures Conserved(SplitNext(st, Emit(k)))
  {
    if k < |st.tasks| && st.tasks[k].written {
      var what := st.tasks[k].what;
      PendingSplit(st.tasks, k, st.tasks[k]);
      EmittedAppend(st.emitted, what);
    }
  }

  lemma EmittedAppend(emitted: seq<Announcement>, what: Announcement)
    ensures multiset(emitted + [what]) == multiset(emitted) + multiset{what}
  {
  }

  lemma NextConserved(st: SplitState, step: SplitStep)
    requires Conserved(st)
    ensures Conserved(SplitNext(st, step))
  {
    match step
    case OnMap(handler) => MapStepConserved(st, handler);
    case Write(k) => WriteConserved(st, k);
    case Emit(k) => EmitConserved(st, k);
  }

  /** Over every interleaving at the `await`s, the broadcasts made and pending are together exactly the
      transitions that happened on the map. */
  lemma {:induction false} SplitConserves(st: SplitState, run: seq<SplitStep>)
    requires Conserved(st)
    ensures Conserved(SplitExec(st, run))
    decreases |run|
  {
    if run != [] {
      NextConserved(st, run[0]);
      SplitConserves(SplitNext(st, run[0]), run[1..]);
    }
  }

  lemma CoreStep(st: SplitState, step: SplitStep)
    ensures SplitNext(st, step).core == if step.OnMap? then Next(st.core, step.step) else st.core
  {
  }

  /** Over every interleaving at the `await`s, the map goes through the states of whole handlers run in the
      order of their map steps. */
  lemma {:induction false} SplitRefinesHandlers(st: SplitState, run: seq<SplitStep>)
    ensures SplitExec(st, run).core == Exec(st.core, OnMapSteps(run))
    decreases |run|
  {
    if run != [] {
      CoreStep(st, run[0]);
      var rest := OnMapSteps(run[1..]);
      SplitRefinesHandlers(SplitNext(st, run[0]), run[1..]);
      if run[0].OnMap? {
        assert OnMapSteps(run) == [run[0].step] + rest;
        assert ([run[0].step] + rest)[1..] == rest;
      } else {
        assert OnMapSteps(run) == [] + rest == rest;
      }
    }
  }

  function Bit(b: bool): nat {
    if b then 1 else 0
  }

  lemma {:induction false} LogCounts(announced: seq<Announcement>, u: UserId)
    requires Alternates(Log(announced, u))
    ensures var log := Log(announced, u);
            multiset(announced)[Announcement(u, true)] ==
              multiset(announced)[Announcement(u, false)] + Bit(log != [] && log[|log| - 1])
  {
    if announced != [] {
      var n := |announced| - 1;
      assert announced == announced[..n] + [announced[n]];
      var log := Log(announced[..n], u);
      if announced[n].user == u {
        AlternatesAppend(log, announced[n].online);
      }
      LogCounts(announced[..n], u);
    }
  }

  /** When all handlers have finished, whatever the order of their writes and broadcasts, a user for whom
      every socket registered before it disconnected has been announced online exactly once more than offline
      if `isUserOnline` holds, and equally often otherwise. */
  lemma {:induction false} QuiescentBalance(run: seq<SplitStep>, u: UserId)
    requires RegistersFirst(INITIAL, OnMapSteps(run))
    requires SplitExec(SPLIT_INITIAL, run).tasks == []
    ensures var end := SplitExec(SPLIT_INITIAL, run);
            multiset(end.emitted)[Announcement(u, true)] ==
              multiset(end.emitted)[Announcement(u, false)] + Bit(IsOnline(end.core.active, u))
  {
    SplitRefinesHandlers(SPLIT_INITIAL, run);
    SplitConserves(SPLIT_INITIAL, run);
    PresenceAlternates(OnMapSteps(run), u);
    LogCounts(Exec(INITIAL, OnMapSteps(run)).announced, u);
  }

  /** The order is not kept: a tab opened and closed at once can leave its user stored and last announced as
      online, with no connection left and no handler in flight. */
  lemma LateOnlineWins(u: UserId, s: SocketId) returns (run: seq<SplitStep>)
    ensures RegistersFirst(INITIAL, OnMapSteps(run))
    ensures var end := SplitExec(SPLIT_INITIAL, run);
            && end.tasks == [] && !IsOnline(end.core.active, u)
            && end.stored == map[u := true]
            && end.emitted == [Announcement(u, false), Announcement(u, true)]
  {
    var onMap := [OnMap(Arrive(s, u)), OnMap(Connect(s)), OnMap(Disconnect(s))];
    var late := [Write(1), Write(0), Emit(1), Emit(0)];
    run := onMap + late;
    SplitConcat(SPLIT_INITIAL, onMap, late);
    OnMapConcat(onMap, late);
    OpenThenClose(u, s);
    ThreeSteps(SPLIT_INITIAL, onMap[0], onMap[1], onMap[2]);
    FourSteps(SPLIT_INITIAL, late[0], late[1], late[2], late[3]);
    LateWrites(SplitExec(SPLIT_INITIAL, onMap), u);
    assert OnMapSteps(run) == [Arrive(s, u), Connect(s), Disconnect(s)];
  }

  lemma {:induction false} SplitConcat(st: SplitState, run: seq<SplitStep>, more: seq<SplitStep>)
    ensures SplitExec(st, run + more) == SplitExec(SplitExec(st, run), more)
    decreases |run|
  {
    if run == [] {
      assert run + more == more;
    } else {
      assert (run + more)[1..] == run[1..] + more;
      SplitConcat(SplitNext(st, run[0]), run[1..], more);
    }
  }

  lemma {:induction false} OnMapConcat(run: seq<SplitStep>, more: seq<SplitStep>)
    ensures OnMapSteps(run + more) == OnMapSteps(run) + OnMapSteps(more)
  {
    if run == [] {
      assert run + more == more;
    } else {
      assert (run + more)[1..] == run[1..] + more;
      OnMapConcat(run[1..], more);
      var first := if run[0].OnMap? then [run[0].step] else [];
      assert first + (OnMapSteps(run[1..]) + OnMapSteps(more)) == (first + OnMapSteps(run[1..])) + OnMapSteps(more);
    }
  }

  lemma OneStep(st: SplitState, a: SplitStep)
    ensures SplitExec(st, [a]) == SplitNext(st, a)
    ensures OnMapSteps([a]) == if a.OnMap? then [a.step] else []
  {
  }

  lemma TwoSteps(st: SplitState, a: SplitStep, b: SplitStep)
    ensures SplitExec(st, [a, b]) == SplitNext(SplitNext(st, a), b)
    ensures OnMapSteps([a, b]) == OnMapSteps([a]) + OnMapSteps([b])
  {
    assert [a, b] == [a] + [b];
    OneStep(st, a);
    OneStep(SplitNext(st, a), b);
    SplitConcat(st, [a], [b]);
    OnMapConcat([a], [b]);
  }

  lemma ThreeSteps(st: SplitState, a: SplitStep, b: SplitStep, c: SplitStep)
    ensures SplitExec(st, [a, b, c]) == SplitNext(SplitNext(SplitNext(st, a), b), c)
    ensures a.OnMap? && b.OnMap? && c.OnMap? ==> OnMapSteps([a, b, c]) == [a.step, b.step, c.step]
  {
    assert [a, b, c] == [a, b] + [c];
    OneStep(st, a);
    OneStep(st, b);
    TwoSteps(st, a, b);
    OneStep(SplitExec(st, [a, b]), c);
    SplitConcat(st, [a, b], [c]);
    OnMapConcat([a, b], [c]);
  }

  lemma FourSteps(st: SplitState, a: SplitStep, b: SplitStep, c: SplitStep, d: SplitStep)
    ensures SplitExec(st, [a, b, c, d]) == SplitNext(SplitNext(SplitNext(SplitNext(st, a), b), c), d)
    ensures !a.OnMap? && !b.OnMap? && !c.OnMap? && !d.OnMap? ==> OnMapSteps([a, b, c, d]) == []
  {
    assert [a, b, c, d] == [a, b] + [c, d];
    OneStep(st, a);
    OneStep(st, b);
    OneStep(st, c);
    OneStep(st, d);
    TwoSteps(st, a, b);
    TwoSteps(SplitExec(st, [a, b]), c, d);
    SplitConcat(st, [a, b], [c, d]);
    OnMapConcat([a, b], [c, d]);
  }

  function BothPending(core: State, u: UserId): SplitState {
    SplitState(core, [Task(Announcement(u, true), false), Task(Announcement(u, false), false)], map[], [])
  }

  lemma OpenThenClose(u: UserId, s: SocketId)
    ensures var connected := SplitNext(SplitNext(SPLIT_INITIAL, OnMap(Arrive(s, u))), OnMap(Connect(s)));
            var end := SplitNext(connected, OnMap(Disconnect(s)));
            end == BothPending(end.core, u) && !IsOnline(end.core.active, u)
    ensures RegistersFirst(INITIAL, [Arrive(s, u), Connect(s), Disconnect(s)])
  {
    var arrived := Next(INITIAL, Arrive(s, u));
    var tracked := Next(arrived, Connect(s));
    assert Tracked(arrived.active, u) == {};
    assert tracked.sockets[s] == Socket(u, Registered);
    assert Tracked(tracked.active, u) - {s} == {};
    NextTransition(tracked, Disconnect(s));
    assert OnlineAfter(tracked, Transition(tracked, Disconnect(s)), u) == false;
    assert IsOnline(Next(tracked, Disconnect(s)).active, u) == false;
    assert [Arrive(s, u), Connect(s), Disconnect(s)][1..] == [Connect(s), Disconnect(s)];
    assert [Connect(s), Disconnect(s)][1..] == [Disconnect(s)];
    assert [Disconnect(s)][1..] == [];
    assert RegistersFirst(tracked, [Disconnect(s)]);
    assert RegistersFirst(arrived, [Connect(s), Disconnect(s)]);
  }

  lemma LateWrites(st: SplitState, u: UserId)
    requires st == BothPending(st.core, u)
    ensures SplitExec(st, [Write(1), Write(0), Emit(1), Emit(0)]) ==
              SplitState(st.core, [], map[u := true], [Announcement(u, false), Announcement(u, true)])
  {
    FourSteps(st, Write(1), Write(0), Emit(1), Emit(0));
    var s2 := SplitNext(SplitNext(st, Write(1)), Write(0));
    assert s2.tasks == [Task(Announcement(u, true), true), Task(Announcement(u, false), true)];
    var s3 := SplitNext(s2, Emit(1));
    assert s3.tasks == [Task(Announcement(u, true), true)];
    assert SplitNext(s3, Emit(0)).tasks == [];
  }

  /** A handler whose steps follow each other stores and broadcasts what a whole handler does. */
  lemma LoneHandlerIsWhole(st: SplitState, step: Step)
    requires st.tasks == [] && st.stored == st.core.stored && st.emitted == st.core.announced
    ensures var end := SplitNext(SplitNext(SplitNext(st, OnMap(step)), Write(0)), Emit(0));
            && end.core == Next(st.core, step) && end.tasks == []
            && end.stored == end.core.stored && end.emitted == end.core.announced
  {
    NextTransition(st.core, step);
    if Transition(st.core, step).Some? {
      var s1 := SplitNext(st, OnMap(step));
      assert s1.tasks == [Task(Transition(st.core, step).value, false)];
      var s2 := SplitNext(s1, Write(0));
      assert s2.tasks == [Task(Transition(st.core, step).value, true)];
      assert SplitNext(s2, Emit(0)).tasks == [] + [];
    }
  }

  // ---------- When the stored status can be trusted ----------

  ghost predicate Finishing(run: seq<SplitStep>) {
    forall i :: 0 <= i < |run| ==> !run[i].OnMap?
  }

  /** However the handlers now in flight finish, the stored status ends up as `isUserOnline`. */
  ghost predicate EndsRight(st: SplitState, u: UserId) {
    forall run :: Finishing(run) && SplitExec(st, run).tasks == [] ==> StoredRight(SplitExec(st, run), u)
  }

  predicate StoredRight(st: SplitState, u: UserId) {
    StoredOnline(st.stored, u) == IsOnline(st.core.active, u)
  }

  /** A user's status is offline until it is first written. */
  predicate StoredOnline(stored: map<UserId, bool>, u: UserId) {
    u in stored && stored[u]
  }

  predicate Unwritten(task: Task, u: UserId) {
    !task.written && task.what.user == u
  }

  predicate WillWrite(task: Task, u: UserId, online: bool) {
    Unwritten(task, u) && task.what.online == online
  }

  /** No write of the other status is under way, and the right one is stored or under way. */
  ghost predicate WritesSafe(st: SplitState, u: UserId) {
    && (forall k :: 0 <= k < |st.tasks| ==> !WillWrite(st.tasks[k], u, !IsOnline(st.core.active, u)))
    && (StoredRight(st, u) || SomeUnwritten(st, u))
  }

  ghost predicate SomeUnwritten(st: SplitState, u: UserId) {
    exists k :: 0 <= k < |st.tasks| && Unwritten(st.tasks[k], u)
  }

  lemma FinishingStepSafe(st: SplitState, step: SplitStep, u: UserId)
    requires WritesSafe(st, u) && !step.OnMap?
    ensures WritesSafe(SplitNext(st, step), u)
  {
    var st' := SplitNext(st, step);
    if j :| 0 <= j < |st.tasks| && Unwritten(st.tasks[j], u) && !StoredRight(st, u) {
      match step
      case Write(k) =>
        if k < |st.tasks| && !st.tasks[k].written && k != j {
          assert Unwritten(st'.tasks[j], u);
        }
      case Emit(k) =>
        if k < |st.tasks| && st.tasks[k].written {
          assert st'.tasks[if j < k then j else j - 1] == st.tasks[j];
        }
    }
  }

  lemma {:induction false} FinishingRunSafe(st: SplitState, run: seq<SplitStep>, u: UserId)
    requires WritesSafe(st, u) && Finishing(run)
    ensures WritesSafe(SplitExec(st, run), u)
    decreases |run|
  {
    if run != [] {
      FinishingStepSafe(st, run[0], u);
      FinishingRunSafe(SplitNext(st, run[0]), run[1..], u);
    }
  }

  /** The handlers in flight can finish with task `last` writing and broadcasting after all others. */
  lemma {:induction false} FinishWithLast(st: SplitState, last: nat) returns (run: seq<SplitStep>)
    requires last < |st.tasks|
    ensures Finishing(run) && SplitExec(st, run).tasks == [] && SplitExec(st, run).core == st.core
    ensures var (end, what) := (SplitExec(st, run), st.tasks[last].what);
            && (!st.tasks[last].written ==> StoredOnline(end.stored, what.user) == what.online)
            && LastSaid(end.emitted, what.user) == what.online
    ensures forall u :: !SomeUnwritten(st, u) ==>
        StoredOnline(SplitExec(st, run).stored, u) == StoredOnline(st.stored, u)
    ensures forall u :: !SomePending(st, u) ==> LastSaid(SplitExec(st, run).emitted, u) == LastSaid(st.emitted, u)
    decreases |st.tasks|
  {
    var k := if |st.tasks| == 1 || last != 0 then 0 else 1;
    var s2 := SplitNext(SplitNext(st, Write(k)), Emit(k));
    FinishTask(st, k);
    TwoSteps(st, Write(k), Emit(k));
    if |st.tasks| == 1 {
      run := [Write(k), Emit(k)];
    } else {
      var left := if last == 0 then 0 else last - 1;
      assert s2.tasks[left] == st.tasks[last];
      var rest := FinishWithLast(s2, left);
      run := [Write(k), Emit(k)] + rest;
      SplitConcat(st, [Write(k), Emit(k)], rest);
    }
  }

  lemma FinishTask(st: SplitState, k: nat)
    requires k < |st.tasks|
    ensures var st' := SplitNext(SplitNext(st, Write(k)), Emit(k));
            var what := st.tasks[k].what;
            && st'.core == st.core && st'.tasks == st.tasks[..k] + st.tasks[k + 1..]
            && (forall u :: StoredOnline(st'.stored, u) ==
                              if Unwritten(st.tasks[k], u) then what.online else StoredOnline(st.stored, u))
            && (forall u :: LastSaid(st'.emitted, u) == if what.user == u then what.online else LastSaid(st.emitted, u))
            && (forall u :: SomeUnwritten(st', u) ==> SomeUnwritten(st, u))
            && (forall u :: SomePending(st', u) ==> SomePending(st, u))
  {
    var what := st.tasks[k].what;
    forall u
      ensures LastSaid(st.emitted + [what], u) == if what.user == u then what.online else LastSaid(st.emitted, u)
    {
      LogAppend(st.emitted, what, u);
    }
  }

  /** The stored status is certain to end up as `isUserOnline`, with no further transition, exactly when no
      write of the other status is still under way and the right one is stored or under way. */
  lemma StoredStatusSafeIff(st: SplitState, u: UserId)
    ensures EndsRight(st, u) <==> WritesSafe(st, u)
  {
    if WritesSafe(st, u) {
      forall run | Finishing(run) && SplitExec(st, run).tasks == [] ensures StoredRight(SplitExec(st, run), u) {
        FinishingRunSafe(st, run, u);
      }
    } else {
      var run: seq<SplitStep>;
      if k :| 0 <= k < |st.tasks| && WillWrite(st.tasks[k], u, !IsOnline(st.core.active, u)) {
        run := FinishWithLast(st, k);
      } else if st.tasks == [] {
        run := [];
      } else {
        run := FinishWithLast(st, 0);
      }
      assert Finishing(run) && SplitExec(st, run).tasks == [] && !StoredRight(SplitExec(st, run), u);
    }
  }

  // ---------- When the last broadcast can be trusted ----------

  /** What clients show of u: the last broadcast, or offline before the first. */
  ghost predicate LastSaid(emitted: seq<Announcement>, u: UserId) {
    var log := Log(emitted, u);
    log != [] && log[|log| - 1]
  }

  /** However the handlers now in flight finish, the last broadcast about u is what `isUserOnline` says. */
  ghost predicate EndsSaidRight(st: SplitState, u: UserId) {
    forall run :: Finishing(run) && SplitExec(st, run).tasks == [] ==> SaidRight(SplitExec(st, run), u)
  }

  ghost predicate SaidRight(st: SplitState, u: UserId) {
    LastSaid(st.emitted, u) == IsOnline(st.core.active, u)
  }

  ghost predicate SomePending(st: SplitState, u: UserId) {
    exists k :: 0 <= k < |st.tasks| && PendingFor(st.tasks[k], u)
  }

  predicate PendingFor(task: Task, u: UserId) {
    task.what.user == u
  }

  predicate WillSay(task: Task, u: UserId, online: bool) {
    PendingFor(task, u) && task.what.online == online
  }

  /** Every pending broadcast about u, its status written or not, says what `isUserOnline` says, and the right
      thing has been said last or is pending. */
  ghost predicate BroadcastsSafe(st: SplitState, u: UserId) {
    && (forall k :: 0 <= k < |st.tasks| ==> !WillSay(st.tasks[k], u, !IsOnline(st.core.active, u)))
    && (SaidRight(st, u) || SomePending(st, u))
  }

  lemma FinishingStepSaysRight(st: SplitState, step: SplitStep, u: UserId)
    requires BroadcastsSafe(st, u) && !step.OnMap?
    ensures BroadcastsSafe(SplitNext(st, step), u)
  {
    var st' := SplitNext(st, step);
    match step
    case Write(k) =>
      assert forall j :: 0 <= j < |st.tasks| ==> st'.tasks[j].what == st.tasks[j].what;
      if j :| 0 <= j < |st.tasks| && PendingFor(st.tasks[j], u) {
        assert PendingFor(st'.tasks[j], u);
      }
    case Emit(k) =>
      if k < |st.tasks| && st.tasks[k].written {
        EmitSaysRight(st, k, u);
      }
  }

  lemma EmitSaysRight(st: SplitState, k: nat, u: UserId)
    requires BroadcastsSafe(st, u) && k < |st.tasks| && st.tasks[k].written
    ensures BroadcastsSafe(SplitNext(st, Emit(k)), u)
  {
    var st' := SplitNext(st, Emit(k));
    LogAppend(st.emitted, st.tasks[k].what, u);
    assert forall j :: 0 <= j < |st'.tasks| ==> st'.tasks[j] == st.tasks[if j < k then j else j + 1];
    if !SaidRight(st', u) {
      assert !PendingFor(st.tasks[k], u);
      var j :| 0 <= j < |st.tasks| && PendingFor(st.tasks[j], u);
      assert PendingFor(st'.tasks[if j < k then j else j - 1], u);
    }
  }

  lemma {:induction false} FinishingRunSaysRight(st: SplitState, run: seq<SplitStep>, u: UserId)
    requires BroadcastsSafe(st, u) && Finishing(run)
    ensures BroadcastsSafe(SplitExec(st, run), u)
    decreases |run|
  {
    if run != [] {
      FinishingStepSaysRight(st, run[0], u);
      FinishingRunSaysRight(SplitNext(st, run[0]), run[1..], u);
    }
  }

  /** The last broadcast about a user is certain to agree with `isUserOnline`, with no further transition,
      exactly when every pending broadcast about that user says so and one is pending or the last one made
      already does. */
  lemma LastBroadcastSafeIff(st: SplitState, u: UserId)
    ensures EndsSaidRight(st, u) <==> BroadcastsSafe(st, u)
  {
    if BroadcastsSafe(st, u) {
      forall run | Finishing(run) && SplitExec(st, run).tasks == [] ensures SaidRight(SplitExec(st, run), u) {
        FinishingRunSaysRight(st, run, u);
      }
    } else {
      var run: seq<SplitStep>;
      if k :| 0 <= k < |st.tasks| && WillSay(st.tasks[k], u, !IsOnline(st.core.active, u)) {
        run := FinishWithLast(st, k);
      } else if st.tasks == [] {
        run := [];
      } else {
        run := FinishWithLast(st, 0);
      }
      assert Finishing(run) && SplitExec(st, run).tasks == [] && !SaidRight(SplitExec(st, run), u);
    }
  }
}
