/** Socket.io rooms: the join and leave handlers of src/sockets/handlers/connection.handler.ts, the automatic
    joins and presence broadcasts of src/sockets/handlers/presence.handler.ts, and the room broadcasts of the
    message and receipt handlers. A join or broadcast may land any time after the check it relies on. */
module Rooms {
  import opened Domain
  import opened SocketRateLimit
  import opened AtomicServer
  import opened ConversationService
  import opened MessageValidator
  import Runs
  import Since

  /** One emit to a conversation's room. */
  datatype Delivery = Delivery(actor: UserId, conversation: ConversationId, recipients: set<SocketId>)

  type Rooms = set<(ConversationId, SocketId)>

  /** `joining` and `announcing` hold what an earlier database answer allowed and has not happened yet; a join
      that comes after its socket has closed does nothing. */
  datatype Net = Net(world: World, sockets: map<SocketId, UserId>, closed: set<SocketId>, rooms: Rooms, joining: Rooms,
                     announcing: set<(UserId, ConversationId)>, deliveries: seq<Delivery>)

  const EMPTY_NET := Net(INITIAL, map[], {}, {}, {}, {}, [])

  datatype Step =
    | Serve(event: Event)
    | Arrive(socket: SocketId, user: UserId)
    | AutoJoin(socket: SocketId)                                  // room ids read on connect
    | CheckJoin(socket: SocketId, conversation: ConversationId)   // `conversation:join`, membership read
    | Join(socket: SocketId, conversation: ConversationId)        // `socket.join` happens
    | Leave(socket: SocketId, conversation: ConversationId)
    | Drop(socket: SocketId)                                      // disconnected: out of every room
    | PresenceRooms(user: UserId)                                 // room ids read before a presence broadcast
    | PresenceEmit(user: UserId, conversation: ConversationId)

  function InRoom(rooms: Rooms, c: ConversationId): set<SocketId> {
    set x | x in rooms && x.0 == c :: x.1
  }

  /** `getUserConversationRoomIds`. */
  function RoomIds(db: Store, u: UserId): set<ConversationId> {
    set c | c in db.conversations && u in db.conversations[c].members
  }

  function Apply(limits: Limits, net: Net, step: Step): Net {
    match step
    case Serve(e) =>
      var world := AtomicServer.Next(limits, net.world, e);
      var served := net.(world := world);
      if |world.emitted| == |net.world.emitted| then served
      else
        var c := ConversationOf(world.emitted[|world.emitted| - 1]);
        served.(deliveries := net.deliveries + [Delivery(e.user, c, InRoom(net.rooms, c))])
    case Arrive(s, u) =>
      if s in net.sockets then net else net.(sockets := net.sockets[s := u])
    case AutoJoin(s) =>
      if s !in net.sockets then net
      else net.(joining := net.joining + set c | c in RoomIds(net.world.db, net.sockets[s]) :: (c, s))
    case CheckJoin(s, c) =>
      if s !in net.sockets || !IsMember(net.world.db, c, net.sockets[s]) then net
      else net.(joining := net.joining + {(c, s)})
    case Join(s, c) =>
      if !MayJoin(net, s, c) then net else net.(rooms := net.rooms + {(c, s)}, joining := net.joining - {(c, s)})
    case Leave(s, c) => net.(rooms := net.rooms - {(c, s)})
    case Drop(s) => net.(rooms := (set x | x in net.rooms && x.1 != s), closed := net.closed + {s})
    case PresenceRooms(u) =>
      net.(announcing := net.announcing + set c | c in RoomIds(net.world.db, u) :: (u, c))
    case PresenceEmit(u, c) =>
      if (u, c) !in net.announcing then net
      else net.(announcing := net.announcing - {(u, c)},
                deliveries := net.deliveries + [Delivery(u, c, InRoom(net.rooms, c))])
  }

  predicate MayJoin(net: Net, s: SocketId, c: ConversationId) {
    (c, s) in net.joining && s !in net.closed
  }

  type Trace = Runs.Trace<Net, Step>

  function Stepping(limits: Limits): (Net, Step) -> Net {
    (net, step) => Apply(limits, net, step)
  }

  ghost predicate IsRun(limits: Limits, t: Trace) {
    Runs.IsRun(Stepping(limits), t)
  }

  lemma NextState(limits: Limits, t: Trace, k: nat)
    requires IsRun(limits, t) && k < |t.steps|
    ensures t.states[k + 1] == Apply(limits, t.states[k], t.steps[k])
  {
    assert Runs.IsStep(Stepping(limits), t, k);
  }

  ghost predicate LegalRun(limits: Limits, t: Trace) {
    IsRun(limits, t) && forall k: nat :: k < |t.steps| ==> LegalAt(t, k)
  }

  predicate LegalAt(t: Trace, k: nat)
    requires Runs.Shaped(t) && k < |t.steps|
  {
    LegalStep(t.states[k], t.steps[k])
  }

  predicate LegalStep(net: Net, step: Step) {
    step.Serve? ==> Legal(net.world, step.event)
  }

  // ---------- Safety ----------

  type Sockets = map<SocketId, UserId>

  ghost predicate MemberSocket(db: Store, sockets: Sockets, c: ConversationId, s: SocketId) {
    s in sockets && IsMember(db, c, sockets[s])
  }

  ghost predicate OnlyMembers(db: Store, sockets: Sockets, rooms: Rooms) {
    forall x :: x in rooms ==> MemberSocket(db, sockets, x.0, x.1)
  }

  /** Whoever caused the emit shares the conversation with everyone who received it. */
  ghost predicate SafeDelivery(db: Store, sockets: Sockets, d: Delivery) {
    IsMember(db, d.conversation, d.actor) && forall s :: s in d.recipients ==>
        MemberSocket(db, sockets, d.conversation, s)
  }

  ghost predicate SafeDeliveries(db: Store, sockets: Sockets, ds: seq<Delivery>) {
    forall i :: 0 <= i < |ds| ==> SafeDelivery(db, sockets, ds[i])
  }

  ghost predicate SafeAnnouncing(db: Store, announcing: set<(UserId, ConversationId)>) {
    forall x :: x in announcing ==> IsMember(db, x.1, x.0)
  }

  ghost predicate Safe(net: Net) {
    var db := net.world.db;
    && Valid(net.world)
    && OnlyMembers(db, net.sockets, net.rooms)
    && OnlyMembers(db, net.sockets, net.joining)
    && SafeAnnouncing(db, net.announcing)
    && SafeDeliveries(db, net.sockets, net.deliveries)
  }

  /** Sockets never change hands. */
  ghost predicate Keeps(sockets: Sockets, sockets': Sockets) {
    forall s :: s in sockets ==> s in sockets' && sockets'[s] == sockets[s]
  }

  /** Members are never rewritten, so a member stays one. */
  lemma MemberStays(db: Store, db': Store)
    requires Extends(db, db')
    ensures forall c, u :: IsMember(db, c, u) ==> IsMember(db', c, u)
  {
  }

  lemma RoomsStay(db: Store, db': Store, sockets: Sockets, sockets': Sockets, rooms: Rooms)
    requires Extends(db, db') && Keeps(sockets, sockets') && OnlyMembers(db, sockets, rooms)
    ensures OnlyMembers(db', sockets', rooms)
  {
  }

  lemma DeliveriesStay(db: Store, db': Store, sockets: Sockets, sockets': Sockets, ds: seq<Delivery>)
    requires Extends(db, db') && Keeps(sockets, sockets') && SafeDeliveries(db, sockets, ds)
    ensures SafeDeliveries(db', sockets', ds)
  {
  }

  lemma RoomDeliveryIsSafe(db: Store, sockets: Sockets, rooms: Rooms, actor: UserId, c: ConversationId)
    requires OnlyMembers(db, sockets, rooms) && IsMember(db, c, actor)
    ensures SafeDelivery(db, sockets, Delivery(actor, c, InRoom(rooms, c)))
  {
  }

  /** Whoever makes a handler emit is a member of the conversation it emits to. */
  lemma EmitterIsMember(limits: Limits, w: World, e: Event)
    requires Legal(w, e)
    ensures var w' := AtomicServer.Next(limits, w, e);
            |w'.emitted| == |w.emitted| ||
            (|w'.emitted| == |w.emitted| + 1 && IsMember(w.db, ConversationOf(w'.emitted[|w.emitted|]), e.user))
  {
  }

  lemma WorldStepSafe(limits: Limits, net: Net, e: Event)
    requires Safe(net) && Legal(net.world, e)
    ensures Safe(net.(world := AtomicServer.Next(limits, net.world, e)))
    ensures Extends(net.world.db, AtomicServer.Next(limits, net.world, e).db)
  {
    var db, db' := net.world.db, AtomicServer.Next(limits, net.world, e).db;
    NextValid(limits, net.world, e);
    NextExtends(limits, net.world, e);
    MemberStays(db, db');
    RoomsStay(db, db', net.sockets, net.sockets, net.rooms);
    RoomsStay(db, db', net.sockets, net.sockets, net.joining);
    DeliveriesStay(db, db', net.sockets, net.sockets, net.deliveries);
  }

  lemma ServeSafe(limits: Limits, net: Net, e: Event)
    requires Safe(net) && Legal(net.world, e)
    ensures Safe(Apply(limits, net, Serve(e)))
  {
    var world := AtomicServer.Next(limits, net.world, e);
    WorldStepSafe(limits, net, e);
    EmitterIsMember(limits, net.world, e);
    if |world.emitted| != |net.world.emitted| {
      var c := ConversationOf(world.emitted[|net.world.emitted|]);
      MemberStays(net.world.db, world.db);
      RoomDeliveryIsSafe(world.db, net.sockets, net.rooms, e.user, c);
    }
  }

  lemma SocketStepSafe(limits: Limits, net: Net, step: Step)
    requires Safe(net) && !step.Serve?
    ensures Safe(Apply(limits, net, step))
  {
    var db, net' := net.world.db, Apply(limits, net, step);
    ExtendsRefl(db);
    RoomsStay(db, db, net.sockets, net'.sockets, net.rooms);
    RoomsStay(db, db, net.sockets, net'.sockets, net.joining);
    DeliveriesStay(db, db, net.sockets, net'.sockets, net.deliveries);
    if step.PresenceEmit? && (step.user, step.conversation) in net.announcing {
      RoomDeliveryIsSafe(db, net.sockets, net.rooms, step.user, step.conversation);
    }
  }

  lemma StepSafe(limits: Limits, net: Net, step: Step)
    requires Safe(net) && LegalStep(net, step)
    ensures Safe(Apply(limits, net, step))
  {
    match step
    case Serve(e) => ServeSafe(limits, net, e);
    case _ => SocketStepSafe(limits, net, step);
  }

  /** Over every interleaving: each socket in a room, or about to join it, belongs to a member of the
      conversation; each stored message's sender is a member; and each message, receipt and presence broadcast
      was caused by a member and reached only sockets of members. */
  lemma {:induction false} RoomsStaySafe(limits: Limits, t: Trace, k: nat)
    requires LegalRun(limits, t) && Safe(t.states[0]) && k <= |t.steps|
    ensures Safe(t.states[k])
    decreases k
  {
    if k > 0 {
      RoomsStaySafe(limits, t, k - 1);
      assert LegalAt(t, k - 1);
      NextState(limits, t, k - 1);
      StepSafe(limits, t.states[k - 1], t.steps[k - 1]);
    }
  }

  lemma EmptyNetIsSafe()
    ensures Safe(EMPTY_NET)
  {
  }

  // ---------- Who hears a broadcast ----------

  predicate Exits(step: Step, s: SocketId, c: ConversationId) {
    step == Leave(s, c) || step == Drop(s)
  }

  /** A step adds at most one delivery, to those in the room; a socket is in the room afterwards if it has just
      joined, or was there and did not leave. */
  lemma StepInRoom(limits: Limits, net: Net, step: Step, s: SocketId, c: ConversationId)
    ensures var net' := Apply(limits, net, step);
            && ((c, s) in net'.rooms <==>
                  (step == Join(s, c) && MayJoin(net, s, c)) || ((c, s) in net.rooms && !Exits(step, s, c)))
            && net.deliveries <= net'.deliveries && |net'.deliveries| <= |net.deliveries| + 1
            && (|net'.deliveries| == |net.deliveries| + 1 && net'.deliveries[|net.deliveries|].conversation == c ==>
                  (s in net'.deliveries[|net.deliveries|].recipients <==> (c, s) in net.rooms))
  {
    assert s in InRoom(net.rooms, c) <==> (c, s) in net.rooms by { assert (c, s).0 == c; }
  }

  /** A socket that stays in a room hears every broadcast to it. */
  lemma {:induction false} JoinedHearsAll(limits: Limits, t: Trace, k: nat, s: SocketId, c: ConversationId)
    requires IsRun(limits, t) && (c, s) in t.states[0].rooms && k <= |t.steps|
    requires forall i :: 0 <= i < k ==> !Exits(t.steps[i], s, c)
    ensures var from, to := t.states[0].deliveries, t.states[k].deliveries;
            && (c, s) in t.states[k].rooms && from <= to
            && forall i :: |from| <= i < |to| && to[i].conversation == c ==> s in to[i].recipients
    decreases k
  {
    if k > 0 {
      JoinedHearsAll(limits, t, k - 1, s, c);
      NextState(limits, t, k - 1);
      StepInRoom(limits, t.states[k - 1], t.steps[k - 1], s, c);
    }
  }

  // ---------- Who is in a room, from the steps ----------

  /** Nothing has happened to the socket yet. */
  ghost predicate Unused(net: Net, s: SocketId) {
    && s !in net.sockets && s !in net.closed
    && forall c: ConversationId :: (c, s) !in net.rooms && (c, s) !in net.joining
  }

  predicate ArrivesAt(t: Trace, h: nat, s: SocketId) {
    h < |t.steps| && t.steps[h].Arrive? && t.steps[h].socket == s
  }

  /** The socket's first arrival before step k is for user u. */
  ghost predicate BelongsTo(t: Trace, k: nat, s: SocketId, u: UserId) {
    exists h: nat :: h < k && ArrivesFor(t, h, s, u)
  }

  ghost predicate ArrivesFor(t: Trace, h: nat, s: SocketId, u: UserId) {
    ArrivesAt(t, h, s) && t.steps[h].user == u && !ArrivedBefore(t, h, s)
  }

  ghost predicate ArrivedBefore(t: Trace, k: nat, s: SocketId) {
    exists h: nat :: h < k && ArrivesAt(t, h, s)
  }

  ghost predicate DroppedBefore(t: Trace, k: nat, s: SocketId) {
    exists d: nat :: d < k && DropsAt(t, d, s)
  }

  predicate DropsAt(t: Trace, d: nat, s: SocketId) {
    d < |t.steps| && t.steps[d] == Drop(s)
  }

  /** The step reads whether socket s may join c, on connect or on request. */
  predicate AsksToJoin(step: Step, s: SocketId, c: ConversationId) {
    step == AutoJoin(s) || step == CheckJoin(s, c)
  }

  /** Step i reads, on connect or on request, whether the socket may join, when its user is a member. */
  ghost predicate AdmittedAt(t: Trace, i: nat, s: SocketId, c: ConversationId) {
    && i < |t.steps| < |t.states| && AsksToJoin(t.steps[i], s, c)
    && exists u :: BelongsTo(t, i, s, u) && IsMember(t.states[i].world.db, c, u)
  }

  predicate JoinStepAt(t: Trace, j: nat, s: SocketId, c: ConversationId) {
    j < |t.steps| && t.steps[j] == Join(s, c)
  }

  ghost function Admitting(t: Trace, s: SocketId, c: ConversationId): nat -> bool {
    (k: nat) => AdmittedAt(t, k, s, c)
  }

  ghost function JoinSteps(t: Trace, s: SocketId, c: ConversationId): nat -> bool {
    (k: nat) => JoinStepAt(t, k, s, c)
  }

  /** The socket was admitted and no join has used that up. */
  ghost predicate Admitted(t: Trace, k: nat, s: SocketId, c: ConversationId) {
    Since.Holds(Admitting(t, s, c), JoinSteps(t, s, c), k)
  }

  /** Step k lets the socket into the room: a join for which it was admitted, before it disconnected. */
  ghost predicate JoinsAt(t: Trace, k: nat, s: SocketId, c: ConversationId) {
    JoinStepAt(t, k, s, c) && Admitted(t, k, s, c) && !DroppedBefore(t, k, s)
  }

  predicate ExitsAt(t: Trace, k: nat, s: SocketId, c: ConversationId) {
    k < |t.steps| && Exits(t.steps[k], s, c)
  }

  predicate InRoomAt(t: Trace, k: nat, s: SocketId, c: ConversationId) {
    k < |t.states| && (c, s) in t.states[k].rooms
  }

  ghost function Joins(t: Trace, s: SocketId, c: ConversationId): nat -> bool {
    (k: nat) => JoinsAt(t, k, s, c)
  }

  ghost function Exiting(t: Trace, s: SocketId, c: ConversationId): nat -> bool {
    (k: nat) => ExitsAt(t, k, s, c)
  }

  ghost function Present(t: Trace, s: SocketId, c: ConversationId): nat -> bool {
    (k: nat) => InRoomAt(t, k, s, c)
  }

  /** Some step let socket s into room c, and none from there to the k-th has taken it out again. */
  ghost predicate LetIn(t: Trace, k: nat, s: SocketId, c: ConversationId) {
    Since.Holds(Joins(t, s, c), Exiting(t, s, c), k)
  }

  lemma SocketNext(t: Trace, k: nat, s: SocketId, u: UserId)
    ensures BelongsTo(t, k + 1, s, u) <==> BelongsTo(t, k, s, u) || ArrivesFor(t, k, s, u)
    ensures DroppedBefore(t, k + 1, s) <==> DroppedBefore(t, k, s) || DropsAt(t, k, s)
    ensures ArrivedBefore(t, k + 1, s) <==> ArrivedBefore(t, k, s) || ArrivesAt(t, k, s)
  {
  }

  /** What the state holds of the socket is what its arrival and disconnect steps say. */
  ghost predicate SocketFits(t: Trace, k: nat, s: SocketId)
    requires k < |t.states|
  {
    && (s in t.states[k].sockets <==> ArrivedBefore(t, k, s))
    && (forall u :: BelongsTo(t, k, s, u) <==> s in t.states[k].sockets && t.states[k].sockets[s] == u)
    && (s in t.states[k].closed <==> DroppedBefore(t, k, s))
  }

  lemma SocketFitsNext(limits: Limits, t: Trace, k: nat, s: SocketId)
    requires IsRun(limits, t) && k < |t.steps| && SocketFits(t, k, s)
    ensures SocketFits(t, k + 1, s)
  {
    NextState(limits, t, k);
    SocketNext(t, k, s, 0);
    var n: nat, sockets := k + 1, t.states[k + 1].sockets;
    forall u ensures BelongsTo(t, n, s, u) <==> s in sockets && sockets[s] == u {
      SocketNext(t, k, s, u);
    }
  }

  lemma {:induction false} SocketsFit(limits: Limits, t: Trace, k: nat, s: SocketId)
    requires IsRun(limits, t) && Unused(t.states[0], s) && k <= |t.steps|
    ensures SocketFits(t, k, s)
    decreases k
  {
    if k > 0 {
      SocketsFit(limits, t, k - 1, s);
      SocketFitsNext(limits, t, k - 1, s);
    }
  }

  lemma StepJoins(limits: Limits, net: Net, step: Step, s: SocketId, c: ConversationId)
    requires s !in net.closed
    ensures (c, s) in Apply(limits, net, step).joining <==>
              || (AsksToJoin(step, s, c) && s in net.sockets && IsMember(net.world.db, c, net.sockets[s]))
              || ((c, s) in net.joining && step != Join(s, c))
  {
    if step == AutoJoin(s) && s in net.sockets {
      var allowed: Rooms := set d | d in RoomIds(net.world.db, net.sockets[s]) :: (d, s);
      assert (c, s) in allowed <==> c in RoomIds(net.world.db, net.sockets[s]);
    }
  }

  lemma AdmittedNext(limits: Limits, t: Trace, k: nat, s: SocketId, c: ConversationId)
    requires IsRun(limits, t) && k < |t.steps| && SocketFits(t, k, s) && !DroppedBefore(t, k, s)
    requires (c, s) in t.states[k].joining <==> Admitted(t, k, s, c)
    ensures (c, s) in t.states[k + 1].joining <==> Admitted(t, k + 1, s, c)
  {
    NextState(limits, t, k);
    StepJoins(limits, t.states[k], t.steps[k], s, c);
    Since.Next(Admitting(t, s, c), JoinSteps(t, s, c), k);
  }

  /** As long as a socket is open, the joins it still has coming are those it was admitted for. */
  lemma {:induction false} JoiningIffAdmitted(limits: Limits, t: Trace, k: nat, s: SocketId, c: ConversationId)
    requires IsRun(limits, t) && Unused(t.states[0], s) && k <= |t.steps| && !DroppedBefore(t, k, s)
    ensures (c, s) in t.states[k].joining <==> Admitted(t, k, s, c)
    decreases k
  {
    if k > 0 {
      SocketNext(t, k - 1, s, 0);
      JoiningIffAdmitted(limits, t, k - 1, s, c);
      SocketsFit(limits, t, k - 1, s);
      AdmittedNext(limits, t, k - 1, s, c);
    }
  }

  lemma MayJoinIff(limits: Limits, t: Trace, k: nat, s: SocketId, c: ConversationId)
    requires IsRun(limits, t) && Unused(t.states[0], s) && k < |t.steps|
    ensures t.steps[k] == Join(s, c) && MayJoin(t.states[k], s, c) <==> JoinsAt(t, k, s, c)
  {
    SocketsFit(limits, t, k, s);
    if !DroppedBefore(t, k, s) {
      JoiningIffAdmitted(limits, t, k, s, c);
    }
  }

  lemma InRoomNext(limits: Limits, t: Trace, k: nat, s: SocketId, c: ConversationId)
    requires IsRun(limits, t) && Unused(t.states[0], s) && k < |t.steps|
    ensures InRoomAt(t, k + 1, s, c) <==> JoinsAt(t, k, s, c) || (InRoomAt(t, k, s, c) && !ExitsAt(t, k, s, c))
  {
    NextState(limits, t, k);
    MayJoinIff(limits, t, k, s, c);
    StepInRoom(limits, t.states[k], t.steps[k], s, c);
  }

  /** Over every interleaving, a socket is in a room exactly when it joined, while connected and after its user was
      found to be a member, and has neither left nor disconnected since. */
  lemma InRoomIff(limits: Limits, t: Trace, k: nat, s: SocketId, c: ConversationId)
    requires IsRun(limits, t) && Unused(t.states[0], s) && k <= |t.steps|
    ensures (c, s) in t.states[k].rooms <==> LetIn(t, k, s, c)
  {
    var present, joins, exits := Present(t, s, c), Joins(t, s, c), Exiting(t, s, c);
    forall i: nat | i < k ensures present(i + 1) <==> joins(i) || (present(i) && !exits(i)) {
      InRoomNext(limits, t, i, s, c);
    }
    Since.Tracks(present, joins, exits, k);
  }

  /** An open socket whose user was found to be a member is in the room once its join has happened. */
  lemma MemberGetsIn(limits: Limits, t: Trace, i: nat, j: nat, s: SocketId, u: UserId, c: ConversationId)
    requires IsRun(limits, t) && Unused(t.states[0], s) && i < j < |t.steps|
    requires BelongsTo(t, i, s, u) && AsksToJoin(t.steps[i], s, c) && IsMember(t.states[i].world.db, c, u)
    requires t.steps[j] == Join(s, c) && forall d: nat :: i < d < j ==> t.steps[d] != Join(s, c)
    requires !DroppedBefore(t, j, s)
    ensures (c, s) in t.states[j + 1].rooms
  {
    assert AdmittedAt(t, i, s, c);
    assert Since.HoldsFrom(Admitting(t, s, c), JoinSteps(t, s, c), i, j);
    InRoomNext(limits, t, j, s, c);
  }

  // ---------- Who hears a broadcast ----------

  /** Step k broadcasts to room c. */
  predicate BroadcastsTo(t: Trace, k: nat, c: ConversationId)
    requires Runs.Shaped(t) && k < |t.steps|
  {
    var n, after := |t.states[k].deliveries|, t.states[k + 1].deliveries;
    |after| > n && after[n].conversation == c
  }

  /** A broadcast reaches a socket exactly when it was let into the room before and has neither left nor
      disconnected since; being a member's is not enough. */
  lemma HeardIff(limits: Limits, t: Trace, k: nat, s: SocketId, c: ConversationId)
    requires IsRun(limits, t) && Unused(t.states[0], s) && k < |t.steps| && BroadcastsTo(t, k, c)
    ensures s in t.states[k + 1].deliveries[|t.states[k].deliveries|].recipients <==> LetIn(t, k, s, c)
  {
    InRoomIff(limits, t, k, s, c);
    NextState(limits, t, k);
    StepInRoom(limits, t.states[k], t.steps[k], s, c);
  }

  /** One more delivery, caused by the given user, to the room of c as it is. */
  ghost predicate DeliversOnce(net: Net, net': Net, actor: UserId, c: ConversationId) {
    |net'.deliveries| == |net.deliveries| + 1 && net.deliveries <= net'.deliveries &&
    var d := net'.deliveries[|net.deliveries|];
    d.actor == actor && d.conversation == c && forall s :: s in d.recipients <==> (c, s) in net.rooms
  }

  /** A handler's broadcast goes out to the room of its conversation; a handler that emits nothing reaches nobody. */
  lemma BroadcastsAreDelivered(limits: Limits, net: Net, e: Event)
    requires Legal(net.world, e)
    ensures var (net', n) := (Apply(limits, net, Serve(e)), |net.world.emitted|);
            if net'.world.emitted == net.world.emitted then net'.deliveries == net.deliveries
            else
              && |net'.world.emitted| == n + 1
              && DeliversOnce(net, net', e.user, ConversationOf(net'.world.emitted[n]))
  {
    NextAnswers(limits, net.world, e);
    var net' := Apply(limits, net, Serve(e));
    if net'.world.emitted != net.world.emitted {
      RoomMembers(net.rooms, ConversationOf(net'.world.emitted[|net.world.emitted|]));
    }
  }

  lemma RoomMembers(rooms: Rooms, c: ConversationId)
    ensures forall s :: s in InRoom(rooms, c) <==> (c, s) in rooms
  {
    forall s ensures s in InRoom(rooms, c) <==> (c, s) in rooms {
      assert (c, s).0 == c;
    }
  }

  lemma StepAnnouncing(limits: Limits, net: Net, step: Step, u: UserId, c: ConversationId)
    ensures (u, c) in Apply(limits, net, step).announcing <==>
              || (step == PresenceRooms(u) && IsMember(net.world.db, c, u))
              || ((u, c) in net.announcing && step != PresenceEmit(u, c))
  {
    if step == PresenceRooms(u) {
      var found: set<(UserId, ConversationId)> := set d | d in RoomIds(net.world.db, u) :: (u, d);
      assert (u, c) in found <==> c in RoomIds(net.world.db, u);
    }
  }

  lemma {:induction false} AnnouncingLasts(limits: Limits, t: Trace, i: nat, k: nat, u: UserId, c: ConversationId)
    requires IsRun(limits, t) && i < k <= |t.steps|
    requires t.steps[i] == PresenceRooms(u) && IsMember(t.states[i].world.db, c, u)
    requires forall d: nat :: i < d < k ==> t.steps[d] != PresenceEmit(u, c)
    ensures (u, c) in t.states[k].announcing
    decreases k
  {
    NextState(limits, t, k - 1);
    StepAnnouncing(limits, t.states[k - 1], t.steps[k - 1], u, c);
    if i < k - 1 {
      AnnouncingLasts(limits, t, i, k - 1, u, c);
    }
  }

  /** A presence broadcast goes out to the room of every conversation that its user was in when the room ids were
      read. */
  lemma PresenceIsDelivered(limits: Limits, t: Trace, i: nat, j: nat, u: UserId, c: ConversationId)
    requires IsRun(limits, t) && i < j < |t.steps|
    requires t.steps[i] == PresenceRooms(u) && IsMember(t.states[i].world.db, c, u)
    requires t.steps[j] == PresenceEmit(u, c) && forall d: nat :: i < d < j ==> t.steps[d] != PresenceEmit(u, c)
    ensures DeliversOnce(t.states[j], t.states[j + 1], u, c)
  {
    AnnouncingLasts(limits, t, i, j, u, c);
    NextState(limits, t, j);
    RoomMembers(t.states[j].rooms, c);
  }

  /** The socket has closed and is in no room. */
  ghost predicate Gone(net: Net, s: SocketId) {
    s in net.closed && forall c: ConversationId :: (c, s) !in net.rooms
  }

  lemma StepGone(limits: Limits, net: Net, step: Step, s: SocketId)
    requires Gone(net, s) || step == Drop(s)
    ensures Gone(Apply(limits, net, step), s)
  {
    forall c: ConversationId ensures (c, s) !in Apply(limits, net, step).rooms {
      StepInRoom(limits, net, step, s, c);
    }
  }

  /** Once a socket has disconnected it hears nothing more, whatever joins were still on their way. */
  lemma {:induction false} DroppedHearsNothing(limits: Limits, t: Trace, i: nat, k: nat, s: SocketId)
    requires IsRun(limits, t) && i < k <= |t.steps| && t.steps[i] == Drop(s)
    ensures var from, to := |t.states[i + 1].deliveries|, t.states[k].deliveries;
            Gone(t.states[k], s) && from <= |to| && forall d :: from <= d < |to| ==> s !in to[d].recipients
    decreases k
  {
    NextState(limits, t, k - 1);
    if i < k - 1 {
      DroppedHearsNothing(limits, t, i, k - 1, s);
      NewDeliveryMisses(limits, t.states[k - 1], t.steps[k - 1], s);
    }
    StepGone(limits, t.states[k - 1], t.steps[k - 1], s);
  }

  lemma NewDeliveryMisses(limits: Limits, net: Net, step: Step, s: SocketId)
    requires Gone(net, s)
    ensures var to := Apply(limits, net, step).deliveries;
            && net.deliveries <= to && |to| <= |net.deliveries| + 1
            && (|to| > |net.deliveries| ==> s !in to[|net.deliveries|].recipients)
  {
    var to := Apply(limits, net, step).deliveries;
    StepInRoom(limits, net, step, s, if |to| > |net.deliveries| then to[|net.deliveries|].conversation else 0);
  }

  lemma StepJoining(limits: Limits, net: Net, step: Step, s: SocketId, c: ConversationId)
    requires (c, s) !in net.joining && (c, s) !in net.rooms
    requires AsksToJoin(step, s, c) ==> c !in net.world.db.conversations
    ensures (c, s) !in Apply(limits, net, step).joining && (c, s) !in Apply(limits, net, step).rooms
  {
    StepInRoom(limits, net, step, s, c);
    if s !in net.closed {
      StepJoins(limits, net, step, s, c);
    }
  }

  ghost predicate NeverHeard(net: Net, s: SocketId, c: ConversationId) {
    && (c, s) !in net.joining && (c, s) !in net.rooms
    && forall i :: 0 <= i < |net.deliveries| && net.deliveries[i].conversation == c ==>
                     s !in net.deliveries[i].recipients
  }

  lemma StepNeverHeard(limits: Limits, net: Net, step: Step, s: SocketId, c: ConversationId)
    requires NeverHeard(net, s, c) && (AsksToJoin(step, s, c) ==> c !in net.world.db.conversations)
    ensures NeverHeard(Apply(limits, net, step), s, c)
  {
    StepJoining(limits, net, step, s, c);
    StepInRoom(limits, net, step, s, c);
  }

  lemma NothingHeardBefore(net: Net, s: SocketId, c: ConversationId)
    requires Safe(net) && c !in net.world.db.conversations
    ensures NeverHeard(net, s, c)
  {
    forall i | 0 <= i < |net.deliveries| ensures net.deliveries[i].conversation != c {
      assert SafeDelivery(net.world.db, net.sockets, net.deliveries[i]);
    }
    assert forall x :: x in net.rooms || x in net.joining ==> MemberSocket(net.world.db, net.sockets, x.0, x.1);
  }

  /** Step j reads whether socket s may join c, when c exists. */
  predicate AsksInTime(t: Trace, j: nat, s: SocketId, c: ConversationId)
    requires Runs.Shaped(t) && j < |t.steps|
  {
    AsksToJoin(t.steps[j], s, c) && c in t.states[j].world.db.conversations
  }

  /** A socket that has not asked to join, on connect or on request, since the conversation was created hears
      nothing of it, whoever its user is. */
  lemma {:induction false} UnaskedHearsNothing(limits: Limits, t: Trace, k: nat, s: SocketId, c: ConversationId)
    requires IsRun(limits, t) && k <= |t.steps|
    requires Safe(t.states[0]) && c !in t.states[0].world.db.conversations
    requires forall j: nat :: j < k ==> !AsksInTime(t, j, s, c)
    ensures NeverHeard(t.states[k], s, c)
    decreases k
  {
    if k == 0 {
      NothingHeardBefore(t.states[0], s, c);
    } else {
      UnaskedHearsNothing(limits, t, k - 1, s, c);
      assert !AsksInTime(t, k - 1, s, c);
      NextState(limits, t, k - 1);
      StepNeverHeard(limits, t.states[k - 1], t.steps[k - 1], s, c);
    }
  }

  lemma ArriveAndAutoJoin(limits: Limits, s: SocketId, u: UserId)
    ensures Apply(limits, Apply(limits, EMPTY_NET, Arrive(s, u)), AutoJoin(s)) == EMPTY_NET.(sockets := map[s := u])
  {
    var none: Rooms := set c | c in RoomIds(EMPTY_STORE, u) :: (c, s);
    assert none == {};
  }

  lemma CreateAndSend(limits: Limits, net: Net, u: UserId, v: UserId, s': SocketId)
    requires u != v && net == EMPTY_NET.(sockets := net.sockets)
    ensures var net' := Apply(limits, net, Serve(Create(v, Direct, None, [u], 0, 0)));
            var e := Send(v, s', 0, ONE_LETTER, 0, 0, 0);
            var net'' := Apply(limits, net', Serve(e));
            && Legal(net'.world, e) && IsMember(net''.world.db, 0, u)
            && net''.sockets == net.sockets && net''.closed == {} && net''.deliveries == [Delivery(v, 0, {})]
  {
    FirstMessageStored(limits, Direct, v, [u], s');
    assert u in Elements([v] + [u]) by { assert ([v] + [u])[1] == u; }
    assert InRoom({}, 0) == {};
  }

  function Begin(net: Net): Trace {
    Runs.Begin(net)
  }

  function Then(limits: Limits, t: Trace, step: Step): Trace
    requires t.states != []
  {
    Runs.Then(Stepping(limits), t, step)
  }

  lemma BeginIsLegal(limits: Limits, net: Net)
    ensures LegalRun(limits, Begin(net))
  {
    Runs.BeginIsRun(Stepping(limits), net);
  }

  lemma ThenIsLegal(limits: Limits, t: Trace, step: Step)
    requires LegalRun(limits, t) && LegalStep(Runs.Last(t), step)
    ensures var t' := Then(limits, t, step);
            && LegalRun(limits, t') && t'.states[0] == t.states[0]
            && Runs.Last(t') == Apply(limits, Runs.Last(t), step)
  {
    var t' := Then(limits, t, step);
    Runs.ThenIsRun(Stepping(limits), t, step);
    forall k: nat | k < |t'.steps| ensures LegalAt(t', k) {
      assert k < |t.steps| ==> LegalAt(t, k);
    }
  }

  /** u connects; then v starts a conversation with u and writes to it. */
  function NewConversationRun(limits: Limits, u: UserId, v: UserId, s: SocketId, s': SocketId): Trace {
    var t := Then(limits, Then(limits, Begin(EMPTY_NET), Arrive(s, u)), AutoJoin(s));
    Then(limits, Then(limits, t, Serve(Create(v, Direct, None, [u], 0, 0))), Serve(Send(v, s', 0, ONE_LETTER, 0, 0, 0)))
  }

  /** A connected member misses the first message of a conversation created after connecting. */
  lemma {:induction false} NewConversationUnheard(limits: Limits, u: UserId, v: UserId, s: SocketId, s': SocketId)
    requires u != v
    ensures var t := NewConversationRun(limits, u, v, s, s');
            var end := Runs.Last(t);
            && LegalRun(limits, t) && Safe(t.states[0])
            && end.sockets == map[s := u] && s !in end.closed && IsMember(end.world.db, 0, u)
            && end.deliveries == [Delivery(v, 0, {})]
  {
    var t0 := Begin(EMPTY_NET);
    var t1 := Then(limits, t0, Arrive(s, u));
    var t2 := Then(limits, t1, AutoJoin(s));
    var t3 := Then(limits, t2, Serve(Create(v, Direct, None, [u], 0, 0)));
    EmptyNetIsSafe();
    BeginIsLegal(limits, EMPTY_NET);
    ThenIsLegal(limits, t0, Arrive(s, u));
    ThenIsLegal(limits, t1, AutoJoin(s));
    ArriveAndAutoJoin(limits, s, u);
    CreateAndSend(limits, EMPTY_NET.(sockets := map[s := u]), u, v, s');
    ThenIsLegal(limits, t2, Serve(Create(v, Direct, None, [u], 0, 0)));
    ThenIsLegal(limits, t3, Serve(Send(v, s', 0, ONE_LETTER, 0, 0, 0)));
  }

  /** The rooms of the process's adapter, and the handlers that sockets drive, each run to completion. */
  class Adapter {
    var rooms: Rooms
    var closed: set<SocketId>

    constructor ()
      ensures rooms == {} && closed == {}
    {
      rooms, closed := {}, {};
    }

    ghost predicate Holds(net: Net)
      reads this
    {
      net.rooms == rooms && net.closed == closed
    }

    /** `conversation:join`: acknowledges exactly members and adds the socket for them only, unless it has closed
        since it asked. */
    method OnConversationJoin(limits: Limits, ghost net: Net, db: Store, s: SocketId, u: UserId, c: ConversationId)
      returns (ack: bool)
      requires Holds(net) && net.world.db == db && s in net.sockets && net.sockets[s] == u
      modifies this`rooms
      ensures ack <==> c in db.conversations && u in db.conversations[c].members
      ensures Holds(if ack then Apply(limits, Apply(limits, net, CheckJoin(s, c)), Join(s, c)) else net)
      ensures forall d, t :: (d, t) in rooms <==> (d, t) in old(rooms) || (ack && s !in closed && d == c && t == s)
    {
      if !IsMember(db, c, u) {
        return false;
      }
      if s !in closed {
        rooms := rooms + {(c, s)};
      }
      return true;
    }

    method OnConversationLeave(limits: Limits, ghost net: Net, s: SocketId, c: ConversationId)
      requires Holds(net)
      modifies this`rooms
      ensures Holds(Apply(limits, net, Leave(s, c)))
      ensures forall d, t :: (d, t) in rooms <==> (d, t) in old(rooms) && (d != c || t != s)
    {
      rooms := rooms - {(c, s)};
    }

    /** The socket leaves every room and cannot join another. */
    method OnDisconnect(limits: Limits, ghost net: Net, s: SocketId)
      requires Holds(net)
      modifies this
      ensures Holds(Apply(limits, net, Drop(s)))
      ensures forall d, t :: (d, t) in rooms <==> (d, t) in old(rooms) && t != s
    {
      rooms := set x | x in rooms && x.1 != s;
      closed := closed + {s};
    }
  }
}
