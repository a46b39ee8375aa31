/** The socket handlers `message:send`, `message:delivered` and `message:read`, and conversation creation,
    each taken as one step. Runs of these steps carry the strong receipt guarantees. */
module AtomicServer {
  import opened Domain
  import opened Sanitize
  import opened MessageValidator
  import opened SocketRateLimit
  import opened ConversationService
  import Service = MessageService

  /** What the handlers emit to a conversation's room. */
  datatype Broadcast =
    | MessageNew(id: MessageId, message: Message)
    | MessageDelivered(conversation: ConversationId, id: MessageId, user: UserId)
    | MessageRead(conversation: ConversationId, ids: set<MessageId>, user: UserId)

  /** The room it goes to. */
  function ConversationOf(b: Broadcast): ConversationId {
    match b
    case MessageNew(_, message) => message.conversation
    case MessageDelivered(c, _, _) => c
    case MessageRead(c, _, _) => c
  }

  datatype Event =
    | Create(user: UserId, kind: Kind, name: Option<Text>, listed: seq<UserId>, id: ConversationId, now: nat)
    // `now` is what the limiter reads on entry, `createdAt` what the database stamps after the membership look-up
    | Send(user: UserId, socket: SocketId, conversation: ConversationId, raw: Text, message: MessageId,
           now: nat, createdAt: nat)
    | Deliver(user: UserId, message: MessageId)
    | Acknowledge(user: UserId, conversation: ConversationId, upTo: MessageId)

  /** A read acknowledgement that the server accepted. */
  datatype Ack = Ack(user: UserId, conversation: ConversationId, upTo: MessageId)

  /** The server's state, and what an observer has seen so far: broadcasts, accepted acknowledgements and
      `message:send` calls. */
  datatype World = World(buckets: Buckets, db: Store, emitted: seq<Broadcast>, acks: seq<Ack>, calls: seq<Call>)

  const INITIAL := World(map[], EMPTY_STORE, [], [], [])

  function Next(limits: Limits, w: World, e: Event): World {
    match e
    case Create(user, kind, name, listed, id, now) =>
      var memberIds := Distinct([user] + listed);
      if kind == Direct && Existing(w.db, memberIds) != {} then w
      else w.(db := Insert(w.db, kind, name, memberIds, id, now))
    case Send(user, socket, c, raw, id, now, createdAt) =>
      var (buckets, allowed) := Check(limits, w.buckets, user, now);
      var called := w.(buckets := buckets, calls := w.calls + [Call(user, socket, now)]);
      var text := ValidateText(raw);
      if !allowed || !text.Accepted? then called else
        var created := Service.AfterCreate(w.db, user, c, text.text, id, createdAt);
        if created.NotFound? then called
        else called.(db := created.value, emitted := w.emitted + [MessageNew(id, created.value.messages[id])])
    case Deliver(user, id) =>
      var marked := Service.AfterDelivered(w.db, id, user);
      if marked.NotFound? then w
      else w.(db := marked.value, emitted := w.emitted + [MessageDelivered(w.db.messages[id].conversation, id, user)])
    case Acknowledge(user, c, upTo) =>
      var marked := Service.AfterRead(w.db, c, upTo, user);
      if marked.NotFound? then w
      else
        var (db, ids) := marked.value;
        w.(db := db, emitted := if ids == {} then w.emitted else w.emitted + [MessageRead(c, ids, user)],
           acks := w.acks + [Ack(user, c, upTo)])
  }

  // ---------- What a caller is promised ----------

  /** A 1:1 conversation between exactly the given users, stored without duplicates. */
  ghost predicate DirectBetween(conversation: Conversation, users: set<UserId>) {
    && conversation.kind == Direct && Elements(conversation.members) == users
    && NoDuplicates(conversation.members)
  }

  /** A 1:1 creation between users who have a conversation stores nothing; any other stores one conversation with the
      kind, the name and the distinct members asked for. */
  ghost predicate CreatesAsked(w: World, e: Event, w': World)
    requires e.Create?
  {
    var users := Elements([e.user] + e.listed);
    if e.kind == Direct && exists c :: c in w.db.conversations && DirectBetween(w.db.conversations[c], users) then
      w' == w
    else
      && w' == w.(db := w'.db) && w'.db.messages == w.db.messages
      && w'.db.conversations.Keys == w.db.conversations.Keys + {e.id}
      && (forall c :: c in w.db.conversations && c != e.id ==> w'.db.conversations[c] == w.db.conversations[c])
      && var created := w'.db.conversations[e.id];
         && created == Conversation(e.kind, e.name, created.members, None, e.now)
         && NoDuplicates(created.members) && Elements(created.members) == users
  }

  /** The text is at most 5000 code units long without its outer white space, and some of it outside every tag is
      not white space. */
  ghost predicate Sendable(raw: Text) {
    var t := Trim(raw);
    |t| <= 5000 && exists k :: 0 <= k < |t| && !InTag(t, k) && !IsSpace(t[k])
  }

  /** An allowed call by a member with a sendable text stores and emits exactly that text, trimmed and without its
      tags, and makes it the conversation's last message; any other stores and emits nothing. */
  ghost predicate SendsAsked(limits: Limits, w: World, e: Event, w': World)
    requires e.Send?
  {
    var (buckets, allowed) := Check(limits, w.buckets, e.user, e.now);
    && w'.buckets == buckets && w'.calls == w.calls + [Call(e.user, e.socket, e.now)] && w'.acks == w.acks
    && if allowed && IsMember(w.db, e.conversation, e.user) && Sendable(e.raw) then
         var message := Message(e.conversation, e.user, Trim(OutsideTags(Trim(e.raw), 0)), Sent, e.createdAt);
         && w'.db.messages == w.db.messages[e.message := message]
         && w'.emitted == w.emitted + [MessageNew(e.message, message)]
         && w'.db.conversations.Keys == w.db.conversations.Keys
         && w'.db.conversations[e.conversation] ==
              w.db.conversations[e.conversation].(lastMessage := Some(e.message), updatedAt := e.createdAt)
         && forall c :: c in w.db.conversations && c != e.conversation ==>
              w'.db.conversations[c] == w.db.conversations[c]
       else w'.db == w.db && w'.emitted == w.emitted
  }

  /** A member's delivery is emitted, whatever the status was, and takes `sent` to `delivered`; any other does
      nothing. */
  ghost predicate DeliversAsked(w: World, e: Event, w': World)
    requires e.Deliver?
  {
    && w'.db.conversations == w.db.conversations
    && if e.message in w.db.messages && IsMember(w.db, w.db.messages[e.message].conversation, e.user) then
         var message := w.db.messages[e.message];
         && w'.db.messages == w.db.messages[
              e.message := if message.status == Sent then message.(status := Delivered) else message]
         && w' == w.(db := w'.db,
                     emitted := w.emitted + [MessageDelivered(message.conversation, e.message, e.user)])
       else w' == w
  }

  /** An acknowledgement is accepted from a member, for a message of the conversation. */
  predicate Accepts(db: Store, e: Event)
    requires e.Acknowledge?
  {
    && IsMember(db, e.conversation, e.user)
    && e.upTo in db.messages && db.messages[e.upTo].conversation == e.conversation
  }

  /** Others' messages of the conversation up to the acknowledged one. */
  ghost predicate Covered(db: Store, e: Event, m: MessageId)
    requires e.Acknowledge? && e.upTo in db.messages
  {
    && m in db.messages && db.messages[m].conversation == e.conversation && db.messages[m].sender != e.user
    && db.messages[m].createdAt <= db.messages[e.upTo].createdAt
  }

  /** An accepted acknowledgement makes every covered message `read` and emits those that were not, if any; a refused
      one does nothing. */
  ghost predicate AcknowledgesAsked(w: World, e: Event, w': World)
    requires e.Acknowledge?
  {
    if !Accepts(w.db, e) then w' == w else
      && w' == w.(db := w'.db, emitted := w'.emitted, acks := w.acks + [Ack(e.user, e.conversation, e.upTo)])
      && w'.db.conversations == w.db.conversations && w'.db.messages.Keys == w.db.messages.Keys
      && (forall m :: m in w.db.messages ==>
            w'.db.messages[m] == if Covered(w.db, e, m) then w.db.messages[m].(status := Read) else w.db.messages[m])
      && var ids := set m | m in w.db.messages && Covered(w.db, e, m) && w.db.messages[m].status != Read;
         w'.emitted == w.emitted + if ids == {} then [] else [MessageRead(e.conversation, ids, e.user)]
  }

  ghost predicate Answers(limits: Limits, w: World, e: Event, w': World) {
    match e
    case Create(_, _, _, _, _, _) => CreatesAsked(w, e, w')
    case Send(_, _, _, _, _, _, _) => SendsAsked(limits, w, e, w')
    case Deliver(_, _) => DeliversAsked(w, e, w')
    case Acknowledge(_, _, _) => AcknowledgesAsked(w, e, w')
  }

  lemma CreateAnswers(limits: Limits, w: World, e: Event)
    requires e.Create?
    ensures CreatesAsked(w, e, Next(limits, w, e))
  {
    var memberIds, users := Distinct([e.user] + e.listed), Elements([e.user] + e.listed);
    DistinctKeepsElements([e.user] + e.listed);
    forall c | c in w.db.conversations
      ensures c in Existing(w.db, memberIds) <==> DirectBetween(w.db.conversations[c], users)
    {
      AllAndSizeIsSetEquality(w.db.conversations[c], memberIds);
    }
    if e.kind == Direct {
      if c :| c in Existing(w.db, memberIds) {
        assert DirectBetween(w.db.conversations[c], users);
      }
    }
  }

  lemma SendAnswers(limits: Limits, w: World, e: Event)
    requires e.Send?
    ensures SendsAsked(limits, w, e, Next(limits, w, e))
  {
    AcceptedIff(e.raw);
  }

  lemma DeliverAnswers(limits: Limits, w: World, e: Event)
    requires e.Deliver?
    ensures DeliversAsked(w, e, Next(limits, w, e))
  {
    if e.message in w.db.messages {
      assert w.db.messages[e.message := w.db.messages[e.message]] == w.db.messages;
    }
  }

  lemma AcknowledgeAnswers(limits: Limits, w: World, e: Event)
    requires e.Acknowledge?
    ensures AcknowledgesAsked(w, e, Next(limits, w, e))
  {
    if Accepts(w.db, e) {
      var ids := set m | m in w.db.messages && Covered(w.db, e, m) && w.db.messages[m].status != Read;
      assert ids == Service.ReadTargets(w.db, e.conversation, e.upTo, e.user);
    }
  }

  /** Whole handlers do what they promise, whatever the server has done before. */
  lemma NextAnswers(limits: Limits, w: World, e: Event)
    ensures Answers(limits, w, e, Next(limits, w, e))
  {
    match e
    case Create(_, _, _, _, _, _) => CreateAnswers(limits, w, e);
    case Send(_, _, _, _, _, _, _) => SendAnswers(limits, w, e);
    case Deliver(_, _) => DeliverAnswers(limits, w, e);
    case Acknowledge(_, _, _) => AcknowledgeAnswers(limits, w, e);
  }

  /** The handlers over the mutable collections, limiter and room traffic. */
  class Handlers {
    const limiter: RateLimiter
    const store: Service.Collections
    var emitted: seq<Broadcast>
    ghost var acks: seq<Ack>
    ghost var calls: seq<Call>

    constructor (limits: Limits)
      ensures fresh(limiter) && fresh(store) && limiter.limits == limits && Observed() == INITIAL
    {
      limiter := new RateLimiter(limits);
      store := new Service.Collections();
      emitted, acks, calls := [], [], [];
    }

    ghost function Observed(): World
      reads this, limiter, store
    {
      World(limiter.buckets, store.State(), emitted, acks, calls)
    }

    method OnMessageSend(user: UserId, socket: SocketId, c: ConversationId, raw: Text, id: MessageId, now: nat,
                         createdAt: nat)
      requires id !in store.messages
      modifies this, limiter, store
      ensures Observed() == Next(limiter.limits, old(Observed()), Send(user, socket, c, raw, id, now, createdAt))
      ensures SendsAsked(limiter.limits, old(Observed()), Send(user, socket, c, raw, id, now, createdAt), Observed())
    {
      SendAnswers(limiter.limits, Observed(), Send(user, socket, c, raw, id, now, createdAt));
      var allowed := limiter.CheckMessageRateLimit(user, now);
      calls := calls + [Call(user, socket, now)];
      if !allowed {
        return;
      }
      var text := ValidateText(raw);
      if !text.Accepted? {
        return;
      }
      var created := store.CreateMessage(user, c, text.text, id, createdAt);
      if created.NotFound? {
        return;
      }
      emitted := emitted + [MessageNew(id, created.value)];
    }

    method OnMessageDelivered(user: UserId, id: MessageId)
      modifies this, store
      ensures Observed() == Next(limiter.limits, old(Observed()), Deliver(user, id))
      ensures DeliversAsked(old(Observed()), Deliver(user, id), Observed())
    {
      DeliverAnswers(limiter.limits, Observed(), Deliver(user, id));
      var marked := store.MarkMessageDelivered(id, user);
      if marked.NotFound? {
        return;
      }
      emitted := emitted + [MessageDelivered(marked.value, id, user)];
    }

    method OnMessageRead(user: UserId, c: ConversationId, upTo: MessageId)
      modifies this, store
      ensures Observed() == Next(limiter.limits, old(Observed()), Acknowledge(user, c, upTo))
      ensures AcknowledgesAsked(old(Observed()), Acknowledge(user, c, upTo), Observed())
    {
      AcknowledgeAnswers(limiter.limits, Observed(), Acknowledge(user, c, upTo));
      var marked := store.MarkMessagesRead(c, upTo, user);
      if marked.NotFound? {
        return;
      }
      acks := acks + [Ack(user, c, upTo)];
      if |marked.value| > 0 {
        emitted := emitted + [MessageRead(c, marked.value, user)];
      }
    }

    /** `createConversation`: the conversation found or created is returned. */
    method CreateConversation(user: UserId, kind: Kind, name: Option<Text>, listed: seq<UserId>, id: ConversationId,
                              now: nat)
      returns (found: ConversationId)
      modifies store
      ensures Observed() == Next(limiter.limits, old(Observed()), Create(user, kind, name, listed, id, now))
      ensures CreatesAsked(old(Observed()), Create(user, kind, name, listed, id, now), Observed())
      ensures IsCreation(old(store.State()), user, kind, name, listed, id, now, store.State(), found)
    {
      CreateAnswers(limiter.limits, Observed(), Create(user, kind, name, listed, id, now));
      var memberIds := Distinct([user] + listed);
      if kind == Direct {
        var existing := Existing(store.State(), memberIds);
        if existing != {} {
          found :| found in existing;
          return;
        }
      }
      store.conversations := store.conversations[id := Conversation(kind, name, memberIds, None, now)];
      return id;
    }
  }

  // ---------- Runs ----------

  function Run(limits: Limits, w: World, es: seq<Event>): World
    decreases |es|
  {
    if es == [] then w else Run(limits, Next(limits, w, es[0]), es[1..])
  }

  /** New identifiers are unused, and a message is stamped no earlier than its call came in. */
  predicate Legal(w: World, e: Event) {
    match e
    case Create(_, _, _, _, id, _) => id !in w.db.conversations
    case Send(_, _, _, _, id, now, createdAt) => id !in w.db.messages && now <= createdAt
    case _ => true
  }

  predicate LegalRun(limits: Limits, w: World, es: seq<Event>)
    decreases |es|
  {
    es == [] || (Legal(w, es[0]) && LegalRun(limits, Next(limits, w, es[0]), es[1..]))
  }

  /** The event stores a message. */
  predicate Stores(limits: Limits, w: World, e: Event) {
    e.Send? && Next(limits, w, e).db != w.db
  }

  /** `createdAt` is strictly increasing within each conversation. */
  predicate StrictClock(limits: Limits, w: World, e: Event) {
    Stores(limits, w, e) ==>
      forall m :: m in w.db.messages && w.db.messages[m].conversation == e.conversation ==>
                    w.db.messages[m].createdAt < e.createdAt
  }

  predicate StrictRun(limits: Limits, w: World, es: seq<Event>)
    decreases |es|
  {
    es == [] || (StrictClock(limits, w, es[0]) && StrictRun(limits, Next(limits, w, es[0]), es[1..]))
  }

  /** Every message belongs to a conversation its sender is a member of and carries clean text; 1:1
      conversations are unique; accepted acknowledgements name messages of the conversation and members. */
  ghost predicate Valid(w: World) {
    && (forall m :: m in w.db.messages ==> ValidMessage(w.db, w.db.messages[m]))
    && MembersDistinct(w.db)
    && DirectUnique(w.db)
    && (forall i :: 0 <= i < |w.acks| ==> ValidAck(w.db, w.acks[i]))
  }

  ghost predicate ValidMessage(db: Store, message: Message) {
    IsMember(db, message.conversation, message.sender) && CleanText(message.text)
  }

  ghost predicate ValidAck(db: Store, a: Ack) {
    IsMember(db, a.conversation, a.user) && a.upTo in db.messages && db.messages[a.upTo].conversation == a.conversation
  }

  /** Conversations keep their kind and members; messages keep everything but their status. */
  ghost predicate Extends(db: Store, db': Store) {
    && (forall c :: c in db.conversations ==>
          c in db'.conversations && SameMembers(db.conversations[c], db'.conversations[c]))
    && (forall m :: m in db.messages ==> m in db'.messages && SameButStatus(db.messages[m], db'.messages[m]))
  }

  ghost predicate SameMembers(a: Conversation, b: Conversation) {
    a.kind == b.kind && a.members == b.members
  }

  ghost predicate SameButStatus(a: Message, b: Message) {
    a.(status := b.status) == b
  }

  lemma AfterCreateExtends(db: Store, sender: UserId, c: ConversationId, text: Text, id: MessageId, now: nat)
    requires id !in db.messages && Service.AfterCreate(db, sender, c, text, id, now).Ok?
    ensures Extends(db, Service.AfterCreate(db, sender, c, text, id, now).value)
  {
  }

  lemma AfterDeliveredExtends(db: Store, id: MessageId, u: UserId)
    requires Service.AfterDelivered(db, id, u).Ok?
    ensures Extends(db, Service.AfterDelivered(db, id, u).value)
  {
  }

  lemma AfterReadExtends(db: Store, c: ConversationId, upTo: MessageId, u: UserId)
    requires Service.AfterRead(db, c, upTo, u).Ok?
    ensures Extends(db, Service.AfterRead(db, c, upTo, u).value.0)
  {
  }

  lemma ExtendsRefl(db: Store)
    ensures Extends(db, db)
  {
  }

  lemma NextExtends(limits: Limits, w: World, e: Event)
    requires Legal(w, e)
    ensures Extends(w.db, Next(limits, w, e).db)
  {
    ExtendsRefl(w.db);
    match e
    case Create(user, kind, name, listed, id, now) =>
      assert Extends(w.db, Insert(w.db, kind, name, Distinct([user] + listed), id, now));
    case Send(user, socket, c, raw, id, now, createdAt) =>
      var text := ValidateText(raw);
      if text.Accepted? && Service.AfterCreate(w.db, user, c, text.text, id, createdAt).Ok? {
        AfterCreateExtends(w.db, user, c, text.text, id, createdAt);
      }
    case Deliver(user, id) =>
      if Service.AfterDelivered(w.db, id, user).Ok? {
        AfterDeliveredExtends(w.db, id, user);
      }
    case Acknowledge(user, c, upTo) =>
      if Service.AfterRead(w.db, c, upTo, user).Ok? {
        AfterReadExtends(w.db, c, upTo, user);
      }
  }

  lemma ValidMessageStable(db: Store, db': Store, m: MessageId)
    requires Extends(db, db') && m in db.messages && ValidMessage(db, db.messages[m])
    ensures ValidMessage(db', db'.messages[m])
  {
  }

  lemma ValidAcksStable(db: Store, db': Store, acks: seq<Ack>)
    requires Extends(db, db') && forall i :: 0 <= i < |acks| ==> ValidAck(db, acks[i])
    ensures forall i :: 0 <= i < |acks| ==> ValidAck(db', acks[i])
  {
  }

  lemma MembersDistinctStable(db: Store, db': Store)
    requires MembersDistinct(db) && Extends(db, db') && db.conversations.Keys == db'.conversations.Keys
    ensures MembersDistinct(db')
  {
  }

  /** A store extended with no new conversation, and with no new message but a valid one, stays valid. */
  lemma ExtendsKeepsValid(w: World, w': World, fresh': set<MessageId>, more: seq<Ack>)
    requires Valid(w) && Extends(w.db, w'.db) && w.db.conversations.Keys == w'.db.conversations.Keys
    requires w'.db.messages.Keys == w.db.messages.Keys + fresh'
    requires forall m :: m in fresh' ==> ValidMessage(w'.db, w'.db.messages[m])
    requires w'.acks == w.acks + more && forall i :: 0 <= i < |more| ==> ValidAck(w.db, more[i])
    ensures Valid(w')
  {
    DirectUniqueByMembers(w.db, w'.db);
    MembersDistinctStable(w.db, w'.db);
    forall m | m in w'.db.messages
      ensures ValidMessage(w'.db, w'.db.messages[m])
    {
      if m !in fresh' {
        ValidMessageStable(w.db, w'.db, m);
      }
    }
    assert forall i :: 0 <= i < |w'.acks| ==> ValidAck(w.db, w'.acks[i]);
    ValidAcksStable(w.db, w'.db, w'.acks);
  }

  lemma CreateValid(limits: Limits, w: World, e: Event)
    requires Valid(w) && Legal(w, e) && e.Create?
    ensures Valid(Next(limits, w, e))
  {
    var w' := Next(limits, w, e);
    if w' != w {
      NextExtends(limits, w, e);
      CreateKeepsUnique(w.db, e.user, e.kind, e.name, e.listed, e.id, e.now, w'.db, e.id);
      forall m | m in w'.db.messages ensures ValidMessage(w'.db, w'.db.messages[m]) {
        ValidMessageStable(w.db, w'.db, m);
      }
      ValidAcksStable(w.db, w'.db, w.acks);
    }
  }

  lemma SendValid(limits: Limits, w: World, e: Event)
    requires Valid(w) && Legal(w, e) && e.Send?
    ensures Valid(Next(limits, w, e))
  {
    var w' := Next(limits, w, e);
    NextExtends(limits, w, e);
    if ValidateText(e.raw).Accepted? {
      AcceptedTextIsFixpoint(e.raw);
    }
    ExtendsKeepsValid(w, w', if w'.db == w.db then {} else {e.message}, []);
  }

  lemma DeliverValid(limits: Limits, w: World, e: Event)
    requires Valid(w) && e.Deliver?
    ensures Valid(Next(limits, w, e))
  {
    var w' := Next(limits, w, e);
    NextExtends(limits, w, e);
    ExtendsKeepsValid(w, w', {}, []);
  }

  lemma AcceptedAckIsValid(limits: Limits, w: World, e: Event)
    requires e.Acknowledge?
    ensures var (w', a) := (Next(limits, w, e), Ack(e.user, e.conversation, e.upTo));
            && w'.db.conversations == w.db.conversations && w'.db.messages.Keys == w.db.messages.Keys
            && (w' == w || (ValidAck(w.db, a) && w'.acks == w.acks + [a]))
  {
  }

  lemma AcknowledgeValid(limits: Limits, w: World, e: Event)
    requires Valid(w) && e.Acknowledge?
    ensures Valid(Next(limits, w, e))
  {
    var w' := Next(limits, w, e);
    NextExtends(limits, w, e);
    AcceptedAckIsValid(limits, w, e);
    if w' != w {
      ExtendsKeepsValid(w, w', {}, [Ack(e.user, e.conversation, e.upTo)]);
    }
  }

  lemma NextValid(limits: Limits, w: World, e: Event)
    requires Valid(w) && Legal(w, e)
    ensures Valid(Next(limits, w, e))
  {
    match e
    case Create(_, _, _, _, _, _) => CreateValid(limits, w, e);
    case Send(_, _, _, _, _, _, _) => SendValid(limits, w, e);
    case Deliver(_, _) => DeliverValid(limits, w, e);
    case Acknowledge(_, _, _) => AcknowledgeValid(limits, w, e);
  }

  lemma DirectUniqueByMembers(db: Store, db': Store)
    requires DirectUnique(db) && Extends(db, db') && db.conversations.Keys == db'.conversations.Keys
    ensures DirectUnique(db')
  {
  }

  /** Over every run: stored members are duplicate-free, each member set has at most one 1:1 conversation,
      every stored message's sender is a member and its text is one the validator leaves unchanged. */
  lemma {:induction false} RunValid(limits: Limits, w: World, es: seq<Event>)
    requires Valid(w) && LegalRun(limits, w, es)
    ensures Valid(Run(limits, w, es))
    decreases |es|
  {
    if es != [] {
      NextValid(limits, w, es[0]);
      RunValid(limits, Next(limits, w, es[0]), es[1..]);
    }
  }

  lemma {:induction false} RunExtends(limits: Limits, w: World, es: seq<Event>)
    requires LegalRun(limits, w, es)
    ensures Extends(w.db, Run(limits, w, es).db)
    decreases |es|
  {
    if es != [] {
      NextExtends(limits, w, es[0]);
      RunExtends(limits, Next(limits, w, es[0]), es[1..]);
    }
  }

  lemma {:induction false} RunConcat(limits: Limits, w: World, es: seq<Event>, fs: seq<Event>)
    ensures Run(limits, w, es + fs) == Run(limits, Run(limits, w, es), fs)
    ensures LegalRun(limits, w, es + fs) <==> LegalRun(limits, w, es) && LegalRun(limits, Run(limits, w, es), fs)
    decreases |es|
  {
    if es == [] {
      assert es + fs == fs;
    } else {
      assert (es + fs)[1..] == es[1..] + fs;
      RunConcat(limits, Next(limits, w, es[0]), es[1..], fs);
    }
  }

  /** Once a and b have a 1:1 conversation, a later creation by either of them, after any further run,
      returns that conversation and stores nothing. */
  lemma DirectIsForever(limits: Limits, w: World, es: seq<Event>, c: ConversationId, a: UserId, b: UserId,
                        id: ConversationId, now: nat, db': Store, found: ConversationId, swap: bool)
    requires Valid(w) && LegalRun(limits, w, es)
    requires c in w.db.conversations && w.db.conversations[c].kind == Direct &&
        Elements(w.db.conversations[c].members) == {a, b}
    requires var (x, y) := if swap then (b, a) else (a, b);
             IsCreation(Run(limits, w, es).db, x, Direct, None, [y], id, now, db', found)
    ensures db' == Run(limits, w, es).db && found == c
  {
    RunValid(limits, w, es);
    RunExtends(limits, w, es);
    DirectCreationIsSymmetric(Run(limits, w, es).db, a, b, c, id, now, db', found, swap);
  }

  /** The world after v creates a first conversation and sends a first message to it. */
  function FirstMessage(limits: Limits, kind: Kind, v: UserId, listed: seq<UserId>, s: SocketId): World {
    Next(limits, Next(limits, INITIAL, Create(v, kind, None, listed, 0, 0)), Send(v, s, 0, ONE_LETTER, 0, 0, 0))
  }

  lemma FirstMessageStored(limits: Limits, kind: Kind, v: UserId, listed: seq<UserId>, s: SocketId)
    ensures var (w, message) := (FirstMessage(limits, kind, v, listed, s), Message(0, v, ONE_LETTER, Sent, 0));
            && w.db.conversations.Keys == {0} && w.db.messages == map[0 := message]
            && Elements(w.db.conversations[0].members) == Elements([v] + listed)
            && w.emitted == [MessageNew(0, message)] && w.acks == []
    ensures var w1 := Next(limits, INITIAL, Create(v, kind, None, listed, 0, 0));
            && w1.db.messages == map[] && w1.emitted == []
            && Stores(limits, w1, Send(v, s, 0, ONE_LETTER, 0, 0, 0))
  {
    OneLetterIsAccepted();
    DistinctKeepsElements([v] + listed);
    assert Existing(EMPTY_STORE, Distinct([v] + listed)) == {};
    assert v in Elements([v] + listed) by { assert ([v] + listed)[0] == v; }
  }

  // ---------- The limiter bounds what is stored ----------

  /** The user's stored messages with `createdAt` in [lo, hi). */
  ghost function MessagesBy(db: Store, u: UserId, lo: int, hi: int): set<MessageId> {
    set m | m in db.messages && db.messages[m].sender == u && lo <= db.messages[m].createdAt < hi
  }

  /** No stored message is stamped more than `delay` after its call passed the limiter. */
  predicate PromptRun(limits: Limits, w: World, es: seq<Event>, delay: nat)
    decreases |es|
  {
    es == [] ||
    ((Stores(limits, w, es[0]) ==> es[0].createdAt <= es[0].now + delay) &&
     PromptRun(limits, Next(limits, w, es[0]), es[1..], delay))
  }

  /** Each message in the interval came in by an accepted call at most `delay` earlier. */
  ghost predicate Metered(limits: Limits, w: World, u: UserId, lo: int, hi: int, delay: nat) {
    && w.buckets == After(limits, w.calls)
    && |MessagesBy(w.db, u, lo, hi)| <= Count(AcceptedLog(limits, w.calls, u), lo - delay, hi)
  }

  lemma MeterCall(limits: Limits, calls: seq<Call>, call: Call, u: UserId, lo: int, hi: int)
    ensures After(limits, calls + [call]) == Check(limits, After(limits, calls), call.user, call.at).0
    ensures Count(AcceptedLog(limits, calls + [call], u), lo, hi) ==
              Count(AcceptedLog(limits, calls, u), lo, hi) +
              if call.user == u && Allowed(limits, calls, u, call.at) && lo <= call.at < hi then 1 else 0
  {
    assert (calls + [call])[..|calls|] == calls;
    var log := AcceptedLog(limits, calls, u);
    assert (log + [call.at])[..|log|] == log;
  }

  lemma MeterSend(limits: Limits, w: World, e: Event, u: UserId, lo: int, hi: int)
    requires e.Send? && Legal(w, e) && w.buckets == After(limits, w.calls)
    ensures var before := MessagesBy(w.db, u, lo, hi);
            MessagesBy(Next(limits, w, e).db, u, lo, hi) ==
              if Stores(limits, w, e) && e.user == u && lo <= e.createdAt < hi then before + {e.message} else before
    ensures Stores(limits, w, e) ==> Allowed(limits, w.calls, e.user, e.now)
  {
  }

  lemma MessagesByStable(db: Store, db': Store, u: UserId, lo: int, hi: int)
    requires Extends(db, db') && db.messages.Keys == db'.messages.Keys
    ensures MessagesBy(db', u, lo, hi) == MessagesBy(db, u, lo, hi)
  {
  }

  lemma NextMetered(limits: Limits, w: World, e: Event, u: UserId, lo: int, hi: int, delay: nat)
    requires Metered(limits, w, u, lo, hi, delay) && Legal(w, e)
    requires Stores(limits, w, e) ==> e.createdAt <= e.now + delay
    ensures Metered(limits, Next(limits, w, e), u, lo, hi, delay)
  {
    if e.Send? {
      MeterCall(limits, w.calls, Call(e.user, e.socket, e.now), u, lo - delay, hi);
      MeterSend(limits, w, e, u, lo, hi);
    } else {
      NextExtends(limits, w, e);
      MessagesByStable(w.db, Next(limits, w, e).db, u, lo, hi);
    }
  }

  lemma {:induction false} RunMetered(limits: Limits, w: World, es: seq<Event>, u: UserId, lo: int, hi: int, delay: nat)
    requires Metered(limits, w, u, lo, hi, delay) && LegalRun(limits, w, es) && PromptRun(limits, w, es, delay)
    ensures Metered(limits, Run(limits, w, es), u, lo, hi, delay)
    decreases |es|
  {
    if es != [] {
      NextMetered(limits, w, es[0], u, lo, hi, delay);
      RunMetered(limits, Next(limits, w, es[0]), es[1..], u, lo, hi, delay);
    }
  }

  lemma {:induction false} CountShorter(log: seq<int>, lo: int, hi: int, hi': int)
    requires hi <= hi'
    ensures Count(log, lo, hi) <= Count(log, lo, hi')
  {
    if log != [] {
      CountShorter(log[..|log| - 1], lo, hi, hi');
    }
  }

  lemma StoredAreAccepted(limits: Limits, es: seq<Event>, u: UserId, lo: int, hi: int, delay: nat)
    requires LegalRun(limits, INITIAL, es) && PromptRun(limits, INITIAL, es, delay)
    ensures var w := Run(limits, INITIAL, es);
            |MessagesBy(w.db, u, lo, hi)| <= Count(AcceptedLog(limits, w.calls, u), lo - delay, hi)
  {
    assert MessagesBy(INITIAL.db, u, lo, hi) == {};
    RunMetered(limits, INITIAL, es, u, lo, hi, delay);
  }

  /** In any run with a limiter clock that does not run backwards, in which messages are stamped at most
      `delay` after their call: a user has at most (k + 1) * max - 1 stored messages created within an interval
      that with `delay` added is no longer than k windows, whatever else the server does in between. */
  lemma StoredMessagesBounded(limits: Limits, es: seq<Event>, u: UserId, lo: int, hi: int, delay: nat, k: nat)
    requires limits.windowMs >= 1 && LegalRun(limits, INITIAL, es) && PromptRun(limits, INITIAL, es, delay)
    requires ClockMonotone(Run(limits, INITIAL, es).calls)
    requires hi - lo + delay <= k * limits.windowMs
    ensures |MessagesBy(Run(limits, INITIAL, es).db, u, lo, hi)| <= Bound(limits, k)
  {
    var calls := Run(limits, INITIAL, es).calls;
    StoredAreAccepted(limits, es, u, lo, hi, delay);
    CountShorter(AcceptedLog(limits, calls, u), lo - delay, hi, lo - delay + k * limits.windowMs);
    RateBound(limits, calls, u, lo - delay, k);
  }

  // ---------- Without a bound on the delay there is none on what is stored together ----------

  function CallTime(w: nat, i: nat): nat {
    if i == 0 then 0 else CallTime(w, i - 1) + w
  }

  function DelayedSend(w: nat, i: nat, at: nat): Event {
    Send(0, 0, 0, ONE_LETTER, i, CallTime(w, i), at)
  }

  /** Calls a window apart, all stamped at the same late moment. */
  function DelayedSends(w: nat, n: nat, at: nat): seq<Event> {
    if n == 0 then [Create(0, Group, None, [], 0, 0)]
    else DelayedSends(w, n - 1, at) + [DelayedSend(w, n - 1, at)]
  }

  /** n messages stored, the limiter's window opened at the last call. */
  ghost predicate StoredTogether(w: nat, world: World, n: nat, at: nat) {
    && IsMember(world.db, 0, 0)
    && (forall m :: m in world.db.messages <==> 0 <= m < n)
    && (forall m :: m in world.db.messages ==> world.db.messages[m].sender == 0 && world.db.messages[m].createdAt == at)
    && (if n == 0 then world.buckets == map[]
        else 0 in world.buckets && world.buckets[0].windowStart == CallTime(w, n - 1))
    && |world.calls| == n && (forall i :: 0 <= i < n ==> world.calls[i].at == CallTime(w, i))
  }

  lemma DelayedSendNext(limits: Limits, world: World, n: nat, at: nat)
    requires limits.windowMs >= 1 && CallTime(limits.windowMs, n) <= at && StoredTogether(limits.windowMs, world, n, at)
    ensures var e := DelayedSend(limits.windowMs, n, at);
            var world' := Next(limits, world, e);
            && Legal(world, e)
            && world'.buckets == world.buckets[0 := Bucket(1, e.now)]
            && world'.calls == world.calls + [Call(0, 0, e.now)]
            && IsMember(world'.db, 0, 0)
            && world'.db.messages == world.db.messages[n := Message(0, 0, ONE_LETTER, Sent, at)]
  {
    OneLetterIsAccepted();
    assert Check(limits, world.buckets, 0, CallTime(limits.windowMs, n)).1;
  }

  lemma DelayedSendStores(limits: Limits, world: World, n: nat, at: nat)
    requires limits.windowMs >= 1 && CallTime(limits.windowMs, n) <= at && StoredTogether(limits.windowMs, world, n, at)
    ensures var e := DelayedSend(limits.windowMs, n, at);
            Legal(world, e) && StoredTogether(limits.windowMs, Next(limits, world, e), n + 1, at)
  {
    DelayedSendNext(limits, world, n, at);
  }

  /** However small the limit and however long the window, calls that wait long enough for their membership
      look-up are stored together: n messages with one `createdAt`, for every n. */
  lemma DelayedMessagesPileUp(limits: Limits, n: nat) returns (es: seq<Event>, at: nat)
    requires limits.windowMs >= 1
    ensures LegalRun(limits, INITIAL, es) && ClockMonotone(Run(limits, INITIAL, es).calls)
    ensures |MessagesBy(Run(limits, INITIAL, es).db, 0, at, at + 1)| == n
  {
    at := CallTime(limits.windowMs, n);
    es := DelayedSends(limits.windowMs, n, at);
    DelayedSendsStore(limits, n, at);
    var w := Run(limits, INITIAL, es);
    forall i, j | 0 <= i < j < |w.calls| ensures w.calls[i].at <= w.calls[j].at {
      CallTimesGrow(limits.windowMs, i, j);
    }
    assert MessagesBy(w.db, 0, at, at + 1) == UpTo(n);
  }

  ghost function UpTo(n: nat): (ids: set<MessageId>)
    ensures |ids| == n && forall m: nat :: m in ids <==> m < n
  {
    if n == 0 then {} else UpTo(n - 1) + {n - 1}
  }

  lemma {:induction false} CallTimesGrow(w: nat, i: nat, j: nat)
    requires i <= j
    ensures CallTime(w, i) <= CallTime(w, j)
  {
    if i < j {
      CallTimesGrow(w, i, j - 1);
    }
  }

  lemma {:induction false} DelayedSendsStore(limits: Limits, n: nat, at: nat)
    requires limits.windowMs >= 1 && CallTime(limits.windowMs, n) <= at
    ensures var es := DelayedSends(limits.windowMs, n, at);
            LegalRun(limits, INITIAL, es) && StoredTogether(limits.windowMs, Run(limits, INITIAL, es), n, at)
  {
    if n == 0 {
      FirstConversation(limits, at);
    } else {
      DelayedSendsStore(limits, n - 1, at);
      var before, e := DelayedSends(limits.windowMs, n - 1, at), DelayedSend(limits.windowMs, n - 1, at);
      DelayedSendStores(limits, Run(limits, INITIAL, before), n - 1, at);
      RunConcat(limits, INITIAL, before, [e]);
      RunOne(limits, Run(limits, INITIAL, before), e);
    }
  }

  lemma RunOne(limits: Limits, w: World, e: Event)
    ensures Run(limits, w, [e]) == Next(limits, w, e)
    ensures LegalRun(limits, w, [e]) <==> Legal(w, e)
  {
    assert [e][1..] == [];
  }

  lemma FirstConversation(limits: Limits, at: nat)
    requires limits.windowMs >= 1
    ensures var es := DelayedSends(limits.windowMs, 0, at);
            LegalRun(limits, INITIAL, es) && StoredTogether(limits.windowMs, Run(limits, INITIAL, es), 0, at)
  {
    var e := Create(0, Group, None, [], 0, 0);
    RunOne(limits, INITIAL, e);
    DistinctKeepsElements([0] + []);
    var members := Distinct([0] + []);
    assert 0 in Elements([0] + []) by { assert ([0] + [])[0] == 0; }
    assert 0 in Elements(members);
  }
}
