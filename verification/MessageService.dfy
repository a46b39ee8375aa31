/** src/services/message.service.ts, each call taken as one step on the store. */
module MessageService {
  import opened Domain
  import opened Sanitize

  /** The store after `createMessage`: the new message, and the conversation's `lastMessage` and `updatedAt`. */
  function AfterCreate(db: Store, sender: UserId, c: ConversationId, text: Text, id: MessageId,
                       now: nat): Result<Store> {
    if !IsMember(db, c, sender) then NotFound else
      Ok(Store(db.conversations[c := db.conversations[c].(lastMessage := Some(id), updatedAt := now)],
               db.messages[id := Message(c, sender, text, Sent, now)]))
  }

  function AfterDelivered(db: Store, id: MessageId, u: UserId): Result<Store> {
    if id !in db.messages || !IsMember(db, db.messages[id].conversation, u) then NotFound
    else if db.messages[id].status == Sent then
      Ok(db.(messages := db.messages[id := db.messages[id].(status := Delivered)]))
    else
      Ok(db)
  }

  /** The messages a read acknowledgement finds: others' messages, not yet read, up to the given one. */
  function ReadTargets(db: Store, c: ConversationId, upTo: MessageId, u: UserId): set<MessageId>
    requires upTo in db.messages
  {
    set m | m in db.messages && db.messages[m].conversation == c && db.messages[m].sender != u &&
            db.messages[m].status != Read && db.messages[m].createdAt <= db.messages[upTo].createdAt
  }

  function SetRead(messages: map<MessageId, Message>, ids: set<MessageId>): map<MessageId, Message> {
    map m | m in messages :: if m in ids then messages[m].(status := Read) else messages[m]
  }

  function AfterRead(db: Store, c: ConversationId, upTo: MessageId, u: UserId): Result<(Store, set<MessageId>)> {
    if !IsMember(db, c, u) then NotFound
    else if upTo !in db.messages || db.messages[upTo].conversation != c then NotFound
    else
      var ids := ReadTargets(db, c, upTo, u);
      Ok((db.(messages := SetRead(db.messages, ids)), ids))
  }

  /** The two collections the service reads and writes. */
  class Collections {
    var conversations: map<ConversationId, Conversation>
    var messages: map<MessageId, Message>

    constructor ()
      ensures State() == EMPTY_STORE
    {
      conversations, messages := map[], map[];
    }

    function State(): Store
      reads this
    {
      Store(conversations, messages)
    }

    method CreateMessage(sender: UserId, c: ConversationId, text: Text, id: MessageId, now: nat)
      returns (r: Result<Message>)
      requires id !in messages
      modifies this
      ensures var expected := AfterCreate(old(State()), sender, c, text, id, now);
              (r.Ok? <==> expected.Ok?) && State() == (if expected.Ok? then expected.value else old(State()))
      ensures r.Ok? <==> c in old(conversations) && sender in old(conversations)[c].members
      ensures r.Ok? ==>
                && r.value == Message(c, sender, text, Sent, now) && messages == old(messages)[id := r.value]
                && conversations.Keys == old(conversations).Keys
                && conversations[c] == old(conversations)[c].(lastMessage := Some(id), updatedAt := now)
                && forall d :: d in conversations && d != c ==> conversations[d] == old(conversations)[d]
      ensures !r.Ok? ==> messages == old(messages) && conversations == old(conversations)
    {
      if c !in conversations || sender !in conversations[c].members {
        return NotFound;
      }
      var conversation := conversations[c];
      var message := Message(c, sender, text, Sent, now);
      messages := messages[id := message];
      conversations := conversations[c := conversation.(lastMessage := Some(id), updatedAt := now)];
      return Ok(message);
    }

    method MarkMessageDelivered(id: MessageId, u: UserId) returns (r: Result<ConversationId>)
      modifies this
      ensures var expected := AfterDelivered(old(State()), id, u);
              (r.Ok? <==> expected.Ok?) && State() == (if expected.Ok? then expected.value else old(State()))
      ensures r.Ok? <==>
                && id in old(messages) && old(messages)[id].conversation in old(conversations)
                && u in old(conversations)[old(messages)[id].conversation].members
      ensures conversations == old(conversations) && messages.Keys == old(messages).Keys
      ensures r.Ok? ==> r.value == messages[id].conversation && Rank(messages[id].status) >= 1
      ensures forall m :: m in messages ==>
                messages[m] == if r.Ok? && m == id && old(messages)[m].status == Sent
                               then old(messages)[m].(status := Delivered) else old(messages)[m]
    {
      if id !in messages {
        return NotFound;
      }
      var message := messages[id];
      if !IsMember(State(), message.conversation, u) {
        return NotFound;
      }
      if message.status == Sent {
        message := message.(status := Delivered);
        messages := messages[id := message];
      }
      return Ok(message.conversation);
    }

    method MarkMessagesRead(c: ConversationId, upTo: MessageId, u: UserId) returns (r: Result<set<MessageId>>)
      modifies this
      ensures var expected := AfterRead(old(State()), c, upTo, u);
              (r.Ok? <==> expected.Ok?) &&
              State() == (if expected.Ok? then expected.value.0 else old(State())) &&
              (r.Ok? ==> r.value == expected.value.1)
      ensures r.Ok? <==>
                && c in old(conversations) && u in old(conversations)[c].members
                && upTo in old(messages) && old(messages)[upTo].conversation == c
      ensures conversations == old(conversations) && messages.Keys == old(messages).Keys
      ensures r.Ok? ==>
                forall m :: m in messages && messages[m].conversation == c && messages[m].sender != u &&
                            messages[m].createdAt <= messages[upTo].createdAt ==>
                  messages[m].status == Read && (m in r.value <==> old(messages)[m].status != Read)
      ensures forall m :: m in messages ==>
                messages[m] == if r.Ok? && m in r.value then old(messages)[m].(status := Read) else old(messages)[m]
      ensures r.Ok? ==>
                forall m :: m in r.value ==>
                  && m in messages && messages[m].conversation == c && messages[m].sender != u
                  && messages[m].createdAt <= messages[upTo].createdAt
    {
      if !IsMember(State(), c, u) {
        return NotFound;
      }
      if upTo !in messages || messages[upTo].conversation != c {
        return NotFound;
      }
      var ids := set m | m in messages && messages[m].conversation == c && messages[m].sender != u &&
                         messages[m].status != Read && messages[m].createdAt <= messages[upTo].createdAt;
      if |ids| > 0 {
        messages := SetRead(messages, ids);
      } else {
        assert SetRead(messages, ids) == messages;
      }
      return Ok(ids);
    }
  }
}
