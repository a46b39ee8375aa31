/** Identifiers, stored documents and the database of the chat server. Identifiers are canonical, so
    equality of identifiers is equality of the numbers that stand for them. */
module Domain {
  import opened Sanitize

  type UserId = nat
  type ConversationId = nat
  type MessageId = nat
  type SocketId = nat

  datatype Option<+T> = None | Some(value: T)
  datatype Result<+T> = Ok(value: T) | NotFound

  datatype Status = Sent | Delivered | Read

  function Rank(s: Status): nat {
    match s case Sent => 0 case Delivered => 1 case Read => 2
  }

  datatype Message = Message(conversation: ConversationId, sender: UserId, text: Text, status: Status, createdAt: nat)

  datatype Kind = Direct | Group

  datatype Conversation = Conversation(kind: Kind, name: Option<Text>, members: seq<UserId>,
                                       lastMessage: Option<MessageId>, updatedAt: nat)

  datatype Store = Store(conversations: map<ConversationId, Conversation>, messages: map<MessageId, Message>)

  const EMPTY_STORE := Store(map[], map[])

  /** `Conversation.findOne({ _id, members: userId })` finds something. */
  predicate IsMember(db: Store, c: ConversationId, u: UserId) {
    c in db.conversations && u in db.conversations[c].members
  }
}
