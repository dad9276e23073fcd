/**
 * Record shapes of the persisted collections (users, chats, messages,
 * notifications) and the identifier types shared by the server and the
 * browser client. Database ObjectIds are abstracted: a chat's or a message's
 * id is its position in its collection.
 */
module Models {

  datatype Option<+T> = None | Some(value: T)

  /** A user id as carried by sessions and socket events (a string). */
  type UserId = string
  /** A socket.io connection id. */
  type SocketId = string
  type ChatId = nat
  type MessageId = nat
  type NotificationId = nat

  /** JavaScript truthiness of a user id: the empty string stands for every falsy value. */
  predicate Truthy(u: UserId) {
    u != ""
  }

  /** models/User.js: `college` is stored upper-cased. */
  datatype User = User(id: UserId, name: string, email: string, college: string, avatarUrl: Option<string>)

  /** The `req.session.user` record written at login. */
  datatype SessionUser = SessionUser(id: UserId, name: string, college: string)

  /** models/Chat.js: `type` has the single value 'private', its default. */
  datatype ChatKind = Private

  datatype Chat = Chat(id: ChatId, kind: ChatKind, members: seq<UserId>, latestMessage: Option<MessageId>)

  /** The message record the socket handler creates (chat, sender, text) plus its timestamp. */
  datatype Message = Message(id: MessageId, chat: ChatId, sender: UserId, text: Option<string>, createdAt: int)

  /** models/Notification.js: `type` enumerates message, mention and invite, default message. */
  datatype NotificationKind = MessageKind | MentionKind | InviteKind

  /**
   * models/Notification.js: `data` is a free-form object, modelled as string
   * keys to string values; `read` defaults to false.
   */
  datatype Notification = Notification(
    id: NotificationId,
    user: UserId,
    actor: Option<UserId>,
    kind: NotificationKind,
    data: map<string, string>,
    read: bool,
    createdAt: int)

  /** Every chat's id is its position in the collection. */
  ghost predicate ChatIdsAreIndices(chats: seq<Chat>) {
    forall i :: 0 <= i < |chats| ==> chats[i].id == i
  }

  /** Every message's id is its position in the collection. */
  ghost predicate MessageIdsAreIndices(messages: seq<Message>) {
    forall i :: 0 <= i < |messages| ==> messages[i].id == i
  }
}
