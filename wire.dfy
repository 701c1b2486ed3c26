/** The values the chat server keeps and sends: sessions, messages, the
    outbound events of the socket protocol, and store failures. */
module Wire {

  /** An entry of the per-process `activeUsers` table, keyed by connection id. */
  datatype Session = Session(id: string, username: string, room: string, joinedAt: string)

  /** A chat message as it is stored in a room's list and broadcast. */
  datatype Message = Message(
    id: string,
    userId: string,
    username: string,
    message: string,
    room: string,
    timestamp: string)

  /** Who receives an emission: the calling socket only, every socket in a
      room, or every socket in a room except the sender. */
  datatype Target =
    | ToCaller(conn: string)
    | ToRoom(room: string)
    | ToRoomExcept(room: string, sender: string)

  /** The payload of each outbound event; `EventName` gives its wire name. */
  datatype Payload =
    | JoinSuccess(userId: string, room: string, memberCount: nat)
    | UserJoined(username: string, memberCount: nat, timestamp: string)
    | MessageReceived(data: Message)
    | TypingUser(username: string, isTyping: bool)
    | HistorySuccess(messages: seq<Message>)
    | UserLeft(username: string, memberCount: nat, timestamp: string)
    | ErrorNotice(message: string)

  function EventName(p: Payload): string
  {
    match p
    case JoinSuccess(_, _, _) => "user:join:success"
    case UserJoined(_, _, _) => "user:joined"
    case MessageReceived(_) => "message:received"
    case TypingUser(_, _) => "typing:user"
    case HistorySuccess(_) => "messages:history:success"
    case UserLeft(_, _, _) => "user:left"
    case ErrorNotice(_) => "error"
  }

  /** One outbound event, as appended to an instance's outbox. */
  datatype Emission = Emission(target: Target, payload: Payload)

  /** The error notice a handler's `catch` block sends to its own socket. */
  function ErrorTo(conn: string, text: string): (e: Emission)
    ensures e.target == ToCaller(conn) && EventName(e.payload) == "error"
  {
    Emission(ToCaller(conn), ErrorNotice(text))
  }

  /** How the store behaves during one handler: every call succeeds, or the
      `call`-th store call of the handler (counting from 0) throws `reason`;
      the calls before it have taken effect and the ones after it are not made. */
  datatype Fault = NoFault | FailAt(call: nat, reason: string)

  /** Store calls 0 through `i` of a handler all complete. */
  predicate Completes(f: Fault, i: nat)
  {
    !(f.FailAt? && f.call <= i)
  }
}
