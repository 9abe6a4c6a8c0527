/** Names, session descriptions and the messages exchanged between the
    browser clients and the signalling relay. */
module Protocol {

  datatype Option<T> = None | Some(value: T)

  /** How a JavaScript promise settles: with a value, or by rejecting. */
  datatype Outcome<T> = Returned(value: T) | Threw

  /** The identity a user types in when joining. */
  type Email = string

  /** A room name chosen by the client; socket.io also names one room after every socket id. */
  type RoomId = string

  /** A socket.io connection id: never the empty string, so always truthy in JavaScript. */
  type SocketId = s: string | s != "" witness "socket"

  /** A media track, identified by its id. */
  type Track = string

  /** The opaque session-description text produced by the platform. */
  type Sdp = string

  datatype DescKind = OfferKind | AnswerKind

  /** A session description: its type tag, its opaque text, and the local
      tracks (senders) the platform advertised in it when it was created. */
  datatype Desc = Desc(kind: DescKind, sdp: Sdp, media: seq<Track>)

  /** Events a client emits to the relay. `email` and `offer` are null in
      JavaScript when the client holds no value; here that is `None`. The
      `callee` of call-user is sent as the `email` field. */
  datatype ClientMsg =
    | JoinRoom(email: Email, roomId: RoomId)
    | CallUser(callee: Option<Email>, offer: Option<Desc>)
    | CallAccepted(answer: Option<Desc>, socket: SocketId)

  /** Events the relay emits to clients. The incoming-call envelope carries the
      offer and the caller's socket id, and no email. */
  datatype ServerMsg =
    | UserConnected(email: Email)
    | IncomingCall(offer: Option<Desc>, socket: SocketId)
    | CallAccepted(answer: Option<Desc>)
}
