/** The signalling relay of server/app.js: a registry from email to socket id,
    the socket.io room memberships, and the three message handlers. Every
    emission is recorded in an outbox, in order, with the set of sockets it
    reaches. */
module Relay {
  import opened Protocol

  /** One `emit`: the sockets it reaches and the event it carries. */
  datatype Delivery = Delivery(to: set<SocketId>, msg: ServerMsg)

  /** The sockets currently in room `x` (none when the room does not exist). */
  function Members(rooms: map<RoomId, set<SocketId>>, x: RoomId): set<SocketId>
  {
    if x in rooms then rooms[x] else {}
  }

  /** `socket.join(x)`: the room map after `s` joins room `x`. */
  function Joined(rooms: map<RoomId, set<SocketId>>, x: RoomId, s: SocketId): (r: map<RoomId, set<SocketId>>)
    ensures s in Members(r, x)
    ensures forall t :: t in Members(r, x) <==> t in Members(rooms, x) || t == s
    ensures forall y :: y != x ==> Members(r, y) == Members(rooms, y)
  {
    rooms[x := Members(rooms, x) + {s}]
  }

  /** Who `socket.to(x).emit(...)` and `socket.broadcast.to(x).emit(...)`
      reach: every socket in room `x` except the sending socket. */
  function Recipients(rooms: map<RoomId, set<SocketId>>, x: RoomId, sender: SocketId): (r: set<SocketId>)
    ensures sender !in r
    ensures forall t :: t in r <==> t in Members(rooms, x) && t != sender
  {
    Members(rooms, x) - {sender}
  }

  /** `emailToSocketMapping.get(email)`; a null email is never a key, since
      join-room registers only strings. */
  function Lookup(registry: map<Email, SocketId>, email: Option<Email>): (r: Option<SocketId>)
    ensures r.Some? <==> email.Some? && email.value in registry
    ensures r.Some? ==> r.value == registry[email.value]
  {
    if email.Some? && email.value in registry then Some(registry[email.value]) else None
  }

  /** The emission of join-room, given the rooms before the join: one
      user-connected event carrying the email, reaching every earlier member
      of the room and never the joining socket. */
  function JoinDeliveries(rooms: map<RoomId, set<SocketId>>, roomId: RoomId, sender: SocketId, email: Email)
    : (r: seq<Delivery>)
    ensures |r| == 1 && r[0].msg == UserConnected(email)
    ensures sender !in r[0].to
    ensures forall s :: s in r[0].to <==> s in Members(rooms, roomId) && s != sender
  {
    [Delivery(Recipients(Joined(rooms, roomId, sender), roomId, sender), UserConnected(email))]
  }

  /** The emission of call-user: exactly one incoming-call, carrying the offer
      and the caller's socket id, to the socket registered for the email;
      nothing when the email is not registered. */
  function CallUserDeliveries(
    registry: map<Email, SocketId>, rooms: map<RoomId, set<SocketId>>,
    sender: SocketId, email: Option<Email>, offer: Option<Desc>)
    : (r: seq<Delivery>)
    ensures |r| <= 1
    ensures r == [] <==> email.None? || email.value !in registry
    ensures r != [] ==> r[0].msg == IncomingCall(offer, sender)
    ensures r != [] ==> r[0].to == Members(rooms, registry[email.value]) - {sender}
  {
    match Lookup(registry, email)
    case Some(callee) => [Delivery(Recipients(rooms, callee, sender), IncomingCall(offer, sender))]
    case None => []
  }

  /** The emission of call-accepted: the bare answer, to the socket id the
      answerer names, with no registry involved. */
  function AcceptDeliveries(rooms: map<RoomId, set<SocketId>>, sender: SocketId, caller: SocketId, answer: Option<Desc>)
    : (r: seq<Delivery>)
    ensures |r| == 1 && r[0].msg == ServerMsg.CallAccepted(answer)
    ensures forall s :: s in r[0].to <==> s in Members(rooms, caller) && s != sender
  {
    [Delivery(Recipients(rooms, caller, sender), ServerMsg.CallAccepted(answer))]
  }

  /** The events socket `s` receives from a sequence of emissions, in order. */
  function Received(out: seq<Delivery>, s: SocketId): (r: seq<ServerMsg>)
    ensures |r| <= |out|
    ensures forall m :: m in r ==> exists d :: d in out && s in d.to && d.msg == m
  {
    if out == [] then []
    else
      var last := out[|out| - 1];
      Received(out[..|out| - 1], s) + (if s in last.to then [last.msg] else [])
  }

  lemma {:induction false} ReceivedAppend(out: seq<Delivery>, more: seq<Delivery>, s: SocketId)
    ensures Received(out + more, s) == Received(out, s) + Received(more, s)
    decreases |more|
  {
    if more == [] {
      assert out + more == out;
    } else {
      var init := more[..|more| - 1];
      assert (out + more)[..|out + more| - 1] == out + init;
      ReceivedAppend(out, init, s);
    }
  }

  lemma ReceivedOne(d: Delivery, s: SocketId)
    ensures Received([d], s) == if s in d.to then [d.msg] else []
  {
    assert [d][..0] == [];
  }

  class Server {
    /** The connected sockets. */
    var sockets: set<SocketId>
    /** `emailToSocketMapping` */
    var emailToSocket: map<Email, SocketId>
    /** socket.io's room table; every socket is also in the room named by its id. */
    var rooms: map<RoomId, set<SocketId>>
    /** Every emission, in order. */
    var outbox: seq<Delivery>

    /** The registry and the rooms name only connected sockets, every connected
        socket is in its own room, and every emission reached connected sockets only. */
    ghost predicate Valid()
      reads this
    {
      && (forall e :: e in emailToSocket ==> emailToSocket[e] in sockets)
      && (forall x, s :: x in rooms && s in rooms[x] ==> s in sockets)
      && (forall s :: s in sockets ==> s in Members(rooms, s))
      && (forall i :: 0 <= i < |outbox| ==> outbox[i].to <= sockets)
    }

    constructor ()
      ensures Valid()
      ensures sockets == {} && emailToSocket == map[] && rooms == map[] && outbox == []
    {
      sockets, emailToSocket, rooms, outbox := {}, map[], map[], [];
    }

    /** A new connection: socket.io puts the socket into the room named by its id. */
    method Connect(s: SocketId)
      requires Valid()
      modifies this
      ensures Valid()
      ensures sockets == old(sockets) + {s}
      ensures rooms == Joined(old(rooms), s, s)
      ensures emailToSocket == old(emailToSocket) && outbox == old(outbox)
    {
      sockets := sockets + {s};
      rooms := Joined(rooms, s, s);
    }

    /** join-room: the email now maps to the sender (overwriting any earlier
        socket), the sender joins the room, and the other members hear of it. */
    method JoinRoom(sender: SocketId, email: Email, roomId: RoomId)
      requires Valid() && sender in sockets
      modifies this
      ensures Valid()
      ensures emailToSocket == old(emailToSocket)[email := sender]
      ensures rooms == Joined(old(rooms), roomId, sender)
      ensures outbox == old(outbox) + JoinDeliveries(old(rooms), roomId, sender, email)
      ensures sockets == old(sockets)
    {
      emailToSocket := emailToSocket[email := sender];
      var before := rooms;
      rooms := Joined(rooms, roomId, sender);
      outbox := outbox + [Delivery(Recipients(rooms, roomId, sender), UserConnected(email))];
      assert outbox == old(outbox) + JoinDeliveries(before, roomId, sender, email);
    }

    /** call-user: routes the offer by email; an unknown email is dropped. */
    method CallUser(sender: SocketId, email: Option<Email>, offer: Option<Desc>)
      requires Valid() && sender in sockets
      modifies this
      ensures Valid()
      ensures outbox == old(outbox) + CallUserDeliveries(emailToSocket, rooms, sender, email, offer)
      ensures emailToSocket == old(emailToSocket) && rooms == old(rooms) && sockets == old(sockets)
    {
      var callee := Lookup(emailToSocket, email);
      if callee.Some? {
        outbox := outbox + [Delivery(Recipients(rooms, callee.value, sender), IncomingCall(offer, sender))];
      }
    }

    /** call-accepted: routes the answer by the socket id in the request. */
    method CallAccepted(sender: SocketId, answer: Option<Desc>, caller: SocketId)
      requires Valid() && sender in sockets
      modifies this
      ensures Valid()
      ensures outbox == old(outbox) + AcceptDeliveries(rooms, sender, caller, answer)
      ensures emailToSocket == old(emailToSocket) && rooms == old(rooms) && sockets == old(sockets)
    {
      outbox := outbox + [Delivery(Recipients(rooms, caller, sender), ServerMsg.CallAccepted(answer))];
    }

    /** The handler the relay registered for the event's name. No handler
        removes a registration: the registry only gains or overwrites keys. */
    method Receive(sender: SocketId, m: ClientMsg)
      requires Valid() && sender in sockets
      modifies this
      ensures Valid()
      ensures old(emailToSocket).Keys <= emailToSocket.Keys
      ensures sockets == old(sockets)
      ensures outbox == old(outbox) + match m
        case JoinRoom(email, roomId) => JoinDeliveries(old(rooms), roomId, sender, email)
        case CallUser(email, offer) => CallUserDeliveries(old(emailToSocket), old(rooms), sender, email, offer)
        case CallAccepted(answer, caller) => AcceptDeliveries(old(rooms), sender, caller, answer)
      ensures !m.JoinRoom? ==> emailToSocket == old(emailToSocket) && rooms == old(rooms)
      ensures m.JoinRoom? ==> emailToSocket == old(emailToSocket)[m.email := sender]
                              && rooms == Joined(old(rooms), m.roomId, sender)
    {
      match m
      case JoinRoom(email, roomId) => JoinRoom(sender, email, roomId);
      case CallUser(email, offer) => CallUser(sender, email, offer);
      case CallAccepted(answer, caller) => CallAccepted(sender, answer, caller);
    }
  }

  /** call-accepted reaches the socket it names: every connected socket is in
      the room named by its id, so the answer arrives unless the answerer named
      itself. */
  lemma AcceptReachesCaller(s: Server, sender: SocketId, caller: SocketId, answer: Option<Desc>)
    requires s.Valid() && caller in s.sockets && caller != sender
    ensures caller in AcceptDeliveries(s.rooms, sender, caller, answer)[0].to
  {
  }

  /** call-user reaches the socket registered for the email, unless that is the
      caller itself. */
  lemma CallReachesCallee(s: Server, sender: SocketId, e: Email, offer: Option<Desc>)
    requires s.Valid() && e in s.emailToSocket && s.emailToSocket[e] != sender
    ensures CallUserDeliveries(s.emailToSocket, s.rooms, sender, Some(e), offer) != []
    ensures s.emailToSocket[e] in CallUserDeliveries(s.emailToSocket, s.rooms, sender, Some(e), offer)[0].to
  {
  }
}
