/** The two-party call end to end: two pages, one relay, every event the
    relay emits handed to the page whose socket it reaches. */
module Scenario {
  import opened Protocol
  import opened Relay
  import opened Peer
  import opened Room

  /** A relay with sockets `a` and `b` connected and nothing else. */
  method NewRelay(a: SocketId, b: SocketId) returns (relay: Server)
    requires a != b
    ensures fresh(relay) && relay.Valid()
    ensures relay.sockets == {a, b} && relay.rooms == map[a := {a}, b := {b}]
    ensures relay.emailToSocket == map[] && relay.outbox == []
  {
    relay := new Server();
    assert Members(map[], a) + {a} == {a};
    relay.Connect(a);
    assert relay.rooms == map[a := {a}];
    assert Members(map[a := {a}], b) + {b} == {b};
    relay.Connect(b);
  }

  /** A page whose local media `tracks` was acquired and sent. */
  method NewPage(tracks: seq<Track>) returns (page: RoomPage)
    ensures fresh(page) && fresh(page.context.peer)
    ensures page.stream == Some(tracks) && page.context.peer.senders == tracks
    ensures page.context.peer.localDesc == None && page.context.peer.remoteDesc == None
    ensures page.remoteEmail == None && page.outbox == []
  {
    var provider := new PeerProvider();
    page := new RoomPage(provider);
    page.GetUserMediaStream(Some(tracks));
    MissingFromNothing(tracks);
  }

  /** A joins, then B joins, the same room: A's join reaches no one, B's join reaches A only. */
  method JoinBoth(relay: Server, a: SocketId, b: SocketId, emailA: Email, emailB: Email, room: RoomId)
    requires a != b && room != a && room != b && relay.Valid()
    requires relay.sockets == {a, b} && relay.rooms == map[a := {a}, b := {b}]
    requires relay.emailToSocket == map[] && relay.outbox == []
    modifies relay
    ensures relay.Valid() && relay.sockets == {a, b}
    ensures relay.outbox == [Delivery({}, UserConnected(emailA)), Delivery({a}, UserConnected(emailB))]
    ensures relay.emailToSocket == map[emailA := a][emailB := b]
    ensures Members(relay.rooms, a) - {b} == {a} && Members(relay.rooms, b) - {a} == {b}
  {
    assert Members(relay.rooms, room) + {a} == {a};
    relay.Receive(a, JoinRoom(emailA, room));
    assert relay.outbox[0].to == {};
    assert relay.rooms == map[a := {a}, b := {b}, room := {a}];
    relay.Receive(b, JoinRoom(emailB, room));
    assert relay.outbox[1].to == {a};
  }

  /** What each socket receives from the four emissions of a call. */
  lemma CallInboxes(a: SocketId, b: SocketId, joinA: ServerMsg, joinB: ServerMsg, incoming: ServerMsg, accepted: ServerMsg)
    requires a != b
    ensures var out := [Delivery({}, joinA), Delivery({a}, joinB), Delivery({b}, incoming), Delivery({a}, accepted)];
            Received(out, a) == [joinB, accepted] && Received(out, b) == [incoming]
  {
    var d0, d1, d2, d3 := Delivery({}, joinA), Delivery({a}, joinB), Delivery({b}, incoming), Delivery({a}, accepted);
    var out := [d0, d1, d2, d3];
    assert out == [d0] + [d1] + [d2] + [d3];
    forall s | s == a || s == b
      ensures Received(out, s) == Received([d0], s) + Received([d1], s) + Received([d2], s) + Received([d3], s)
    {
      ReceivedAppend([d0] + [d1] + [d2], [d3], s);
      ReceivedAppend([d0] + [d1], [d2], s);
      ReceivedAppend([d0], [d1], s);
    }
    ReceivedOne(d0, a); ReceivedOne(d1, a); ReceivedOne(d2, a); ReceivedOne(d3, a);
    ReceivedOne(d0, b); ReceivedOne(d1, b); ReceivedOne(d2, b); ReceivedOne(d3, b);
  }

  /** A, told that `emailB` joined, attaches its tracks and offers to that
      email; the relay forwards the offer in an envelope naming A's socket. */
  method OfferStep(relay: Server, pageA: RoomPage, a: SocketId, b: SocketId, emailB: Email,
                   tracksA: seq<Track>, offerSdp: Sdp)
    requires relay.Valid() && a in relay.sockets
    requires emailB in relay.emailToSocket && relay.emailToSocket[emailB] == b
    requires Members(relay.rooms, b) - {a} == {b}
    requires pageA.stream == Some(tracksA) && pageA.context.peer.senders == tracksA && pageA.outbox == []
    modifies relay, pageA, pageA.context.peer
    ensures relay.Valid() && relay.sockets == old(relay.sockets)
    ensures relay.emailToSocket == old(relay.emailToSocket) && relay.rooms == old(relay.rooms)
    ensures relay.outbox == old(relay.outbox) + [Delivery({b}, IncomingCall(Some(Desc(OfferKind, offerSdp, tracksA)), a))]
    ensures pageA.context.peer.localDesc == Some(Desc(OfferKind, offerSdp, tracksA))
    ensures pageA.context.peer.remoteDesc == old(pageA.context.peer.remoteDesc)
    ensures pageA.remoteEmail == Some(emailB)
  {
    pageA.HandleNewUser(emailB, Some(offerSdp), true);
    MissingNoneWhenCovered(tracksA, tracksA);
    assert pageA.context.peer.senders == tracksA + [] == tracksA;
    assert pageA.outbox == [ClientMsg.CallUser(Some(emailB), Some(Desc(OfferKind, offerSdp, tracksA)))];
    relay.Receive(a, pageA.outbox[0]);
  }

  /** B, handed the envelope, applies the offer, answers to the caller's
      socket id, and the relay forwards the bare answer to that socket. */
  method AnswerStep(relay: Server, pageB: RoomPage, a: SocketId, b: SocketId, offer: Desc,
                    tracksB: seq<Track>, answerSdp: Sdp)
    requires relay.Valid() && b in relay.sockets
    requires Members(relay.rooms, a) - {b} == {a}
    requires pageB.context.peer.senders == tracksB && pageB.outbox == []
    modifies relay, pageB, pageB.context.peer
    ensures relay.Valid() && relay.sockets == old(relay.sockets)
    ensures relay.emailToSocket == old(relay.emailToSocket) && relay.rooms == old(relay.rooms)
    ensures relay.outbox == old(relay.outbox) + [Delivery({a}, ServerMsg.CallAccepted(Some(Desc(AnswerKind, answerSdp, tracksB))))]
    ensures pageB.context.peer.localDesc == Some(Desc(AnswerKind, answerSdp, tracksB))
    ensures pageB.context.peer.remoteDesc == Some(offer)
    ensures pageB.remoteEmail == None
  {
    pageB.HandleIncomingCall(Some(offer), a, true, true, Some(answerSdp), true);
    assert pageB.outbox == [ClientMsg.CallAccepted(Some(Desc(AnswerKind, answerSdp, tracksB)), a)];
    relay.Receive(b, pageB.outbox[0]);
  }

  /** A page without a remote email renegotiates: its offer is addressed to
      null and the relay emits nothing. */
  method RenegotiateUnaddressed(relay: Server, page: RoomPage, s: SocketId, sdp: Sdp)
    requires relay.Valid() && s in relay.sockets && page.remoteEmail == None
    modifies relay, page, page.context.peer
    ensures relay.Valid() && relay.outbox == old(relay.outbox)
    ensures page.context.peer.localDesc == Some(Desc(OfferKind, sdp, page.context.peer.senders))
  {
    var sent := |page.outbox|;
    page.HandleNegotiationNeeded(Some(sdp), true);
    relay.Receive(s, page.outbox[sent]);
  }

  /** The offer/answer exchange between two pages that have both joined. */
  method Handshake(relay: Server, pageA: RoomPage, pageB: RoomPage, a: SocketId, b: SocketId, emailB: Email,
                   tracksA: seq<Track>, tracksB: seq<Track>, offerSdp: Sdp, answerSdp: Sdp)
    requires pageA != pageB && pageA.context.peer != pageB.context.peer
    requires relay.Valid() && a in relay.sockets && b in relay.sockets
    requires emailB in relay.emailToSocket && relay.emailToSocket[emailB] == b
    requires Members(relay.rooms, a) - {b} == {a} && Members(relay.rooms, b) - {a} == {b}
    requires pageA.stream == Some(tracksA) && pageA.context.peer.senders == tracksA && pageA.outbox == []
    requires pageB.context.peer.senders == tracksB && pageB.outbox == []
    modifies relay, pageA, pageA.context.peer, pageB, pageB.context.peer
    ensures relay.Valid() && relay.sockets == old(relay.sockets)
    ensures var offer := Desc(OfferKind, offerSdp, tracksA);
            var answer := Desc(AnswerKind, answerSdp, tracksB);
            && relay.outbox == old(relay.outbox) + [Delivery({b}, IncomingCall(Some(offer), a)),
                                                    Delivery({a}, ServerMsg.CallAccepted(Some(answer)))]
            && pageA.context.peer.localDesc == Some(offer) && pageA.context.peer.remoteDesc == Some(answer)
            && pageB.context.peer.localDesc == Some(answer) && pageB.context.peer.remoteDesc == Some(offer)
    ensures pageA.remoteEmail == Some(emailB) && pageB.remoteEmail == None
  {
    var offer := Desc(OfferKind, offerSdp, tracksA);
    var answer := Desc(AnswerKind, answerSdp, tracksB);
    var out := relay.outbox;
    OfferStep(relay, pageA, a, b, emailB, tracksA, offerSdp);
    AnswerStep(relay, pageB, a, b, offer, tracksB, answerSdp);
    pageA.HandleCallAccepted(Some(answer), true);
    assert relay.outbox == out + [Delivery({b}, IncomingCall(Some(offer), a))]
                              + [Delivery({a}, ServerMsg.CallAccepted(Some(answer)))];
  }

  /** A holds tracksA and joins room `room` on socket `a`; B holds tracksB and
      joins the same room on socket `b`. A hears of B and offers; the relay
      routes the offer to B by email; B answers; the relay routes the answer
      to A by socket id; A applies it. Both peers end with a local and a remote
      description: A's offer and B's answer, crosswise. B never hears of A's
      join, and B is left without a remote email, so an offer B makes on
      renegotiation is addressed to null and the relay drops it. */
  method TwoPartyCall(
    a: SocketId, b: SocketId, emailA: Email, emailB: Email, room: RoomId,
    tracksA: seq<Track>, tracksB: seq<Track>, offerSdp: Sdp, answerSdp: Sdp, renegotiationSdp: Sdp)
    returns (inboxA: seq<ServerMsg>, inboxB: seq<ServerMsg>,
             localA: Option<Desc>, remoteA: Option<Desc>, localB: Option<Desc>, remoteB: Option<Desc>,
             remoteEmailA: Option<Email>, remoteEmailB: Option<Email>, dropped: bool)
    requires a != b && room != a && room != b
    ensures var offer := Desc(OfferKind, offerSdp, tracksA);
            var answer := Desc(AnswerKind, answerSdp, tracksB);
            && inboxA == [UserConnected(emailB), ServerMsg.CallAccepted(Some(answer))]
            && inboxB == [IncomingCall(Some(offer), a)]
            && localA == Some(offer) && remoteA == Some(answer)
            && localB == Some(answer) && remoteB == Some(offer)
    ensures remoteEmailA == Some(emailB) && remoteEmailB == None
    ensures dropped
  {
    var relay := NewRelay(a, b);
    var pageA := NewPage(tracksA);
    var pageB := NewPage(tracksB);
    JoinBoth(relay, a, b, emailA, emailB, room);
    var offer := Desc(OfferKind, offerSdp, tracksA);
    var answer := Desc(AnswerKind, answerSdp, tracksB);
    var d0, d1 := Delivery({}, UserConnected(emailA)), Delivery({a}, UserConnected(emailB));
    var d2, d3 := Delivery({b}, IncomingCall(Some(offer), a)), Delivery({a}, ServerMsg.CallAccepted(Some(answer)));

    // A hears user-connected(emailB) and offers to that email; B answers.
    assert relay.outbox[1].msg.email == emailB;
    Handshake(relay, pageA, pageB, a, b, relay.outbox[1].msg.email, tracksA, tracksB, offerSdp, answerSdp);
    assert relay.outbox == [d0, d1] + [d2, d3] == [d0, d1, d2, d3];

    localA, remoteA := pageA.context.peer.localDesc, pageA.context.peer.remoteDesc;
    localB, remoteB := pageB.context.peer.localDesc, pageB.context.peer.remoteDesc;
    remoteEmailA, remoteEmailB := pageA.remoteEmail, pageB.remoteEmail;

    // B renegotiates: its offer goes to a null email and reaches no one.
    var before := relay.outbox;
    RenegotiateUnaddressed(relay, pageB, b, renegotiationSdp);
    dropped := relay.outbox == before;

    CallInboxes(a, b, UserConnected(emailA), UserConnected(emailB),
                IncomingCall(Some(offer), a), ServerMsg.CallAccepted(Some(answer)));
    inboxA := Received(relay.outbox, a);
    inboxB := Received(relay.outbox, b);
  }
}
