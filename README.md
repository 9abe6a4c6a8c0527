# Signalling for a two-party WebRTC call, modelled in Dafny

This project models the control plane of a browser video-call site. It has three parts.

- **The relay** (`server/app.js`). A socket.io server keeps `emailToSocketMapping`, a map from email to socket id. It puts sockets into rooms and handles three events:
  - `join-room` registers the email, joins the room and tells the others with `user-connected`.
  - `call-user` routes an offer **by email** and sends it on as `incoming-call {offer, socket}`.
  - `call-accepted` routes an answer **by socket id**, with no registry involved.
- **The peer wrapper** (`client/src/provider/Peer.jsx`). It wraps one `RTCPeerConnection` with four helpers: `createOffer`, `createAnswer`, `sendStream` and `setRemoteDescription`.
- **The room page** (`client/src/pages/RoomPage.jsx`). Its handlers turn relay events into peer-state updates and outgoing events. They are `handleNewUser`, `handleIncomingCall`, `handleCallAccepted` and `handleNegotiationNeededEvent`, plus media acquisition.

Modules:

- `Protocol` (`protocol.dfy`) holds the names, the session descriptions and both directions of messages.
- `Relay` (`relay.dfy`) is class `Server`. Its fields are the connected `sockets`, `emailToSocket`, socket.io's `rooms` and an `outbox`. The outbox records each `emit` as a `Delivery`: the set of sockets it reaches, plus the event.
  - `socket.to(x)` and `socket.broadcast.to(x)` reach every socket in room `x` except the sender.
  - On connection, a socket joins the room named after its own id. That is how `socket.to(id)` reaches it.
  - Each handler's emission is given by a function: `JoinDeliveries`, `CallUserDeliveries` or `AcceptDeliveries`. `Received` gives what one socket receives.
- `Peer` (`peer.dfy`) has two classes.
  - `PeerConnection` stands in for the platform object. It has the fields `senders`, `localDesc` and `remoteDesc`, and one method per platform call.
  - `PeerProvider` holds the four helpers. `sendStream` is a loop over a snapshot of the senders, specified by the function `Missing`. `GrowingAdd` is a recursive reference function that checks each track against the growing list of senders instead.
- `Room` (`room.dfy`) is class `RoomPage`. Its fields are the provider, `stream`, `remoteEmail` and the page's `outbox` of emitted events.
- `Scenario` (`scenario.dfy`) runs the whole call. A joins, then B joins. A's offer reaches B, B's answer reaches A, and each peer ends with the other's description.

How the platform is represented:

- A platform call that can reject takes the platform's answer as a parameter. `generated: Option<Sdp>` is `None` when creation rejects. `accepted: bool` is false when the platform refuses a description.
- A rejected call changes nothing on the peer.
- A description `Desc` carries its type tag, its opaque text, and `media`: the senders there were when it was created. This makes "tracks are attached before the offer is made" something a contract can state.
- JavaScript `null` and `undefined` are `None`.

What the code does not do, and the model does not add:

- **User-connected goes one way only.** Only members already in the room hear of a join. The joiner hears of no one, so B never learns of A (`Scenario.TwoPartyCall`, `inboxB`).
- **No state guards.** No handler checks the negotiation state. `handleCallAccepted` applies any non-null answer. No offer is queued or limited to one in flight.
- **Failures can leave partial state.** `createAnswer` keeps the remote description it set when the later steps fail.
- **Nothing is removed.** No handler removes a registration. Nothing happens on disconnect.
- **The callee cannot renegotiate.** `handleIncomingCall` sets `remoteEmail` from the envelope's `email` field, which the relay never sends. The callee's `remoteEmail` is therefore undefined, so its renegotiation offers go to a null email and the relay drops them (`Scenario.RenegotiateUnaddressed`, `dropped` in `Scenario.TwoPartyCall`).

## Model

| member | source | states |
|---|---|---|
| `Relay.Joined` | server/app.js:25 | `socket.join`: the socket is now a member of the room, the room keeps all earlier members and gains no one else, and every other room is unchanged. |
| `Relay.Recipients` | server/app.js:26 | `socket.to(x)` and `socket.broadcast.to(x)`: exactly the members of room x other than the sender. The same targeting is used at server/app.js:35 and 48. |
| `Relay.Lookup` | server/app.js:33-34 | `emailToSocketMapping.get(email)` followed by the truthiness test: a socket exactly when the email is non-null and registered, and then the registered socket. |
| `Relay.JoinDeliveries` | server/app.js:25-26 | join-room emits one user-connected carrying the email. It reaches exactly the earlier members of the room other than the sender, and never the sender. |
| `Relay.CallUserDeliveries` | server/app.js:31-41 | call-user emits at most one event. It emits nothing exactly when the email is null or unregistered. Otherwise it emits incoming-call {offer, sender's socket id} to the mapped socket's room, minus the sender. |
| `Relay.AcceptDeliveries` | server/app.js:46-48 | call-accepted emits the bare answer to the named socket id's room, minus the sender. The registry is not an input at all. |
| `Relay.Received` | server/app.js:26-48 | The events one socket receives, in emission order. Each one was carried by an emission that reached that socket, and there are never more of them than emissions. |
| `Relay.ReceivedAppend` | server/app.js:26-48 | What a socket receives from two runs of emissions, one after the other, is what it receives from each, concatenated. |
| `Relay.AcceptReachesCaller` | server/app.js:48 | Under the relay invariant, call-accepted reaches the connected socket whose id it names, unless the answerer named itself. |
| `Relay.CallReachesCallee` | server/app.js:33-35 | Under the relay invariant, call-user to a registered email emits an event, and that event reaches the registered socket unless it is the caller. |
| `Relay.Server.constructor` | server/app.js:15 | The relay starts with no sockets, an empty registry, no rooms and no emissions. |
| `Relay.Server.Connect` | server/app.js:17-18 | A new connection joins the room named by its socket id. The registry and the emissions are unchanged. |
| `Relay.Server.JoinRoom` | server/app.js:21-27 | The email is mapped to the sender, overwriting any earlier socket, so the last registration wins. The sender joins the room, and the user-connected emission is appended. The relay invariant is kept. |
| `Relay.Server.CallUser` | server/app.js:30-42 | Appends the call-user emission, which is nothing for an unknown email. The registry, rooms and sockets are unchanged. |
| `Relay.Server.CallAccepted` | server/app.js:45-49 | Appends the answer emission addressed by socket id. The registry, rooms and sockets are unchanged. |
| `Relay.Server.Receive` | server/app.js:17-50 | Dispatches each event to its handler. Registry keys are never removed. Only join-room changes the registry or the rooms. |
| `Peer.Missing` | client/src/provider/Peer.jsx:53-61 | Each track sendStream adds is a track of the stream that was not a sender in the snapshot. It adds no more tracks than the stream holds. |
| `Peer.MissingSnoc` | client/src/provider/Peer.jsx:55-61 | One more loop iteration appends the track exactly when it is not in the snapshot. |
| `Peer.MissingCovers` | client/src/provider/Peer.jsx:53-61 | After sendStream, every track of the stream is among the senders. |
| `Peer.MissingNoneWhenCovered` | client/src/provider/Peer.jsx:56-59 | When every track is already a sender, sendStream adds nothing. |
| `Peer.MissingFromNothing` | client/src/provider/Peer.jsx:53-59 | On a peer with no senders, sendStream adds the stream's tracks in order. |
| `Peer.SendStreamIdempotent` | client/src/provider/Peer.jsx:56-59 | A second sendStream of the same stream adds nothing. |
| `Peer.SnapshotAgreesWithGrowing` | client/src/provider/Peer.jsx:53-59 | For distinct tracks, when the current list and the snapshot agree on them, the snapshot check adds what a growing-list check adds. |
| `Peer.SnapshotCheckIsSound` | client/src/provider/Peer.jsx:53-59 | For a stream of distinct tracks, the snapshot loop equals the growing-list loop. |
| `Peer.SnapshotAddsRepeatsTwice` | client/src/provider/Peer.jsx:53-56 | The check is against the snapshot. An unsent track listed twice is added twice, where the growing-list check adds it once. |
| `Peer.PeerProvider.constructor` | client/src/provider/Peer.jsx:13 | A fresh peer connection with no senders and no descriptions. |
| `Peer.PeerProvider.CreateOffer` | client/src/provider/Peer.jsx:16-31 | On success, returns the offer (advertising the current senders) and makes it the local description. On any rejection, returns null and leaves the local description as it was. Senders and the remote description are untouched. |
| `Peer.PeerProvider.CreateAnswer` | client/src/provider/Peer.jsx:35-50 | A null offer returns undefined and touches nothing. Otherwise the remote description is set first. The answer returns exactly when all three steps succeed, and then it is the local description. A rejection is rethrown and keeps the remote description already set. |
| `Peer.PeerProvider.SendStream` | client/src/provider/Peer.jsx:52-62 | The senders become the old senders followed by the stream's unsent tracks in stream order. Nothing is removed or reordered, and the descriptions are untouched. |
| `Peer.PeerProvider.SetRemoteDescription` | client/src/provider/Peer.jsx:65-72 | Applies the description, or rethrows the rejection and changes nothing. |
| `Room.RoomPage.constructor` | client/src/pages/RoomPage.jsx:6-11 | The page starts with no stream, no remote email and nothing emitted. |
| `Room.RoomPage.GetUserMediaStream` | client/src/pages/RoomPage.jsx:96-109 | Acquired media is kept as the stream and sent. A refusal changes nothing. |
| `Room.RoomPage.HandleNewUser` | client/src/pages/RoomPage.jsx:14-39 | The held stream's tracks are attached first, so a created offer advertises every one of them. Then call-user {email, offer} is emitted, with a null offer when creation failed. Then remoteEmail is the new user's email. |
| `Room.RoomPage.HandleIncomingCall` | client/src/pages/RoomPage.jsx:42-75 | A null offer or a rejected remote description emits nothing. Only when every step succeeds is call-accepted {answer, caller socket} emitted, the answer set as the local description and remoteEmail set to undefined. |
| `Room.RoomPage.HandleCallAccepted` | client/src/pages/RoomPage.jsx:78-93 | A null answer changes nothing. Any other answer becomes the remote description, with no state check. Nothing is emitted. |
| `Room.RoomPage.HandleNegotiationNeeded` | client/src/pages/RoomPage.jsx:112-122 | A created and applied offer becomes the local description and is emitted as call-user to the current remoteEmail, which may be null. A rejection emits nothing. |
| `Scenario.NewRelay` | server/app.js:15-18 | The relay after two connections: each socket alone in its own room. |
| `Scenario.NewPage` | client/src/pages/RoomPage.jsx:96-109 | A page after acquiring media: the stream's tracks are its senders. |
| `Scenario.JoinBoth` | server/app.js:21-27 | A then B join one room. A's join reaches no one, B's join reaches only A, and both emails are registered. |
| `Scenario.CallInboxes` | server/app.js:26-48 | From the four emissions of a call, A receives user-connected(B) and then the answer. B receives only the incoming call. |
| `Scenario.OfferStep` | client/src/pages/RoomPage.jsx:29-33 | A's offer becomes its local description. The relay forwards it to B's socket as {offer, socket: A}. |
| `Scenario.AnswerStep` | client/src/pages/RoomPage.jsx:53-66 | B sets the offer as its remote description and the answer as its local one. The relay forwards the bare answer to A's socket. |
| `Scenario.RenegotiateUnaddressed` | client/src/pages/RoomPage.jsx:112-122 | A page with no remote email that renegotiates sets a new local offer, and the relay emits nothing. |
| `Scenario.Handshake` | client/src/pages/RoomPage.jsx:14-93 | After offer and answer, A holds (offer, answer) and B holds (answer, offer) as local and remote descriptions. |
| `Scenario.TwoPartyCall` | client/src/pages/RoomPage.jsx:14-122 | The end-to-end call over the relay. A receives user-connected(B) and then the answer. B receives only {offer, socket: A}. Both peers hold a local and a remote description, crosswise. A's remoteEmail is B's email, and B's is undefined. B's renegotiation offer is dropped. |

## Left out

- HTTP and process setup: Express, the ports, logging and the `/` route (server/app.js:1-13, 52-63). These are I/O plumbing.
- Disconnection. The code has no disconnect handler, and the model has no disconnect event. socket.io's own removal of a closed socket from its rooms is therefore not modelled.
- The UI: rendering, video-element binding and the unused buttons (client/src/pages/RoomPage.jsx:124-130, 167-207). client/src/pages/Home.jsx, client/src/App.jsx and client/src/provider/Socket.jsx are not part of this model. In the scenario, join-room is handed to the relay directly.
- Listener registration and removal through `useEffect` (client/src/pages/RoomPage.jsx:133-165; client/src/provider/Peer.jsx:74-95). This includes remote-track delivery (`ontrack`, `remoteStream`).
- Concurrency. Each handler runs to completion with no interleaving. React's stale closures are not modelled: the handlers read the current `stream` and `remoteEmail`.
- Delivery from the relay to the clients. The relay's emissions are recorded. The scenario hands each one to the page whose socket it reaches.
- The platform's internals: SDP content, ICE, and signalling-state checks inside `RTCPeerConnection`. These appear only as the `generated` and `accepted` parameters. The platform methods of `Peer.PeerConnection` are stand-ins for it, not part of the source.
- `getUserMedia`. It becomes the `acquired` parameter of `Room.RoomPage.GetUserMediaStream`.
- Peer.PeerProvider.SendStream: does not model `addTrack` rejecting a track that already has a sender, since `getTracks()` never lists a track twice. A repeated track is simply added twice, as `Peer.SnapshotAddsRepeatsTwice` shows.
- Relay.Lookup: a null email is taken never to be a registry key, because join-room registrations come from the form's email string.
- Scenario.TwoPartyCall: assumes the room name differs from both socket ids. socket.io names a room after every socket id, so a room named like a socket would also reach that socket.
