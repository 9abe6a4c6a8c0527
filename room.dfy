/** The negotiation handlers of client/src/pages/RoomPage.jsx. A page holds
    the peer provider, the local stream, the remote user's email and the
    events it has emitted on its socket, in order. Each handler takes the
    platform's answers to the calls it makes (see module Peer). */
module Room {
  import opened Protocol
  import opened Peer

  class RoomPage {
    const context: PeerProvider
    var stream: Option<seq<Track>>
    var remoteEmail: Option<Email>
    var outbox: seq<ClientMsg>

    constructor (context: PeerProvider)
      ensures this.context == context
      ensures stream == None && remoteEmail == None && outbox == []
    {
      this.context := context;
      stream, remoteEmail, outbox := None, None, [];
    }

    /** getUserMediaStream with the media acquisition as a parameter (`None`
        when the user or the platform refuses): the stream is kept and sent. */
    method GetUserMediaStream(acquired: Option<seq<Track>>)
      modifies this, context.peer
      ensures stream == if acquired.Some? then acquired else old(stream)
      ensures context.peer.senders == old(context.peer.senders)
        + (if acquired.Some? then Missing(old(context.peer.senders), acquired.value) else [])
      ensures context.peer.localDesc == old(context.peer.localDesc)
      ensures context.peer.remoteDesc == old(context.peer.remoteDesc)
      ensures remoteEmail == old(remoteEmail) && outbox == old(outbox)
    {
      if acquired.Some? {
        stream := acquired;
        context.SendStream(acquired.value);
      }
    }

    /** user-connected: attach the held stream's tracks, then create an offer
        and send it, null when creation failed, to the new user's email, then
        remember that email. The offer advertises every track of the stream. */
    method HandleNewUser(email: Email, generated: Option<Sdp>, accepted: bool)
      modifies this, context.peer
      ensures context.peer.senders == old(context.peer.senders)
        + (if old(stream).Some? then Missing(old(context.peer.senders), old(stream).value) else [])
      ensures var offer := if generated.Some? && accepted
                           then Some(Desc(OfferKind, generated.value, context.peer.senders)) else None;
              && outbox == old(outbox) + [ClientMsg.CallUser(Some(email), offer)]
              && context.peer.localDesc == if offer.Some? then offer else old(context.peer.localDesc)
      ensures stream.Some? && generated.Some? && accepted ==>
                context.peer.localDesc.Some? &&
                forall t :: t in stream.value ==> t in context.peer.localDesc.value.media
      ensures remoteEmail == Some(email)
      ensures stream == old(stream) && context.peer.remoteDesc == old(context.peer.remoteDesc)
    {
      if stream.Some? {
        context.SendStream(stream.value);
        MissingCovers(old(context.peer.senders), stream.value);
      }
      var offer := context.CreateOffer(generated, accepted);
      outbox := outbox + [ClientMsg.CallUser(Some(email), offer)];
      remoteEmail := Some(email);
    }

    /** incoming-call: a null offer is ignored. Otherwise the offer is applied
        as the remote description (a rejection ends the handler), then an
        answer is created from it and sent back to the caller's socket id from
        the envelope. The remote email is then read from the envelope's email
        field, which the relay never sends, so it becomes undefined (`None`). */
    method HandleIncomingCall(
      offer: Option<Desc>, caller: SocketId,
      remoteAccepted: bool, answerRemoteAccepted: bool, generated: Option<Sdp>, localAccepted: bool)
      modifies this, context.peer
      ensures var answered := offer.Some? && remoteAccepted && answerRemoteAccepted && generated.Some? && localAccepted;
              var answer := Desc(AnswerKind, if generated.Some? then generated.value else "", old(context.peer.senders));
              && outbox == old(outbox) + (if answered then [ClientMsg.CallAccepted(Some(answer), caller)] else [])
              && remoteEmail == (if answered then None else old(remoteEmail))
              && context.peer.localDesc == (if answered then Some(answer) else old(context.peer.localDesc))
      ensures context.peer.remoteDesc == if offer.Some? && remoteAccepted then offer else old(context.peer.remoteDesc)
      ensures stream == old(stream) && context.peer.senders == old(context.peer.senders)
    {
      if offer.None? {
        return;
      }
      var resolved := context.peer.SetRemoteDescription(offer.value, remoteAccepted);
      if !resolved {
        return;
      }
      var r := context.CreateAnswer(offer, answerRemoteAccepted, generated, localAccepted);
      match r
      case Returned(answer) =>
        if answer.Some? {
          outbox := outbox + [ClientMsg.CallAccepted(answer, caller)];
          remoteEmail := None;
        }
      case Threw =>
    }

    /** call-accepted: a null answer is ignored; any other answer is applied as
        the remote description, whatever the negotiation state. Nothing is sent. */
    method HandleCallAccepted(answer: Option<Desc>, accepted: bool)
      modifies context.peer
      ensures context.peer.remoteDesc == if answer.Some? && accepted then answer else old(context.peer.remoteDesc)
      ensures context.peer.localDesc == old(context.peer.localDesc)
      ensures context.peer.senders == old(context.peer.senders)
    {
      if answer.Some? {
        var resolved := context.peer.SetRemoteDescription(answer.value, accepted);
      }
    }

    /** negotiationneeded: create an offer, make it the local description and
        send it to the current remote email (null when none is held); a
        rejection sends nothing. */
    method HandleNegotiationNeeded(generated: Option<Sdp>, accepted: bool)
      modifies this, context.peer
      ensures var created := generated.Some? && accepted;
              var offer := Desc(OfferKind, if generated.Some? then generated.value else "", context.peer.senders);
              && outbox == old(outbox) + (if created then [ClientMsg.CallUser(remoteEmail, Some(offer))] else [])
              && context.peer.localDesc == (if created then Some(offer) else old(context.peer.localDesc))
      ensures remoteEmail == old(remoteEmail) && stream == old(stream)
      ensures context.peer.senders == old(context.peer.senders)
      ensures context.peer.remoteDesc == old(context.peer.remoteDesc)
    {
      var created := context.peer.CreateOffer(generated);
      if created.Threw? {
        return;
      }
      var offer := created.value;
      var resolved := context.peer.SetLocalDescription(offer, accepted);
      if !resolved {
        return;
      }
      outbox := outbox + [ClientMsg.CallUser(remoteEmail, Some(offer))];
    }
  }
}
