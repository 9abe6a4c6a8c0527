/** The peer wrapper of client/src/provider/Peer.jsx, over an abstract
    RTCPeerConnection. Platform calls that may reject take the platform's
    answer as a parameter: the SDP it generates (`None` when it rejects) or
    whether it accepts a description. A rejected call changes nothing. */
module Peer {
  import opened Protocol

  /** The tracks that `sendStream` adds, in `getTracks()` order: those of
      `tracks` that are not in the `snapshot` of senders taken before the loop. */
  function Missing(snapshot: seq<Track>, tracks: seq<Track>): (r: seq<Track>)
    ensures |r| <= |tracks|
    ensures forall t :: t in r ==> t in tracks && t !in snapshot
  {
    if tracks == [] then []
    else (if tracks[0] in snapshot then [] else [tracks[0]]) + Missing(snapshot, tracks[1..])
  }

  /** A reference add-track loop that checks each track against the GROWING
      sender list instead of a snapshot. */
  function GrowingAdd(current: seq<Track>, tracks: seq<Track>): seq<Track>
    decreases |tracks|
  {
    if tracks == [] then current
    else GrowingAdd(if tracks[0] in current then current else current + [tracks[0]], tracks[1..])
  }

  predicate Distinct(tracks: seq<Track>)
  {
    forall i, j :: 0 <= i < j < |tracks| ==> tracks[i] != tracks[j]
  }

  lemma {:induction false} MissingSnoc(snapshot: seq<Track>, tracks: seq<Track>, t: Track)
    ensures Missing(snapshot, tracks + [t]) == Missing(snapshot, tracks) + (if t in snapshot then [] else [t])
    decreases |tracks|
  {
    if tracks == [] {
      assert tracks + [t] == [t];
    } else {
      assert (tracks + [t])[1..] == tracks[1..] + [t];
      MissingSnoc(snapshot, tracks[1..], t);
    }
  }

  /** After the loop every track of the stream is among the senders. */
  lemma {:induction false} MissingCovers(snapshot: seq<Track>, tracks: seq<Track>)
    ensures forall t :: t in tracks ==> t in snapshot + Missing(snapshot, tracks)
    decreases |tracks|
  {
    if tracks != [] {
      MissingCovers(snapshot, tracks[1..]);
      forall t | t in tracks
        ensures t in snapshot + Missing(snapshot, tracks)
      {
        if t != tracks[0] {
          assert t in tracks[1..];
        }
      }
    }
  }

  /** Nothing is missing from senders that already hold every track. */
  lemma {:induction false} MissingNoneWhenCovered(senders: seq<Track>, tracks: seq<Track>)
    requires forall t :: t in tracks ==> t in senders
    ensures Missing(senders, tracks) == []
    decreases |tracks|
  {
    if tracks != [] {
      assert tracks[0] in tracks;
      forall t | t in tracks[1..] ensures t in senders {
        assert t in tracks;
      }
      MissingNoneWhenCovered(senders, tracks[1..]);
    }
  }

  /** On an empty sender list every track of the stream is added. */
  lemma {:induction false} MissingFromNothing(tracks: seq<Track>)
    ensures Missing([], tracks) == tracks
    decreases |tracks|
  {
    if tracks != [] {
      MissingFromNothing(tracks[1..]);
    }
  }

  /** A second `sendStream` of the same stream adds nothing. */
  lemma SendStreamIdempotent(senders: seq<Track>, tracks: seq<Track>)
    ensures Missing(senders + Missing(senders, tracks), tracks) == []
  {
    MissingCovers(senders, tracks);
    MissingNoneWhenCovered(senders + Missing(senders, tracks), tracks);
  }

  lemma DistinctTail(tracks: seq<Track>)
    requires Distinct(tracks) && tracks != []
    ensures Distinct(tracks[1..]) && tracks[0] !in tracks[1..]
  {
    var rest := tracks[1..];
    forall i, j | 0 <= i < j < |rest|
      ensures rest[i] != rest[j]
    {
      assert rest[i] == tracks[i + 1] && rest[j] == tracks[j + 1];
    }
  }

  /** One iteration of both loops, when the head track is a sender of the
      current list exactly when it is one of the snapshot. */
  lemma AddStep(snapshot: seq<Track>, current: seq<Track>, tracks: seq<Track>)
    requires tracks != [] && (tracks[0] in current <==> tracks[0] in snapshot)
    ensures var next := if tracks[0] in current then current else current + [tracks[0]];
            && current + Missing(snapshot, tracks) == next + Missing(snapshot, tracks[1..])
            && GrowingAdd(current, tracks) == GrowingAdd(next, tracks[1..])
  {
    var t, rest := tracks[0], tracks[1..];
    if t !in snapshot {
      assert current + ([t] + Missing(snapshot, rest)) == (current + [t]) + Missing(snapshot, rest);
    }
  }

  lemma {:induction false} SnapshotAgreesWithGrowing(snapshot: seq<Track>, current: seq<Track>, tracks: seq<Track>)
    requires Distinct(tracks)
    requires forall t :: t in tracks ==> (t in current <==> t in snapshot)
    ensures current + Missing(snapshot, tracks) == GrowingAdd(current, tracks)
    decreases |tracks|
  {
    if tracks != [] {
      var t, rest := tracks[0], tracks[1..];
      assert t in tracks;
      AddStep(snapshot, current, tracks);
      DistinctTail(tracks);
      var next := if t in current then current else current + [t];
      forall u | u in rest
        ensures u in next <==> u in snapshot
      {
        assert u in tracks;
      }
      SnapshotAgreesWithGrowing(snapshot, next, rest);
    }
  }

  /** For a stream whose tracks are distinct (as `getTracks()` returns them),
      the snapshot check adds exactly what a check against the growing list
      would add. */
  lemma SnapshotCheckIsSound(senders: seq<Track>, tracks: seq<Track>)
    requires Distinct(tracks)
    ensures senders + Missing(senders, tracks) == GrowingAdd(senders, tracks)
  {
    SnapshotAgreesWithGrowing(senders, senders, tracks);
  }

  /** The check is against the snapshot: a track that occurs twice in the
      list and is not yet sent is added twice, where a check against the
      growing list would add it once. */
  lemma SnapshotAddsRepeatsTwice(senders: seq<Track>, t: Track)
    requires t !in senders
    ensures Missing(senders, [t, t]) == [t, t]
    ensures GrowingAdd(senders, [t, t]) == senders + [t]
  {
    assert [t, t][1..] == [t];
    assert [t][1..] == [];
    assert t in senders + [t];
    assert GrowingAdd(senders, [t, t]) == GrowingAdd(senders + [t], [t]);
    assert GrowingAdd(senders + [t], [t]) == GrowingAdd(senders + [t], []);
  }

  /** The platform's RTCPeerConnection, reduced to its sender list and its
      local and remote descriptions. */
  class PeerConnection {
    var senders: seq<Track>
    var localDesc: Option<Desc>
    var remoteDesc: Option<Desc>

    constructor ()
      ensures senders == [] && localDesc == None && remoteDesc == None
    {
      senders, localDesc, remoteDesc := [], None, None;
    }

    /** `getSenders()` returns a copy of the current list. */
    method GetSenders() returns (s: seq<Track>)
      ensures s == senders
    {
      s := senders;
    }

    method AddTrack(t: Track)
      modifies this
      ensures senders == old(senders) + [t]
      ensures localDesc == old(localDesc) && remoteDesc == old(remoteDesc)
    {
      senders := senders + [t];
    }

    /** `createOffer()`: the offer advertises the current senders. */
    method CreateOffer(generated: Option<Sdp>) returns (r: Outcome<Desc>)
      ensures generated.Some? ==> r == Returned(Desc(OfferKind, generated.value, senders))
      ensures generated.None? ==> r == Threw
    {
      r := if generated.Some? then Returned(Desc(OfferKind, generated.value, senders)) else Threw;
    }

    /** `createAnswer()`: the answer advertises the current senders. */
    method CreateAnswer(generated: Option<Sdp>) returns (r: Outcome<Desc>)
      ensures generated.Some? ==> r == Returned(Desc(AnswerKind, generated.value, senders))
      ensures generated.None? ==> r == Threw
    {
      r := if generated.Some? then Returned(Desc(AnswerKind, generated.value, senders)) else Threw;
    }

    method SetLocalDescription(d: Desc, accepted: bool) returns (resolved: bool)
      modifies this
      ensures resolved == accepted
      ensures localDesc == if accepted then Some(d) else old(localDesc)
      ensures senders == old(senders) && remoteDesc == old(remoteDesc)
    {
      resolved := accepted;
      if accepted {
        localDesc := Some(d);
      }
    }

    method SetRemoteDescription(d: Desc, accepted: bool) returns (resolved: bool)
      modifies this
      ensures resolved == accepted
      ensures remoteDesc == if accepted then Some(d) else old(remoteDesc)
      ensures senders == old(senders) && localDesc == old(localDesc)
    {
      resolved := accepted;
      if accepted {
        remoteDesc := Some(d);
      }
    }
  }

  /** PeerProvider: one peer connection and the helpers built on it. */
  class PeerProvider {
    const peer: PeerConnection

    constructor ()
      ensures fresh(peer)
      ensures peer.senders == [] && peer.localDesc == None && peer.remoteDesc == None
    {
      peer := new PeerConnection();
    }

    /** createOffer: on success the returned offer is the new local
        description; any rejection yields null and leaves the peer as it was. */
    method CreateOffer(generated: Option<Sdp>, accepted: bool) returns (offer: Option<Desc>)
      modifies peer
      ensures offer.Some? <==> generated.Some? && accepted
      ensures offer.Some? ==> offer.value == Desc(OfferKind, generated.value, old(peer.senders))
      ensures peer.localDesc == if offer.Some? then offer else old(peer.localDesc)
      ensures peer.senders == old(peer.senders) && peer.remoteDesc == old(peer.remoteDesc)
    {
      var created := peer.CreateOffer(generated);
      match created
      case Threw =>
        offer := None;
      case Returned(d) =>
        var resolved := peer.SetLocalDescription(d, accepted);
        offer := if resolved then Some(d) else None;
    }

    /** createAnswer: a null offer returns undefined at once. Otherwise the
        offer becomes the remote description, then the answer is created and
        becomes the local description and is returned; a rejection at any of
        the three steps is rethrown, keeping what the earlier steps did. */
    method CreateAnswer(offer: Option<Desc>, remoteAccepted: bool, generated: Option<Sdp>, localAccepted: bool)
      returns (r: Outcome<Option<Desc>>)
      modifies peer
      ensures offer.None? ==> r == Returned(None)
      ensures offer.Some? ==> (r.Returned? <==> remoteAccepted && generated.Some? && localAccepted)
      ensures offer.Some? && r.Returned? ==> r.value == Some(Desc(AnswerKind, generated.value, old(peer.senders)))
      ensures peer.remoteDesc == if offer.Some? && remoteAccepted then offer else old(peer.remoteDesc)
      ensures peer.localDesc == if offer.Some? && r.Returned? then r.value else old(peer.localDesc)
      ensures peer.senders == old(peer.senders)
    {
      if offer.None? {
        return Returned(None);
      }
      var resolved := peer.SetRemoteDescription(offer.value, remoteAccepted);
      if !resolved {
        return Threw;
      }
      var created := peer.CreateAnswer(generated);
      if created.Threw? {
        return Threw;
      }
      var answer := created.value;
      resolved := peer.SetLocalDescription(answer, localAccepted);
      if !resolved {
        return Threw;
      }
      r := Returned(Some(answer));
    }

    /** sendStream: adds, in order, every track of the stream that was not a
        sender before the call; existing senders stay as they are. */
    method SendStream(tracks: seq<Track>)
      modifies peer
      ensures peer.senders == old(peer.senders) + Missing(old(peer.senders), tracks)
      ensures peer.localDesc == old(peer.localDesc) && peer.remoteDesc == old(peer.remoteDesc)
    {
      var existingSenders := peer.GetSenders();
      for i := 0 to |tracks|
        invariant peer.senders == existingSenders + Missing(existingSenders, tracks[..i])
        invariant peer.localDesc == old(peer.localDesc) && peer.remoteDesc == old(peer.remoteDesc)
      {
        var track := tracks[i];
        if track !in existingSenders {
          peer.AddTrack(track);
        }
        assert tracks[..i + 1] == tracks[..i] + [track];
        MissingSnoc(existingSenders, tracks[..i], track);
      }
      assert tracks[..|tracks|] == tracks;
    }

    /** setRemoteDescription: applies the description; a rejection is rethrown. */
    method SetRemoteDescription(d: Desc, accepted: bool) returns (resolved: bool)
      modifies peer
      ensures resolved == accepted
      ensures peer.remoteDesc == if accepted then Some(d) else old(peer.remoteDesc)
      ensures peer.senders == old(peer.senders) && peer.localDesc == old(peer.localDesc)
    {
      resolved := peer.SetRemoteDescription(d, accepted);
    }
  }
}
