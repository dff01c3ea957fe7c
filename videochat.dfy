/**
 * The call controls of the video component
 * (chess-frontend/src/components/VideoChat.js): the `showVideo` flag, the
 * `currentCall` reference and the streams attached to the local and the
 * remote video element. PeerJS and media-device callbacks are methods; what
 * they deliver (a stream, a call) is a parameter, and what the component asks
 * of PeerJS (dial, answer, close) is a result.
 */
module VideoCall {

  import opened Wrappers

  datatype TrackKind = Audio | Video

  /** A media track; `stop()` ends it for good. */
  datatype Track = Track(kind: TrackKind, stopped: bool)

  /** A PeerJS call, known to the component by an opaque handle. */
  type CallId = nat

  predicate AllStopped(ts: seq<Track>)
  {
    forall i :: 0 <= i < |ts| ==> ts[i].stopped
  }

  /** The tracks after `getTracks().forEach(track => track.stop())`. */
  function StopAll(ts: seq<Track>): (r: seq<Track>)
    ensures |r| == |ts|
    ensures forall i :: 0 <= i < |r| ==> r[i] == ts[i].(stopped := true)
  {
    if ts == [] then [] else [ts[0].(stopped := true)] + StopAll(ts[1..])
  }

  /**
   * Stopping every track leaves every track stopped, with its kind, and
   * stopping them again changes nothing.
   */
  lemma StopAllProperties(ts: seq<Track>)
    ensures AllStopped(StopAll(ts))
    ensures forall i :: 0 <= i < |ts| ==> StopAll(ts)[i].kind == ts[i].kind
    ensures StopAll(StopAll(ts)) == StopAll(ts)
  {
  }

  /** Tracks that are all stopped already are left as they are. */
  lemma StopAllStopped(ts: seq<Track>)
    requires AllStopped(ts)
    ensures StopAll(ts) == ts
  {
  }

  /** A `MediaStream` as `getUserMedia` or a PeerJS `stream` event delivers it. */
  class MediaStream {
    const tracks: array<Track>

    constructor (initial: seq<Track>)
      ensures fresh(tracks) && tracks[..] == initial
    {
      tracks := new Track[|initial|](i requires 0 <= i < |initial| => initial[i]);
    }

    /** `getTracks().forEach(track => track.stop())`. */
    method StopTracks()
      modifies tracks
      ensures tracks[..] == StopAll(old(tracks[..]))
    {
      var i := 0;
      while i < tracks.Length
        invariant 0 <= i <= tracks.Length
        invariant forall k :: 0 <= k < i ==> tracks[k] == old(tracks[k]).(stopped := true)
        invariant forall k :: i <= k < tracks.Length ==> tracks[k] == old(tracks[k])
      {
        tracks[i] := tracks[i].(stopped := true);
        i := i + 1;
      }
      assert tracks[..] == StopAll(old(tracks[..])) by {
        var r := StopAll(old(tracks[..]));
        assert forall k :: 0 <= k < tracks.Length ==> tracks[..][k] == r[k];
      }
    }
  }

  /**
   * The component's state as a value: the flag, the current call, and the
   * tracks of the stream attached to each video element (None when the
   * element has no `srcObject`).
   */
  datatype CallView = CallView(showVideo: bool, currentCall: Option<CallId>,
                               local: Option<seq<Track>>, remote: Option<seq<Track>>)

  function StopAttached(s: Option<seq<Track>>): Option<seq<Track>>
  {
    if s.Some? then Some(StopAll(s.value)) else None
  }

  /** What `disconnectCall` makes of the state. */
  function Teardown(v: CallView): (r: CallView)
    ensures TornDown(r)
    ensures r.currentCall == v.currentCall
    ensures r.local.Some? <==> v.local.Some?
    ensures r.remote.Some? <==> v.remote.Some?
    ensures v.local.Some? ==> |r.local.value| == |v.local.value|
    ensures v.remote.Some? ==> |r.remote.value| == |v.remote.value|
  {
    v.(showVideo := false, local := StopAttached(v.local), remote := StopAttached(v.remote))
  }

  /** Everything is released: no attached track is live and the video is hidden. */
  predicate TornDown(v: CallView)
  {
    !v.showVideo &&
    (v.local.Some? ==> AllStopped(v.local.value)) &&
    (v.remote.Some? ==> AllStopped(v.remote.value))
  }

  /** A second teardown changes nothing; in fact a torn-down state is a fixed point. */
  lemma TeardownIdempotent(v: CallView)
    ensures Teardown(Teardown(v)) == Teardown(v)
    ensures TornDown(v) ==> Teardown(v) == v
  {
    if v.local.Some? {
      StopAllProperties(v.local.value);
      if AllStopped(v.local.value) { StopAllStopped(v.local.value); }
    }
    if v.remote.Some? {
      StopAllProperties(v.remote.value);
      if AllStopped(v.remote.value) { StopAllStopped(v.remote.value); }
    }
  }

  /** The tracks of an attached stream, or None for an empty `srcObject`. */
  function Attached(s: MediaStream?): Option<seq<Track>>
    reads if s != null then {s.tracks} else {}
  {
    if s != null then Some(s.tracks[..]) else None
  }

  /** What `dial` asks of PeerJS: `peer.call(target, stream)`. */
  datatype Dial = Dial(target: string, stream: MediaStream)

  class VideoChat {
    /** `showVideo`: whether the call area and the Disconnect button show. */
    var showVideo: bool
    /** `currentCall.current`. */
    var currentCall: Option<CallId>
    /** `userVideoRef.current.srcObject`. */
    var localVideo: MediaStream?
    /** `remoteVideoRef.current.srcObject`. */
    var remoteVideo: MediaStream?

    /** The track arrays of the attached streams. */
    function Footprint(): set<object>
      reads this
    {
      (if localVideo != null then {localVideo.tracks} else {}) +
      (if remoteVideo != null then {remoteVideo.tracks} else {})
    }

    function View(): CallView
      reads this, Footprint()
    {
      CallView(showVideo, currentCall, Attached(localVideo), Attached(remoteVideo))
    }

    /** The component as it mounts: no call, nothing attached, video hidden. */
    constructor ()
      ensures View() == CallView(false, None, None, None)
    {
      showVideo := false;
      currentCall := None;
      localVideo := null;
      remoteVideo := null;
    }

    /**
     * The Call button: the video is shown at once, before any media is
     * acquired; nothing else changes. If the media request is refused, no
     * handler runs and the video stays shown.
     */
    method CallPeer()
      modifies this`showVideo
      ensures View() == old(View()).(showVideo := true)
    {
      showVideo := true;
    }

    /**
     * The media for an outgoing call arrived: the stream is attached to
     * the local video, the remote id entered when Call was clicked is
     * dialled with it, and the returned call becomes the current one.
     */
    method CallerMediaAcquired(target: string, stream: MediaStream, dialed: CallId) returns (dial: Dial)
      modifies this`localVideo, this`currentCall
      ensures localVideo == stream && remoteVideo == old(remoteVideo)
      ensures dial == Dial(target, stream)
      ensures View() == old(View()).(currentCall := Some(dialed), local := Some(stream.tracks[..]))
    {
      localVideo := stream;
      dial := Dial(target, stream);
      currentCall := Some(dialed);
    }

    /**
     * The media for an incoming call arrived (the call is answered as soon
     * as it does; there is no ringing step): the stream is attached to the
     * local video, the call is answered with it and becomes the current
     * one, and the video is shown.
     */
    method IncomingMediaAcquired(call: CallId, stream: MediaStream) returns (answer: (CallId, MediaStream))
      modifies this`localVideo, this`currentCall, this`showVideo
      ensures localVideo == stream && remoteVideo == old(remoteVideo)
      ensures answer == (call, stream)
      ensures View() == old(View()).(showVideo := true, currentCall := Some(call), local := Some(stream.tracks[..]))
    {
      localVideo := stream;
      answer := (call, stream);
      currentCall := Some(call);
      showVideo := true;
    }

    /**
     * A `stream` event of a call: the delivered stream is attached to the
     * remote video. Which call delivered it is not checked.
     */
    method RemoteStream(from: CallId, stream: MediaStream)
      modifies this`remoteVideo
      ensures localVideo == old(localVideo) && remoteVideo == stream
      ensures View() == old(View()).(remote := Some(stream.tracks[..]))
    {
      remoteVideo := stream;
    }

    /**
     * `disconnectCall`: the current call, if any, is closed; every track of
     * each attached stream is stopped; the video is hidden. The call and the
     * stream references are kept.
     */
    method DisconnectCall() returns (closed: Option<CallId>)
      modifies this`showVideo, Footprint()
      ensures closed == currentCall
      ensures localVideo == old(localVideo) && remoteVideo == old(remoteVideo)
      ensures View() == Teardown(old(View()))
      ensures TornDown(View())
    {
      closed := currentCall;
      ghost var before := View();
      if localVideo != null {
        localVideo.StopTracks();
      }
      if remoteVideo != null {
        remoteVideo.StopTracks();
        if localVideo != null && localVideo.tracks == remoteVideo.tracks {
          StopAllProperties(before.local.value);
        }
      }
      showVideo := false;
    }

    /** A `close` event of a call: an alert, then `disconnectCall`. */
    method Closed(from: CallId) returns (alert: string, closed: Option<CallId>)
      modifies this`showVideo, Footprint()
      ensures alert == "User disconnected"
      ensures closed == currentCall
      ensures localVideo == old(localVideo) && remoteVideo == old(remoteVideo)
      ensures View() == Teardown(old(View()))
    {
      alert := "User disconnected";
      closed := DisconnectCall();
    }
  }

  /**
   * Disconnect the video, then let the closed call's `close` event run
   * `disconnectCall` again: the second teardown changes nothing.
   */
  method DisconnectThenClosed(c: VideoChat) returns (closed: Option<CallId>)
    requires c.currentCall.Some?
    modifies c`showVideo, c.Footprint()
    ensures c.localVideo == old(c.localVideo) && c.remoteVideo == old(c.remoteVideo)
    ensures c.View() == Teardown(old(c.View()))
  {
    ghost var before := c.View();
    closed := c.DisconnectCall();
    var alert;
    alert, closed := c.Closed(c.currentCall.value);
    TeardownIdempotent(before);
  }

  /**
   * A hang-up while the media for an outgoing call is still pending does not
   * cancel it: when the media arrives the call is dialled and recorded, and
   * its live stream stays attached while the video is hidden.
   */
  method HangUpWhileDialing(c: VideoChat, target: string, stream: MediaStream, dialed: CallId)
    returns (dial: Dial)
    requires stream.tracks !in c.Footprint()
    modifies c, c.Footprint()
    ensures !c.showVideo
    ensures c.currentCall == Some(dialed) && c.localVideo == stream
    ensures stream.tracks[..] == old(stream.tracks[..])
    ensures dial == Dial(target, stream)
  {
    c.CallPeer();
    var closed := c.DisconnectCall();
    dial := c.CallerMediaAcquired(target, stream, dialed);
  }

  /**
   * New media replaces the local video's stream without stopping the old
   * one: after a second call has been dialled and then disconnected, the
   * tracks of the first call's local stream are exactly as they were. The
   * component keeps no reference to that stream, and the disconnect closes
   * only the new call. So if the first call was still connected when the new
   * media arrived (no disconnect or `close` in between), it stays open and
   * keeps sending that stream.
   */
  method ReplacedStreamNeverStopped(c: VideoChat, target: string, stream: MediaStream, dialed: CallId)
    returns (dial: Dial, closed: Option<CallId>)
    requires c.localVideo != null && c.localVideo.tracks != stream.tracks
    requires c.remoteVideo != null ==> c.remoteVideo.tracks != c.localVideo.tracks
    modifies c, c.Footprint(), stream.tracks
    ensures old(c.localVideo).tracks[..] == old(c.localVideo.tracks[..])
    ensures c.localVideo == stream && c.remoteVideo == old(c.remoteVideo)
    ensures TornDown(c.View())
    ensures closed == Some(dialed)
  {
    dial := c.CallerMediaAcquired(target, stream, dialed);
    closed := c.DisconnectCall();
  }
}
