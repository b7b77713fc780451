// The WebRTC session: the state under the peer connection mutex and every critical
// section that changes it, as a class proved against functions on plain values.
//
// GStreamer calls are oracles: whatever a call may return is a parameter. An
// element pointer is a number, and the candidates handed to the peer are logged.
module Negotiation {
  import opened Common
  import opened SdpFilter
  import opened SignallingServer

  type Element = nat  // a GStreamer element

  const WATCHDOG_TIMEOUT_MS: int := 5000

  datatype Stage = NoStage | CreateOffer | SetLocalDescription | RemoteAnswer | SetRemoteDescription

  datatype Handles = Handles(pipeline: Option<Element>, webrtcbin: Option<Element>, videoAppSrc: Option<Element>)

  const NO_HANDLES := Handles(None, None, None)

  // What building a session's pipeline brings; a missing pipeline brings nothing else.
  datatype Build = Build(handles: Handles, readyOk: bool, sendPathOk: bool, channelOk: bool) {
    predicate Faithful() {
      handles.pipeline.None? ==> handles == NO_HANDLES
    }
  }

  // An ICE candidate message of the client; the media line index may be absent.
  datatype Candidate = Candidate(value: string, mediaLineIndex: Option<int>)

  // A candidate handed to the peer connection.
  datatype AddedIce = AddedIce(mediaLineIndex: nat, value: string)

  // static_cast<guint>
  function ToGuint(i: int): nat {
    i % 0x1_0000_0000
  }

  predicate Complete(c: Candidate) {
    c.value != [] && c.mediaLineIndex.Some?
  }

  predicate Admissible(link: Option<DirectIpv4Link>, c: Candidate) {
    Complete(c) && AllowRemote(link, c.value)
  }

  function Forwarded(c: Candidate): AddedIce
    requires Complete(c)
  {
    AddedIce(ToGuint(c.mediaLineIndex.value), c.value)
  }

  // What a flush hands to the peer: it checks again for a value and an index.
  function Flush(pending: seq<Candidate>): seq<AddedIce> {
    if pending == [] then []
    else (if Complete(pending[0]) then [Forwarded(pending[0])] else []) + Flush(pending[1..])
  }

  datatype Watchdog = Watchdog(armed: bool, sessionId: SessionId, stage: Stage, deadline: int)

  datatype Peer = Peer(
    nextSessionId: SessionId,
    activeSessionId: SessionId,
    handles: Handles,
    activeWebrtcbin: Option<Element>,
    replyTo: Option<Client>,
    localOfferSent: bool,
    remoteDescriptionApplied: bool,
    videoSendPathReady: bool,
    mediaPipelineStarted: bool,
    videoPushEnabled: bool,
    pendingRemoteIce: seq<Candidate>,
    watchdog: Watchdog,
    addedIce: seq<AddedIce>  // since the session began
  ) {
    predicate IsCurrent(session: SessionId, webrtcbin: Option<Element>) {
      session != 0 && session == activeSessionId && handles.webrtcbin.Some? && handles.webrtcbin == webrtcbin
    }

    function Armed(session: SessionId, stage: Stage, now: int): Peer {
      if session == 0 || session != activeSessionId then this
      else this.(watchdog := Watchdog(true, session, stage, now + WATCHDOG_TIMEOUT_MS))
    }

    function Cleared(session: SessionId): Peer {
      if watchdog.sessionId != session then this
      else this.(watchdog := Watchdog(false, 0, NoStage, watchdog.deadline))
    }

    predicate WatchdogDue(now: int) {
      watchdog.armed && now >= watchdog.deadline
    }

    function TornDown(): Peer {
      this.(activeSessionId := 0, activeWebrtcbin := None, replyTo := None, localOfferSent := false,
            remoteDescriptionApplied := false, videoSendPathReady := false, mediaPipelineStarted := false,
            videoPushEnabled := false, pendingRemoteIce := [],
            watchdog := Watchdog(false, 0, NoStage, watchdog.deadline),
            handles := if handles.pipeline.None? then handles else NO_HANDLES)
    }

    // A new session with whatever the pipeline build returned.
    function Begun(build: Build): Peer {
      TornDown().(nextSessionId := nextSessionId + 1, activeSessionId := nextSessionId,
                  handles := build.handles, addedIce := [])
    }

    // The locked part of onClientConnected.
    function Connected(client: Client, build: Build, now: int): Peer {
      var q := Begun(build);
      if build.handles.pipeline.None? || build.handles.webrtcbin.None? then q.TornDown()
      else
        var r := q.(activeWebrtcbin := build.handles.webrtcbin);
        if !build.readyOk then r.TornDown()
        else if !build.sendPathOk then r.(replyTo := Some(client)).TornDown()
        else
          var u := r.(replyTo := Some(client), videoSendPathReady := true);
          if !build.channelOk then u.TornDown() else u.Armed(u.activeSessionId, CreateOffer, now)
    }

    function OfferFailed(session: SessionId, webrtcbin: Element): Peer {
      if IsCurrent(session, Some(webrtcbin)) then TornDown() else this
    }

    predicate AcceptsOffer(session: SessionId, webrtcbin: Element) {
      IsCurrent(session, Some(webrtcbin)) && handles.pipeline.Some?
    }

    function OfferReady(session: SessionId, webrtcbin: Element, now: int): Peer {
      if !AcceptsOffer(session, webrtcbin) then this
      else Armed(session, SetLocalDescription, now).(remoteDescriptionApplied := false,
                                                     mediaPipelineStarted := false, videoPushEnabled := false)
    }

    predicate StillActive(session: SessionId, webrtcbin: Element, pipeline: Element) {
      IsCurrent(session, Some(webrtcbin)) && handles.pipeline == Some(pipeline)
    }

    function LocalDescriptionSet(session: SessionId, webrtcbin: Element, pipeline: Element, replied: bool, now: int): Peer {
      if !replied then OfferFailed(session, webrtcbin)
      else if StillActive(session, webrtcbin, pipeline)
      then this.(localOfferSent := true).Armed(session, RemoteAnswer, now)
      else this
    }

    predicate TakesAnswer() {
      handles.webrtcbin.Some? && localOfferSent
    }

    function AnswerReceived(now: int): Peer {
      if TakesAnswer() then Armed(activeSessionId, SetRemoteDescription, now) else this
    }

    function RemoteAnswerApplied(session: SessionId, webrtcbin: Element, replied: bool, playOk: bool): Peer {
      if !IsCurrent(session, Some(webrtcbin)) || handles.pipeline.None? then this
      else if !replied then TornDown()
      else
        var p := this.(remoteDescriptionApplied := true).Cleared(session).Flushed();
        if p.mediaPipelineStarted then p
        else if playOk then p.(mediaPipelineStarted := true)
        else p.TornDown()
    }

    function Flushed(): Peer {
      this.(addedIce := addedIce + Flush(pendingRemoteIce), pendingRemoteIce := [])
    }

    function IceReceived(link: Option<DirectIpv4Link>, c: Candidate): Peer {
      if !Admissible(link, c) || handles.webrtcbin.None? then this
      else if !remoteDescriptionApplied then this.(pendingRemoteIce := pendingRemoteIce + [c])
      else this.(addedIce := addedIce + [Forwarded(c)])
    }

    // May the video pump take a buffer source now?
    predicate PumpReady() {
      mediaPipelineStarted && videoPushEnabled && handles.videoAppSrc.Some?
    }
  }

  const INITIAL_PEER := Peer(1, 0, NO_HANDLES, None, None, false, false, false, false, false, [],
                             Watchdog(false, 0, NoStage, 0), [])

  class WebRtcServer {
    const directIpv4Link: Option<DirectIpv4Link>
    var nextSessionId: SessionId
    var activeSessionId: SessionId
    var handles: Handles
    var activeWebrtcbin: Option<Element>
    var replyToClient: Option<Client>
    var localOfferSent: bool
    var remoteDescriptionApplied: bool
    var videoSendPathReady: bool
    var mediaPipelineStarted: bool
    var videoPushEnabled: bool
    var pendingRemoteIce: seq<Candidate>
    var watchdog: Watchdog
    var addedIce: seq<AddedIce>

    constructor (link: Option<DirectIpv4Link>)
      ensures View() == INITIAL_PEER && directIpv4Link == link
    {
      directIpv4Link := link;
      nextSessionId, activeSessionId := 1, 0;
      handles, activeWebrtcbin, replyToClient := NO_HANDLES, None, None;
      localOfferSent, remoteDescriptionApplied, videoSendPathReady := false, false, false;
      mediaPipelineStarted, videoPushEnabled := false, false;
      pendingRemoteIce, addedIce := [], [];
      watchdog := Watchdog(false, 0, NoStage, 0);
    }

    function View(): Peer
      reads this
    {
      Peer(nextSessionId, activeSessionId, handles, activeWebrtcbin, replyToClient, localOfferSent,
           remoteDescriptionApplied, videoSendPathReady, mediaPipelineStarted, videoPushEnabled, pendingRemoteIce,
           watchdog, addedIce)
    }

    method ArmWatchdog(session: SessionId, stage: Stage, now: int)
      modifies this`watchdog
      ensures View() == old(View()).Armed(session, stage, now)
    {
      if session == 0 || session != activeSessionId {
        return;
      }
      watchdog := Watchdog(true, session, stage, now + WATCHDOG_TIMEOUT_MS);
    }

    method ClearWatchdog(session: SessionId)
      modifies this`watchdog
      ensures View() == old(View()).Cleared(session)
    {
      if watchdog.sessionId != session {
        return;
      }
      watchdog := Watchdog(false, 0, NoStage, watchdog.deadline);
    }

    // The stage that timed out, if the watchdog is due.
    method CheckWatchdog(now: int) returns (reason: Option<Stage>)
      modifies this`watchdog
      ensures reason == if old(View()).WatchdogDue(now) then Some(old(watchdog.stage)) else None
      ensures View() == if reason.Some? then old(View()).Cleared(old(watchdog.sessionId)) else old(View())
    {
      if !watchdog.armed || now < watchdog.deadline {
        return None;
      }
      reason := Some(watchdog.stage);
      ClearWatchdog(watchdog.sessionId);
    }

    method TearDownPipeline()
      modifies this
      ensures View() == old(View()).TornDown()
    {
      activeSessionId, activeWebrtcbin, replyToClient := 0, None, None;
      localOfferSent, remoteDescriptionApplied, videoSendPathReady := false, false, false;
      mediaPipelineStarted, videoPushEnabled := false, false;
      pendingRemoteIce := [];
      watchdog := Watchdog(false, 0, NoStage, watchdog.deadline);
      if handles.pipeline.None? {
        return;
      }
      handles := NO_HANDLES;
    }

    // Returns the session whose offer is to be created, if its setup succeeded.
    method OnClientConnected(client: Client, build: Build, now: int) returns (session: Option<SessionId>)
      modifies this
      ensures View() == old(View()).Connected(client, build, now)
      ensures session.Some? ==> session.value == activeSessionId == old(nextSessionId)
      ensures session.None? ==> activeSessionId == 0
    {
      TearDownPipeline();
      var sessionId := nextSessionId;
      nextSessionId := nextSessionId + 1;
      activeSessionId := sessionId;
      addedIce := [];
      handles := build.handles;
      ghost var q := View();
      assert q == old(View()).Begun(build);
      if handles.pipeline.None? || handles.webrtcbin.None? {
        TearDownPipeline();
        return None;
      }
      activeWebrtcbin := handles.webrtcbin;
      if !build.readyOk {
        TearDownPipeline();
        return None;
      }
      replyToClient := Some(client);
      if !build.sendPathOk {
        TearDownPipeline();
        return None;
      }
      videoSendPathReady := true;
      if !build.channelOk {
        TearDownPipeline();
        return None;
      }
      ArmWatchdog(sessionId, CreateOffer, now);
      return Some(sessionId);
    }

    method OnOfferCreated(session: SessionId, webrtcbin: Element, offer: bool, now: int) returns (proceed: bool)
      modifies this
      ensures proceed <==> offer && old(View()).AcceptsOffer(session, webrtcbin)
      ensures View() == if offer then old(View()).OfferReady(session, webrtcbin, now)
                        else old(View()).OfferFailed(session, webrtcbin)
    {
      if !offer {
        if View().IsCurrent(session, Some(webrtcbin)) {
          TearDownPipeline();
        }
        return false;
      }
      if !View().IsCurrent(session, Some(webrtcbin)) || handles.pipeline.None? {
        return false;
      }
      ArmWatchdog(session, SetLocalDescription, now);
      remoteDescriptionApplied, mediaPipelineStarted, videoPushEnabled := false, false, false;
      return true;
    }

    method OnLocalDescriptionSet(session: SessionId, webrtcbin: Element, pipeline: Element, replied: bool, now: int)
      returns (sendOffer: bool)
      modifies this
      ensures sendOffer <==> replied && old(View()).StillActive(session, webrtcbin, pipeline)
      ensures View() == old(View()).LocalDescriptionSet(session, webrtcbin, pipeline, replied, now)
    {
      if !replied {
        if View().IsCurrent(session, Some(webrtcbin)) {
          TearDownPipeline();
        }
        return false;
      }
      sendOffer := View().IsCurrent(session, Some(webrtcbin)) && handles.pipeline == Some(pipeline);
      if sendOffer {
        localOfferSent := true;
        ArmWatchdog(session, RemoteAnswer, now);
      }
    }

    // The session the answer is for and the text to apply, if an answer is awaited.
    method OnAnswer(sdp: string, now: int) returns (answer: Option<(SessionId, string)>)
      modifies this
      ensures answer == if old(View()).TakesAnswer() then Some((activeSessionId, Filtered(directIpv4Link, sdp))) else None
      ensures View() == old(View()).AnswerReceived(now)
    {
      if handles.webrtcbin.None? || !localOfferSent {
        return None;
      }
      ArmWatchdog(activeSessionId, SetRemoteDescription, now);
      var filteredSdp := FilterRemoteAnswer(directIpv4Link, sdp);
      return Some((activeSessionId, filteredSdp));
    }

    method OnRemoteAnswerApplied(session: SessionId, webrtcbin: Element, replied: bool, playOk: bool)
      modifies this
      ensures View() == old(View()).RemoteAnswerApplied(session, webrtcbin, replied, playOk)
    {
      if !View().IsCurrent(session, Some(webrtcbin)) || handles.pipeline.None? {
        return;
      }
      if !replied {
        TearDownPipeline();
        return;
      }
      remoteDescriptionApplied := true;
      ClearWatchdog(session);
      FlushPendingRemoteIce();
      var started := StartMediaPipeline(playOk);
      if !started {
        TearDownPipeline();
      }
    }

    method StartMediaPipeline(playOk: bool) returns (started: bool)
      modifies this`mediaPipelineStarted
      ensures started <==> old(mediaPipelineStarted) || (handles.pipeline.Some? && playOk)
      ensures mediaPipelineStarted == started
    {
      if mediaPipelineStarted {
        return true;
      }
      if handles.pipeline.None? || !playOk {
        return false;
      }
      mediaPipelineStarted := true;
      return true;
    }

    method FlushPendingRemoteIce()
      modifies this`addedIce, this`pendingRemoteIce
      ensures View() == old(View()).Flushed()
    {
      var k := 0;
      while k < |pendingRemoteIce|
        invariant k <= |pendingRemoteIce| && pendingRemoteIce == old(pendingRemoteIce)
        invariant addedIce + Flush(pendingRemoteIce[k..]) == old(addedIce) + Flush(old(pendingRemoteIce))
      {
        var c := pendingRemoteIce[k];
        assert pendingRemoteIce[k..][1..] == pendingRemoteIce[k + 1..];
        if Complete(c) {
          assert addedIce + ([Forwarded(c)] + Flush(pendingRemoteIce[k + 1..]))
                 == (addedIce + [Forwarded(c)]) + Flush(pendingRemoteIce[k + 1..]);
          addedIce := addedIce + [Forwarded(c)];
        }
        k := k + 1;
      }
      pendingRemoteIce := [];
    }

    method OnIceFromClient(c: Candidate)
      modifies this`addedIce, this`pendingRemoteIce
      ensures View() == old(View()).IceReceived(directIpv4Link, c)
    {
      if c.value == [] || c.mediaLineIndex.None? {
        return;
      }
      if !AllowRemote(directIpv4Link, c.value) {
        return;
      }
      if handles.webrtcbin.None? {
        return;
      }
      if !remoteDescriptionApplied {
        pendingRemoteIce := pendingRemoteIce + [c];
        return;
      }
      addedIce := addedIce + [Forwarded(c)];
    }
  }
}
