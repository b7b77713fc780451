// What the steps of a negotiation leave in the fields of the session, and what is
// handed to the peer, without the functions that the server is specified by.
module NegotiationFields {
  import opened Common
  import opened SdpFilter
  import opened Negotiation
  import opened NegotiationRuns
  import opened SignallingServer

  // ----------------------------------------------------------- ICE candidates

  lemma {:induction false} FlushedFields(cs: seq<Candidate>, i: nat)
    requires i < |cs| && forall c :: c in cs ==> Complete(c)
    ensures |Flush(cs)| == |cs| && cs[i].mediaLineIndex.Some?
    ensures Flush(cs)[i] == AddedIce(cs[i].mediaLineIndex.value % 0x1_0000_0000, cs[i].value)
  {
    if i > 0 {
      FlushedFields(cs[1..], i - 1);
    } else if |cs| > 1 {
      FlushedFields(cs[1..], 0);
    }
  }

  // Candidate for candidate and field for field: an answered session has handed over
  // the text and the media line index of everything it received, where an index
  // outside the range of an unsigned 32-bit integer wraps around.
  lemma PeerGetsEveryCandidate(link: Option<DirectIpv4Link>, s: System, i: nat)
    requires Reachable(link, s) && s.peer.activeSessionId != 0 && s.peer.remoteDescriptionApplied
    ensures |s.peer.addedIce| == |s.log.received|
    ensures i < |s.log.received| ==>
      var received, added := s.log.received[i], s.peer.addedIce[i];
      && received.mediaLineIndex.Some? && added.value == received.value
      && (0 <= received.mediaLineIndex.value < 0x1_0000_0000 ==> added.mediaLineIndex == received.mediaLineIndex.value)
      && 0 <= added.mediaLineIndex < 0x1_0000_0000
      && (added.mediaLineIndex - received.mediaLineIndex.value) % 0x1_0000_0000 == 0
  {
    ReachableInv(link, s);
    if s.log.received != [] {
      FlushedFields(s.log.received, if i < |s.log.received| then i else 0);
    }
  }

  // Before the answer is applied everything received is still there to be handed over.
  lemma CandidatesWaitForTheAnswer(link: Option<DirectIpv4Link>, s: System)
    requires Reachable(link, s) && s.peer.activeSessionId != 0 && !s.peer.remoteDescriptionApplied
    ensures s.peer.pendingRemoteIce == s.log.received && s.peer.addedIce == []
  {
    ReachableInv(link, s);
  }

  // What counts as received: a candidate of the active client, for a live session,
  // with a text and a media line, and acceptable to the direct link if there is one.
  lemma ReceivedInWords(link: Option<DirectIpv4Link>, s: System, step: Step, t: System)
    requires Reachable(link, s) && Next(s, step, t) && step.IceMessage?
    ensures var c := step.candidate;
      t.log.received ==
        if s.sig.activeClient == Some(step.client) && s.peer.activeSessionId != 0
           && c.value != [] && c.mediaLineIndex.Some?
           && (link.Some? ==> PassesDirect(c.value, link.value.clientIp))
        then s.log.received + [c] else s.log.received
  {
    ReachableInv(link, s);
    var states, steps :| IsRun(link, states, steps) && s == states[|steps|];
    RunLocalIce(link, states, steps, |steps|);
    AllowedInWords(link, step.candidate.value);
  }

  // ------------------------------------------------------------------ sessions

  // Nothing of a session is left.
  ghost predicate Blank(p: Peer) {
    && p.activeSessionId == 0 && p.activeWebrtcbin == None && p.replyTo == None
    && p.handles == Handles(None, None, None)
    && !p.localOfferSent && !p.remoteDescriptionApplied && !p.videoSendPathReady
    && !p.mediaPipelineStarted && !p.videoPushEnabled && p.pendingRemoteIce == []
    && !p.watchdog.armed && p.watchdog.sessionId == 0
  }

  // The stage that the watchdog guards, from now on for five seconds.
  predicate Guards(p: Peer, session: SessionId, stage: Stage, now: int) {
    p.watchdog == Watchdog(true, session, stage, now + 5000)
  }

  // A startup either sets everything up or leaves nothing; it never touches the
  // number of an earlier session.
  lemma SetupInWords(link: Option<DirectIpv4Link>, s: System, step: Step, t: System)
    requires Reachable(link, s) && Next(s, step, t) && step.Connect?
    ensures var b := step.build; var n := s.peer.nextSessionId;
      && t.peer.nextSessionId == n + 1 && t.log.owner == s.log.owner[n := s.sig.io.client] && t.log.received == []
      && if b.handles.pipeline.Some? && b.handles.webrtcbin.Some? && b.readyOk && b.sendPathOk && b.channelOk
         then && t.peer.activeSessionId == n && t.peer.handles == b.handles && t.peer.replyTo == Some(s.sig.io.client)
              && t.peer.activeWebrtcbin == b.handles.webrtcbin && t.peer.videoSendPathReady
              && !t.peer.localOfferSent && !t.peer.remoteDescriptionApplied
              && !t.peer.mediaPipelineStarted && !t.peer.videoPushEnabled
              && t.peer.pendingRemoteIce == [] && t.peer.addedIce == [] && Guards(t.peer, n, CreateOffer, s.now)
              && t.sig.io == CreatingOffer(n)
         else Blank(t.peer) && t.sig.io == IoIdle
  {
    ReachableInv(link, s);
  }

  // The close of the active client leaves nothing of its session.
  lemma DisconnectionInWords(link: Option<DirectIpv4Link>, s: System, t: System)
    requires Reachable(link, s) && Next(s, CloseEnd, t)
    ensures Blank(t.peer) && t.peer.nextSessionId == s.peer.nextSessionId
  {
    ReachableInv(link, s);
  }

  ghost predicate Concerns(s: System, token: Token) {
    && !token.Reply? && s.peer.activeSessionId != 0
    && token.session == s.peer.activeSessionId && s.peer.handles.webrtcbin == Some(token.webrtcbin)
  }

  // A promise of the live session that fails ends it; so does media that will not play.
  lemma FailuresEndTheSession(link: Option<DirectIpv4Link>, s: System, step: Step, t: System)
    requires Reachable(link, s) && Next(s, step, t)
    requires
      || (step.OfferCreated? && !step.offer)
      || (step.LocalSet? && !step.replied)
      || (step.RemoteApplied? && (!step.replied || (!step.playOk && !s.peer.mediaPipelineStarted)))
    requires Concerns(s, s.tokens[step.token])
    ensures Blank(t.peer) && t.peer.nextSessionId == s.peer.nextSessionId
  {
    ReachableInv(link, s);
  }

  // ... and one that succeeds takes it one stage further.
  lemma SuccessesAdvanceTheSession(link: Option<DirectIpv4Link>, s: System, step: Step, t: System)
    requires Reachable(link, s) && Next(s, step, t)
    requires step.OfferCreated? || step.LocalSet? || step.RemoteApplied?
    requires Concerns(s, s.tokens[step.token])
    ensures var n := s.peer.activeSessionId;
      && (step.OfferCreated? && step.offer ==>
            Guards(t.peer, n, SetLocalDescription, s.now) && t.peer.activeSessionId == n
            && !t.peer.remoteDescriptionApplied && !t.peer.mediaPipelineStarted && !t.peer.videoPushEnabled)
      && (step.LocalSet? && step.replied && s.peer.handles.pipeline == Some(s.tokens[step.token].pipeline) ==>
            Guards(t.peer, n, RemoteAnswer, s.now) && t.peer.activeSessionId == n && t.peer.localOfferSent
            && t.log.offerMarks == s.log.offerMarks + [n])
      && (step.RemoteApplied? && step.replied && (step.playOk || s.peer.mediaPipelineStarted) ==>
            t.peer.activeSessionId == n && t.peer.remoteDescriptionApplied && t.peer.mediaPipelineStarted
            && !t.peer.watchdog.armed && t.peer.pendingRemoteIce == [])
  {
    ReachableInv(link, s);
    assert TokenOk(s.tokens[step.token], s.peer, s.log);
  }

  // An answer is awaited exactly after the offer was sent, and then guarded again.
  lemma AnswersInWords(link: Option<DirectIpv4Link>, s: System, step: Step, t: System)
    requires Reachable(link, s) && Next(s, step, t) && step.AnswerMessage?
    ensures if s.sig.activeClient == Some(step.client) && s.peer.activeSessionId != 0 && s.peer.localOfferSent
      then Guards(t.peer, s.peer.activeSessionId, SetRemoteDescription, s.now)
           && t.peer == s.peer.(watchdog := t.peer.watchdog) && t.sig.io == Applying(s.peer.activeSessionId)
      else t == s
  {
    ReachableInv(link, s);
  }

  // The pump reports a timeout exactly when the guarded time is over.
  lemma TimeoutsInWords(link: Option<DirectIpv4Link>, s: System, t: System)
    requires Reachable(link, s) && Next(s, PumpCheck, t)
    ensures if s.peer.watchdog.armed && s.now >= s.peer.watchdog.deadline
      then && t.pump == TimedOut(s.peer.activeSessionId) && s.peer.activeSessionId != 0
           && !t.peer.watchdog.armed && t.peer.activeSessionId == s.peer.activeSessionId
      else t == s
  {
    ReachableInv(link, s);
  }

  // ------------------------------------------------------------------- clients

  // Its close handler has run.
  predicate Gone(s: System, c: Client) {
    c in s.sig.known && c !in s.sig.live
  }

  lemma StaysGone(s: System, step: Step, t: System, c: Client)
    requires Next(s, step, t) && Gone(s, c)
    ensures Gone(t, c)
  {
  }

  lemma CloseIsGone(s: System, c: Client, t: System)
    requires Inv(s) && Next(s, CloseBegin(c), t)
    ensures Gone(t, c)
  {
  }

  lemma {:induction false} GoneAfterClose(link: Option<DirectIpv4Link>, states: seq<System>, steps: seq<Step>, i: nat, j: nat, c: Client)
    requires IsRun(link, states, steps) && i < j <= |steps| && steps[i] == CloseBegin(c)
    ensures Gone(states[j], c)
    decreases j
  {
    var k := j - 1;
    RunNext(link, states, steps, k);
    if i < k {
      GoneAfterClose(link, states, steps, i, k, c);
      StaysGone(states[k], steps[k], states[j], c);
    } else {
      RunInvariant(link, states, steps, k);
      CloseIsGone(states[k], c, states[j]);
    }
  }

  // A client whose close handler has run is gone for ever: nothing of it comes in any
  // more, and no task that is left of it does anything.
  lemma ClosedForEver(link: Option<DirectIpv4Link>, states: seq<System>, steps: seq<Step>, i: nat, j: nat, c: Client, step: Step)
    requires IsRun(link, states, steps) && i < j <= |steps| && steps[i] == CloseBegin(c)
    ensures states[j].sig.activeClient != Some(c)
    ensures Enabled(states[j], step) && (step.OpenBegin? || step.CloseBegin? || step.AnswerMessage? || step.IceMessage?) ==>
      step.client != c
    ensures forall task: Task :: task.client == c ==> states[j].sig.ActionOf(task) == Nothing
  {
    GoneAfterClose(link, states, steps, i, j, c);
    RunInvariant(link, states, steps, j);
  }
}
