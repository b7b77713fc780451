// Where the negotiation does less than one might expect: for each case a run that
// shows it, and the exact condition over every reachable state.
module NegotiationLimits {
  import opened Common
  import opened SdpFilter
  import opened Negotiation
  import opened NegotiationRuns
  import opened SignallingServer

  lemma Taken(link: Option<DirectIpv4Link>, s: System, step: Step) returns (t: System)
    requires Reachable(link, s) && Enabled(s, step)
    ensures t == Apply(s, step) && Reachable(link, t)
  {
    t := Apply(s, step);
    var states, steps :| IsRun(link, states, steps) && s == states[|steps|];
    var states', steps' := states + [t], steps + [step];
    forall i | 0 <= i < |steps'| ensures Next(states'[i], steps'[i], states'[i + 1]) {
      if i < |steps| {
        RunNext(link, states, steps, i);
      }
    }
    assert IsRun(link, states', steps') && t == states'[|steps'|];
  }

  function GoodBuild(h: Element): Build {
    Build(Handles(Some(h), Some(h), Some(h)), true, true, true)
  }

  // A fresh client that has just got its session.
  lemma FirstSession(link: Option<DirectIpv4Link>) returns (s: System)
    ensures Reachable(link, s) && s.sig.io == CreatingOffer(1) && s.sig.tasks == [] && s.tokens == map[]
    ensures s.sig.known == s.sig.live == {1} && s.sig.activeClient == Some(1)
    ensures s.log.owner == map[1 := 1] && s.pump.PumpIdle? && s.now == 0 && s.link == link
    ensures s.peer == INITIAL_PEER.Connected(1, GoodBuild(1), 0)
  {
    s := Initial(link);
    var none: seq<Step> := [];
    assert IsRun(link, [s], none) && s == [s][|none|];
    s := Taken(link, s, OpenBegin(1));
    s := Taken(link, s, OpenPost);
    s := Taken(link, s, RunTask);
    s := Taken(link, s, Connect(GoodBuild(1)));
  }

  // The close that follows a timeout goes to whichever client is active by then: it
  // can hit a newer client that had nothing to do with the session that timed out.
  lemma TimeoutMayCloseNewerClient(link: Option<DirectIpv4Link>) returns (s: System, t: System)
    ensures Reachable(link, s) && Next(s, PumpClose, t)
    ensures s.pump == TimedOut(1) && s.log.owner == map[1 := 1]
    ensures t.sig.tasks == s.sig.tasks + [Close(2)]
  {
    s := FirstSession(link);
    s := TimedOutSession(link, s);
    s := Taken(link, s, StartOffer(0));
    s := Taken(link, s, OpenBegin(2));
    t := Apply(s, PumpClose);
  }

  lemma TimedOutSession(link: Option<DirectIpv4Link>, before: System) returns (s: System)
    requires Reachable(link, before) && before.pump.PumpIdle? && before.now == 0
    requires before.peer.watchdog == Watchdog(true, 1, CreateOffer, WATCHDOG_TIMEOUT_MS)
    ensures Reachable(link, s) && s.pump == TimedOut(1) && s.tokens == before.tokens
    ensures s.sig == before.sig && s.log.owner == before.log.owner
  {
    s := Taken(link, before, Tick(5000));
    s := Taken(link, s, PumpCheck);
  }

  ghost predicate TimedOutOwned(pump: Pump, owner: map<SessionId, Client>) {
    pump.TimedOut? ==> pump.session in owner
  }

  lemma StepKeepsTimedOut(s: System, step: Step)
    requires WatchdogOk(s.peer, s.now, s.log.reported) && OwnersOk(s.peer, s.log, s.sig)
    requires TimedOutOwned(s.pump, s.log.owner) && Enabled(s, step)
    ensures TimedOutOwned(Apply(s, step).pump, Apply(s, step).log.owner)
  {
  }

  lemma {:induction false} RunTimedOut(link: Option<DirectIpv4Link>, states: seq<System>, steps: seq<Step>, i: nat)
    requires IsRun(link, states, steps) && i < |states|
    ensures TimedOutOwned(states[i].pump, states[i].log.owner)
    decreases i
  {
    if i > 0 {
      RunTimedOut(link, states, steps, i - 1);
      RunInvariant(link, states, steps, i - 1);
      RunNext(link, states, steps, i - 1);
      StepKeepsTimedOut(states[i - 1], steps[i - 1]);
    }
  }

  // It closes the client whose session timed out exactly while that one is active.
  lemma TimeoutClosesItsClientIff(link: Option<DirectIpv4Link>, s: System, t: System)
    requires Reachable(link, s) && Next(s, PumpClose, t)
    ensures s.pump.session in s.log.owner
    ensures t.sig.tasks == s.sig.tasks + [Close(s.log.owner[s.pump.session])]
            <==> s.sig.activeClient == Some(s.log.owner[s.pump.session])
  {
    ReachableInv(link, s);
    var states, steps :| IsRun(link, states, steps) && s == states[|steps|];
    RunTimedOut(link, states, steps, |steps|);
    LastTask(s.sig, t.sig, s.log.owner[s.pump.session]);
  }

  lemma LastTask(sig: Signalling, sig': Signalling, c: Client)
    requires sig' == sig.CloseRequested() && (sig.activeClient.Some? ==> sig.activeClient.value in sig.live)
    ensures sig'.tasks == sig.tasks + [Close(c)] <==> sig.activeClient == Some(c)
  {
    var n := |sig.tasks|;
    if sig'.tasks == sig.tasks + [Close(c)] {
      assert sig'.tasks[n] == Close(c);
    }
  }

  // ------------------------------------------------------ late state callbacks

  // A connection-state callback sets the push flag of whatever session is live and
  // nothing else, whichever session it belongs to; so it opens or shuts the pump
  // exactly as the flag decides while media runs.
  lemma NotifySwitchesPushIff(link: Option<DirectIpv4Link>, s: System, step: Step, t: System)
    requires Reachable(link, s) && Next(s, step, t) && step.NotifySet?
    ensures var connected := s.tokens[step.token].connected;
      && t.peer == s.peer.(videoPushEnabled := connected) && t.sig == s.sig && t.log == s.log
      && (t.peer != s.peer <==> s.peer.videoPushEnabled != connected)
      && (!s.peer.PumpReady() && t.peer.PumpReady() <==>
            connected && !s.peer.videoPushEnabled && s.peer.mediaPipelineStarted && s.peer.handles.videoAppSrc.Some?)
      && (s.peer.PumpReady() && !t.peer.PumpReady() <==> !connected && s.peer.PumpReady())
  {
  }

  // It can switch the flag of a later session that is not answered yet ...
  lemma StaleNotifyMaySwitchPush(link: Option<DirectIpv4Link>) returns (s: System, t: System)
    ensures Reachable(link, s) && Next(s, NotifySet(0), t)
    ensures s.tokens[0].session == 1 && t.peer.activeSessionId == 2
    ensures !s.peer.videoPushEnabled && t.peer.videoPushEnabled && !t.peer.PumpReady()
  {
    s := SecondSession(link);
    t := Apply(s, NotifySet(0));
  }

  // ... and open the pump of a later session that is answered, although no callback
  // of that session has reported a connection.
  lemma StaleNotifyMayOpenPump(link: Option<DirectIpv4Link>) returns (s: System, t: System)
    ensures Reachable(link, s) && Next(s, NotifySet(0), t)
    ensures s.tokens[0].session == 1 && t.peer.activeSessionId == 2
    ensures forall k :: k in s.tokens && s.tokens[k].StateNotify? ==> s.tokens[k].session == 1
    ensures !s.peer.PumpReady() && t.peer.PumpReady()
  {
    s := SecondSession(link);
    s := AnsweredSession(link, s, 2, 2, 2);
    t := Apply(s, NotifySet(0));
  }

  // A second client has its session; a callback of the first one is still to run.
  lemma SecondSession(link: Option<DirectIpv4Link>) returns (s: System)
    ensures Reachable(link, s) && FreshSession(s, 2, 2)
    ensures s.tokens == map[0 := StateNotify(1, 1, true), 1 := OfferPromise(1, 1)]
  {
    s := FirstSession(link);
    s := Taken(link, s, EmitNotify(0, true));
    s := Taken(link, s, StartOffer(1));
    s := NextSession(link, s);
  }

  // A client has just got its session and its offer is to be created.
  predicate FreshSession(s: System, client: Client, session: SessionId) {
    && s.sig.io == CreatingOffer(session) && s.sig.activeClient == Some(client) && client in s.sig.live
    && s.peer.activeSessionId == session != 0 && s.peer.handles == GoodBuild(session).handles
    && s.peer.replyTo == Some(client)
    && !s.peer.videoPushEnabled && !s.peer.mediaPipelineStarted
  }

  // A second client takes over from the first one.
  lemma NextSession(link: Option<DirectIpv4Link>, before: System) returns (s: System)
    requires Reachable(link, before) && before.sig.io.IoIdle? && before.sig.tasks == [] && 2 !in before.sig.known
    requires before.peer.nextSessionId == 2
    requires forall t :: t in before.tokens ==> before.tokens[t].Reply? || before.tokens[t].webrtcbin == 1
    ensures Reachable(link, s) && s.tokens == before.tokens && FreshSession(s, 2, 2)
  {
    s := Taken(link, before, OpenBegin(2));
    s := Taken(link, s, OpenPost);
    s := Taken(link, s, RunTask);
    s := Taken(link, s, Connect(GoodBuild(2)));
  }

  // The whole negotiation of a fresh session, undisturbed; k and k + 1 are free tokens.
  lemma AnsweredSession(link: Option<DirectIpv4Link>, before: System, client: Client, session: SessionId, k: nat) returns (s: System)
    requires Reachable(link, before) && FreshSession(before, client, session)
    requires k !in before.tokens && k + 1 !in before.tokens
    ensures Reachable(link, s) && s.sig.io.IoIdle? && s.sig.activeClient == Some(client) && client in s.sig.live
    ensures s.tokens == before.tokens[k := Reply(session, client)] && s.pump == before.pump && s.now == before.now
    ensures s.peer.activeSessionId == session && s.peer.handles == before.peer.handles
    ensures s.peer.localOfferSent && s.peer.remoteDescriptionApplied && s.peer.mediaPipelineStarted
    ensures !s.peer.videoPushEnabled && !s.peer.watchdog.armed
  {
    s := OfferedSession(link, before, client, session, k);
    s := Taken(link, s, AnswerMessage(client));
    s := Taken(link, s, ApplyAnswer(k + 1, true));
    s := Taken(link, s, RemoteApplied(k + 1, true, true));
  }

  lemma OfferedSession(link: Option<DirectIpv4Link>, before: System, client: Client, session: SessionId, k: nat) returns (s: System)
    requires Reachable(link, before) && FreshSession(before, client, session)
    requires k !in before.tokens
    ensures Reachable(link, s) && s.sig == before.sig.(io := IoIdle)
    ensures s.tokens == before.tokens[k := Reply(session, client)] && s.pump == before.pump && s.now == before.now
    ensures s.peer.activeSessionId == session && s.peer.handles == before.peer.handles && s.peer.localOfferSent
    ensures !s.peer.videoPushEnabled && !s.peer.mediaPipelineStarted
  {
    s := Taken(link, before, StartOffer(k));
    s := Taken(link, s, OfferCreated(k, true));
    s := Taken(link, s, LocalSet(k, true));
  }

  // ------------------------------------------------------------ early messages

  // Before its startup has run, a new client's candidate lands in the session of
  // the client before it.
  lemma EarlyMessageReachesOldSession(link: Option<DirectIpv4Link>, c: Candidate) returns (s: System, t: System)
    requires Admissible(link, c)
    ensures Reachable(link, s) && Next(s, IceMessage(2, c), t)
    ensures s.peer.activeSessionId == t.peer.activeSessionId == 1 && s.log.owner == map[1 := 1]
    ensures s.peer.pendingRemoteIce == [] && t.peer.pendingRemoteIce == [c]
  {
    s := FirstSession(link);
    s := Taken(link, s, StartOffer(0));
    s := Taken(link, s, OpenBegin(2));
    s := Taken(link, s, OpenPost);
    t := Apply(s, IceMessage(2, c));
    assert t.peer == s.peer.IceReceived(link, c);
  }

  // -------------------------------------------------- answered, yet watched again

  // The watchdog of an answered session is armed again exactly by a further answer
  // of the active client.
  lemma AnsweredSessionRearmedIff(link: Option<DirectIpv4Link>, s: System, step: Step, t: System)
    requires Reachable(link, s) && Next(s, step, t)
    requires s.peer.remoteDescriptionApplied && !s.peer.watchdog.armed
    ensures t.peer.watchdog.armed && t.peer.activeSessionId == s.peer.activeSessionId
            <==> step.AnswerMessage? && s.sig.IsActive(step.client)
  {
    ReachableInv(link, s);
    if step.OfferCreated? || step.LocalSet? {
      assert TokenOk(s.tokens[step.token], s.peer, s.log);
    }
  }

  // ... and disarmed exactly when an answer of the session has been applied, or
  // when the watchdog fires.
  lemma AnsweredSessionDisarmedIff(link: Option<DirectIpv4Link>, s: System, step: Step, t: System)
    requires Reachable(link, s) && Next(s, step, t)
    requires s.peer.remoteDescriptionApplied && s.peer.watchdog.armed && t.peer.activeSessionId == s.peer.activeSessionId
    ensures !t.peer.watchdog.armed <==>
      || (step.PumpCheck? && s.peer.WatchdogDue(s.now))
      || (step.RemoteApplied? && s.peer.IsCurrent(s.tokens[step.token].session, Some(s.tokens[step.token].webrtcbin)))
  {
    ReachableInv(link, s);
    if step.OfferCreated? || step.LocalSet? {
      assert TokenOk(s.tokens[step.token], s.peer, s.log);
    }
  }

  // A second answer that does not parse is enough: the session is answered, its
  // media runs, and its watchdog fires all the same.
  lemma SecondAnswerMayTimeOut(link: Option<DirectIpv4Link>) returns (s: System)
    ensures Reachable(link, s) && s.pump == TimedOut(1)
    ensures s.peer.activeSessionId == 1 && s.peer.remoteDescriptionApplied && s.peer.mediaPipelineStarted
  {
    s := FirstSession(link);
    s := AnsweredSession(link, s, 1, 1, 0);
    s := Taken(link, s, AnswerMessage(1));
    s := Taken(link, s, ApplyAnswer(1, false));
    s := Taken(link, s, Tick(5000));
    s := Taken(link, s, PumpCheck);
  }
}
