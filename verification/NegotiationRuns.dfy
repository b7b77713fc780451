// Every interleaving of the signalling thread, the GStreamer callbacks and the
// video pump, with clients that come and go.
//
// The signalling thread runs one handler or posted task at a time; a handler that
// takes a lock more than once is several steps. A promise or signal callback that
// has not run yet is a token: it keeps the session and the elements it refers to.
module NegotiationRuns {
  import opened Common
  import opened SdpFilter
  import opened Negotiation
  import opened SignallingServer

  datatype Token =
    | OfferPromise(session: SessionId, webrtcbin: Element)
    | LocalPromise(session: SessionId, webrtcbin: Element, pipeline: Element, reply: Option<Client>)
    | RemotePromise(session: SessionId, webrtcbin: Element)
    | LocalIce(session: SessionId, webrtcbin: Element, candidate: string)  // past its first checks, lock not taken
    | StateNotify(session: SessionId, webrtcbin: Element, connected: bool)
    | Reply(session: SessionId, client: Client)           // payload ready, not posted yet
  {
    predicate OffersFor(s: SessionId) {
      (OfferPromise? || LocalPromise?) && session == s
    }
  }

  datatype Pump = PumpIdle | TimedOut(session: SessionId)

  datatype Log = Log(
    owner: map<SessionId, Client>,   // the client each session was started for
    offerMarks: seq<SessionId>,      // sessions in the order their offer was marked as sent
    received: seq<Candidate>,        // admissible candidates since the session began
    reported: set<SessionId>         // sessions whose watchdog has fired
  )

  datatype System = System(
    link: Option<DirectIpv4Link>,
    peer: Peer,
    sig: Signalling,
    tokens: map<nat, Token>,
    pump: Pump,
    now: int,
    log: Log
  )

  datatype Step =
    | Tick(ms: nat)
    | OpenBegin(client: Client)
    | OpenPost
    | RunTask
    | Connect(build: Build)
    | StartOffer(token: nat)
    | CloseBegin(client: Client)
    | CloseEnd
    | AnswerMessage(client: Client)
    | ApplyAnswer(token: nat, parsed: bool)
    | IceMessage(client: Client, candidate: Candidate)
    | OfferCreated(token: nat, offer: bool)
    | LocalSet(token: nat, replied: bool)
    | RemoteApplied(token: nat, replied: bool, playOk: bool)
    | EmitLocalIce(token: nat, text: string)
    | LocalIceLocked(token: nat)
    | EmitNotify(token: nat, connected: bool)
    | NotifySet(token: nat)
    | PostReply(token: nat)
    | PumpCheck
    | PumpClose

  function Initial(link: Option<DirectIpv4Link>): System {
    System(link, INITIAL_PEER, NO_CLIENTS, map[], PumpIdle, 0, Log(map[], [], [], {}))
  }

  // A callback holds a reference, so a new element is none of those referred to.
  predicate Unreferenced(build: Build, tokens: map<nat, Token>) {
    forall t :: t in tokens && !tokens[t].Reply? ==> build.handles.webrtcbin != Some(tokens[t].webrtcbin)
  }

  ghost predicate Enabled(s: System, step: Step) {
    match step
    case Tick(_) => true
    case OpenBegin(c) => s.sig.io.IoIdle? && c !in s.sig.known
    case OpenPost => s.sig.io.Opening?
    case RunTask => s.sig.io.IoIdle? && s.sig.tasks != []
    case Connect(build) => s.sig.io.Connecting? && build.Faithful() && Unreferenced(build, s.tokens)
    case StartOffer(t) => s.sig.io.CreatingOffer? && t !in s.tokens
    case CloseBegin(c) => s.sig.io.IoIdle? && c in s.sig.live
    case CloseEnd => s.sig.io.Disconnecting?
    case AnswerMessage(c) => s.sig.io.IoIdle? && c in s.sig.live
    case ApplyAnswer(t, _) => s.sig.io.Applying? && t !in s.tokens
    case IceMessage(c, _) => s.sig.io.IoIdle? && c in s.sig.live
    case OfferCreated(t, _) => t in s.tokens && s.tokens[t].OfferPromise?
    case LocalSet(t, _) => t in s.tokens && s.tokens[t].LocalPromise?
    case RemoteApplied(t, _, _) => t in s.tokens && s.tokens[t].RemotePromise?
    case EmitLocalIce(t, _) => t !in s.tokens && s.peer.activeWebrtcbin.Some?
    case LocalIceLocked(t) => t in s.tokens && s.tokens[t].LocalIce?
    case EmitNotify(t, _) => t !in s.tokens && s.peer.activeWebrtcbin.Some?
    case NotifySet(t) => t in s.tokens && s.tokens[t].StateNotify?
    case PostReply(t) => t in s.tokens && s.tokens[t].Reply?
    case PumpCheck => s.pump.PumpIdle?
    case PumpClose => s.pump.TimedOut?
  }

  function ApplySignalling(s: System, step: Step): System
    requires step.OpenBegin? || step.CloseBegin? || step.AnswerMessage? || step.IceMessage?
    requires s.sig.io.IoIdle?
  {
    match step
    case OpenBegin(c) =>
      s.(sig := s.sig.Opened(c))
    case CloseBegin(c) =>
      s.(sig := s.sig.Closed(c))
    case AnswerMessage(c) =>
      if s.sig.IsActive(c) && s.peer.TakesAnswer()
      then s.(peer := s.peer.AnswerReceived(s.now), sig := s.sig.(io := Applying(s.peer.activeSessionId)))
      else s
    case IceMessage(c, candidate) =>
      if !s.sig.IsActive(c) then s
      else
        s.(peer := s.peer.IceReceived(s.link, candidate),
           log := if Admissible(s.link, candidate) && s.peer.handles.webrtcbin.Some?
                  then s.log.(received := s.log.received + [candidate]) else s.log)
  }

  function ApplyTask(s: System): System
    requires s.sig.tasks != []
  {
    var rest := s.(sig := s.sig.(tasks := s.sig.tasks[1..]));
    match s.sig.ActionOf(s.sig.tasks[0])
    case StartSession(c) => rest.(sig := rest.sig.(io := Connecting(c)))
    case _ => rest
  }

  function ApplyConnect(s: System, build: Build): System
    requires s.sig.io.Connecting?
  {
    var peer := s.peer.Connected(s.sig.io.client, build, s.now);
    var session := s.peer.nextSessionId;
    s.(peer := peer,
       sig := s.sig.(io := if peer.activeSessionId != 0 then CreatingOffer(session) else IoIdle),
       log := s.log.(owner := s.log.owner[session := s.sig.io.client], received := []))
  }

  function ApplyToken(s: System, step: Step): System
    requires step.OfferCreated? || step.LocalSet? || step.RemoteApplied? || step.LocalIceLocked? || step.NotifySet? || step.PostReply?
    requires step.token in s.tokens
    requires step.OfferCreated? ==> s.tokens[step.token].OfferPromise?
    requires step.LocalSet? ==> s.tokens[step.token].LocalPromise?
    requires step.RemoteApplied? ==> s.tokens[step.token].RemotePromise?
    requires step.LocalIceLocked? ==> s.tokens[step.token].LocalIce?
    requires step.NotifySet? ==> s.tokens[step.token].StateNotify?
    requires step.PostReply? ==> s.tokens[step.token].Reply?
  {
    var tok := s.tokens[step.token];
    var rest := s.tokens - {step.token};
    match step
    case OfferCreated(t, offer) =>
      if !offer then s.(peer := s.peer.OfferFailed(tok.session, tok.webrtcbin), tokens := rest)
      else if !s.peer.AcceptsOffer(tok.session, tok.webrtcbin) then s.(tokens := rest)
      else s.(peer := s.peer.OfferReady(tok.session, tok.webrtcbin, s.now),
              tokens := s.tokens[t := LocalPromise(tok.session, tok.webrtcbin, s.peer.handles.pipeline.value, s.peer.replyTo)])
    case LocalSet(t, replied) =>
      var peer := s.peer.LocalDescriptionSet(tok.session, tok.webrtcbin, tok.pipeline, replied, s.now);
      if replied && s.peer.StillActive(tok.session, tok.webrtcbin, tok.pipeline)
      then s.(peer := peer, log := s.log.(offerMarks := s.log.offerMarks + [tok.session]),
              tokens := if tok.reply.Some? then s.tokens[t := Reply(tok.session, tok.reply.value)] else rest)
      else s.(peer := peer, tokens := rest)
    case RemoteApplied(t, replied, playOk) =>
      s.(peer := s.peer.RemoteAnswerApplied(tok.session, tok.webrtcbin, replied, playOk), tokens := rest)
    case LocalIceLocked(t) =>
      if s.peer.handles.webrtcbin == Some(tok.webrtcbin) && s.peer.replyTo.Some?
      then s.(tokens := s.tokens[t := Reply(tok.session, s.peer.replyTo.value)])
      else s.(tokens := rest)
    case NotifySet(t) => s.(peer := s.peer.(videoPushEnabled := tok.connected), tokens := rest)
    case PostReply(t) => s.(sig := s.sig.Posted(Send(tok.client, tok.session)), tokens := rest)
  }

  function Apply(s: System, step: Step): System
    requires Enabled(s, step)
  {
    match step
    case Tick(ms) => s.(now := s.now + ms)
    case OpenBegin(_) => ApplySignalling(s, step)
    case OpenPost => s.(sig := s.sig.StartupPosted())
    case RunTask => ApplyTask(s)
    case Connect(build) => ApplyConnect(s, build)
    case StartOffer(t) =>
      var session := s.sig.io.session;
      var idle := s.(sig := s.sig.(io := IoIdle));
      if s.peer.IsCurrent(session, s.peer.handles.webrtcbin)
      then idle.(tokens := s.tokens[t := OfferPromise(session, s.peer.handles.webrtcbin.value)])
      else idle
    case CloseBegin(_) => ApplySignalling(s, step)
    case CloseEnd => s.(peer := s.peer.TornDown(), sig := s.sig.(io := IoIdle))
    case AnswerMessage(_) => ApplySignalling(s, step)
    case ApplyAnswer(t, parsed) =>
      var session := s.sig.io.session;
      var idle := s.(sig := s.sig.(io := IoIdle));
      if s.peer.IsCurrent(session, s.peer.handles.webrtcbin) && parsed
      then idle.(tokens := s.tokens[t := RemotePromise(session, s.peer.handles.webrtcbin.value)])
      else idle
    case IceMessage(_, _) => ApplySignalling(s, step)
    case EmitLocalIce(t, text) =>
      if text == [] || !AllowLocal(s.link, text) then s
      else s.(tokens := s.tokens[t := LocalIce(s.peer.activeSessionId, s.peer.activeWebrtcbin.value, text)])
    case EmitNotify(t, connected) =>
      s.(tokens := s.tokens[t := StateNotify(s.peer.activeSessionId, s.peer.activeWebrtcbin.value, connected)])
    case PumpCheck =>
      if s.peer.WatchdogDue(s.now)
      then s.(peer := s.peer.Cleared(s.peer.watchdog.sessionId), pump := TimedOut(s.peer.watchdog.sessionId),
              log := s.log.(reported := s.log.reported + {s.peer.watchdog.sessionId}))
      else s
    case PumpClose =>
      s.(pump := PumpIdle, sig := s.sig.CloseRequested())
    case _ => ApplyToken(s, step)
  }

  ghost predicate Next(s: System, step: Step, t: System) {
    Enabled(s, step) && t == Apply(s, step)
  }

  ghost predicate IsRun(link: Option<DirectIpv4Link>, states: seq<System>, steps: seq<Step>) {
    && |states| == |steps| + 1
    && states[0] == Initial(link)
    && forall i :: 0 <= i < |steps| ==> Next(states[i], steps[i], states[i + 1])
  }

  // ------------------------------------------------------------------ invariant

  // Without a session nothing of one is left; with one its handles are there.
  ghost predicate SessionOk(p: Peer) {
    && 0 <= p.activeSessionId < p.nextSessionId
    && (p.activeSessionId == 0 ==>
          && p.handles == NO_HANDLES && p.activeWebrtcbin.None? && p.replyTo.None?
          && !p.localOfferSent && !p.remoteDescriptionApplied && !p.mediaPipelineStarted)
    && (p.activeSessionId != 0 ==>
          p.handles.pipeline.Some? && p.handles.webrtcbin.Some? && p.activeWebrtcbin == p.handles.webrtcbin && p.replyTo.Some?)
    && (p.mediaPipelineStarted ==> p.remoteDescriptionApplied)
    && (p.remoteDescriptionApplied ==> p.localOfferSent)
  }

  ghost predicate WatchdogOk(p: Peer, now: int, reported: set<SessionId>) {
    && (p.watchdog.armed ==> p.watchdog.sessionId == p.activeSessionId != 0 && p.watchdog.deadline <= now + WATCHDOG_TIMEOUT_MS)
    && (!p.watchdog.armed ==> p.watchdog.sessionId == 0)
    && (p.activeSessionId != 0 ==>
          p.remoteDescriptionApplied || p.watchdog.armed || p.activeSessionId in reported)
  }

  ghost predicate IceOk(p: Peer, link: Option<DirectIpv4Link>, received: seq<Candidate>) {
    && (forall c :: c in received ==> Admissible(link, c))
    && (p.activeSessionId == 0 ==> p.pendingRemoteIce == [])
    && (p.activeSessionId != 0 ==>
          if p.remoteDescriptionApplied then p.pendingRemoteIce == [] && p.addedIce == Flush(received)
          else p.pendingRemoteIce == received && p.addedIce == [])
  }

  ghost predicate PeerOk(p: Peer, now: int, reported: set<SessionId>, link: Option<DirectIpv4Link>, received: seq<Candidate>) {
    SessionOk(p) && WatchdogOk(p, now, reported) && IceOk(p, link, received)
  }

  // An offer that is under way: not marked as sent, not answered.
  ghost predicate OfferUnderWay(session: SessionId, p: Peer, log: Log) {
    && 0 < session < p.nextSessionId && session !in log.offerMarks && session in log.owner
    && (session == p.activeSessionId ==> !p.localOfferSent)
  }

  // An answer that is under way: its session, if still there, has sent its offer.
  ghost predicate AnswerUnderWay(session: SessionId, p: Peer) {
    0 < session < p.nextSessionId && (session == p.activeSessionId ==> p.localOfferSent)
  }

  ghost predicate TokenOk(tok: Token, p: Peer, log: Log) {
    match tok
    case OfferPromise(session, _) => OfferUnderWay(session, p, log)
    case LocalPromise(session, _, _, reply) => OfferUnderWay(session, p, log) && (reply.Some? ==> reply.value == log.owner[session])
    case RemotePromise(session, _) => AnswerUnderWay(session, p)
    case LocalIce(session, webrtcbin, _) =>
      session in log.owner && (p.handles.webrtcbin == Some(webrtcbin) ==> p.activeSessionId == session)
    case StateNotify(_, _, _) => true
    case Reply(session, client) => session in log.owner && log.owner[session] == client
  }

  ghost predicate TokensOk(tokens: map<nat, Token>, p: Peer, log: Log) {
    && (forall t :: t in tokens ==> TokenOk(tokens[t], p, log))
    && (forall t, u :: t in tokens && u in tokens && t != u && tokens[t].OffersFor(tokens[t].session)
                       ==> !tokens[u].OffersFor(tokens[t].session))
  }

  ghost predicate HandlerOk(io: Io, tokens: map<nat, Token>, p: Peer, log: Log) {
    && (io.CreatingOffer? ==>
          OfferUnderWay(io.session, p, log) && forall t :: t in tokens ==> !tokens[t].OffersFor(io.session))
    && (io.Applying? ==> AnswerUnderWay(io.session, p))
  }

  ghost predicate MarksOk(p: Peer, log: Log) {
    && (forall i, j :: 0 <= i < j < |log.offerMarks| ==> log.offerMarks[i] != log.offerMarks[j])
    && (forall m :: m in log.offerMarks ==> m < p.nextSessionId)
    && (p.localOfferSent ==> p.activeSessionId in log.offerMarks)
  }

  ghost predicate OwnersOk(p: Peer, log: Log, sig: Signalling) {
    && (forall x :: x in log.owner ==> 0 < x < p.nextSessionId && log.owner[x] in sig.known && !sig.Pending(log.owner[x]))
    && (forall x, y :: x in log.owner && y in log.owner && x != y ==> log.owner[x] != log.owner[y])
    && (p.activeSessionId != 0 ==> p.activeSessionId in log.owner && p.replyTo == Some(log.owner[p.activeSessionId]))
  }

  ghost predicate TasksOk(sig: Signalling, log: Log) {
    && sig.live <= sig.known
    && (forall i :: 0 <= i < |sig.tasks| && sig.tasks[i].Startup? ==> sig.tasks[i].client in sig.known)
    && (forall i, j :: 0 <= i < j < |sig.tasks| && sig.tasks[i].Startup? ==> sig.tasks[i] != sig.tasks[j])
    && (forall i :: 0 <= i < |sig.tasks| && sig.tasks[i].Send? ==>
          sig.tasks[i].session in log.owner && log.owner[sig.tasks[i].session] == sig.tasks[i].client)
    && (sig.io.Opening? || sig.io.Connecting? ==>
          sig.io.client in sig.known && Startup(sig.io.client) !in sig.tasks && sig.activeClient == Some(sig.io.client))
    && (sig.activeClient.Some? ==> sig.activeClient.value in sig.live)
    && (sig.io.Disconnecting? ==> sig.activeClient.None?)
  }

  // A live session belongs to the active client, or is about to be replaced or torn down.
  ghost predicate OwnershipOk(p: Peer, log: Log, sig: Signalling) {
    p.activeSessionId != 0 && p.activeSessionId in log.owner ==>
      || sig.activeClient == Some(log.owner[p.activeSessionId])
      || sig.io.Disconnecting?
      || (sig.activeClient.Some? && sig.Pending(sig.activeClient.value))
  }

  ghost predicate Inv(s: System) {
    && PeerOk(s.peer, s.now, s.log.reported, s.link, s.log.received)
    && TokensOk(s.tokens, s.peer, s.log)
    && HandlerOk(s.sig.io, s.tokens, s.peer, s.log)
    && MarksOk(s.peer, s.log)
    && OwnersOk(s.peer, s.log, s.sig)
    && TasksOk(s.sig, s.log)
    && OwnershipOk(s.peer, s.log, s.sig)
  }

  // ------------------------------------------------------- what the peer keeps

  lemma TornDownOk(p: Peer, now: int, reported: set<SessionId>, link: Option<DirectIpv4Link>, received: seq<Candidate>)
    requires SessionOk(p) || p.handles.pipeline.Some? || p.handles == NO_HANDLES
    requires 0 < p.nextSessionId && forall c :: c in received ==> Admissible(link, c)
    ensures PeerOk(p.TornDown(), now, reported, link, received)
    ensures p.TornDown().activeSessionId == 0 && p.TornDown().handles == NO_HANDLES
  {
  }

  lemma ConnectedOk(p: Peer, client: Client, build: Build, now: int, reported: set<SessionId>, link: Option<DirectIpv4Link>)
    requires SessionOk(p) && build.Faithful()
    ensures PeerOk(p.Connected(client, build, now), now, reported, link, [])
    ensures var q := p.Connected(client, build, now);
      && q.nextSessionId == p.nextSessionId + 1 && !q.localOfferSent
      && (q.activeSessionId == 0 || (q.activeSessionId == p.nextSessionId && q.replyTo == Some(client)
                                     && q.handles.webrtcbin == build.handles.webrtcbin))
  {
  }

  lemma OfferReadyOk(p: Peer, session: SessionId, webrtcbin: Element, now: int,
                     reported: set<SessionId>, link: Option<DirectIpv4Link>, received: seq<Candidate>)
    requires PeerOk(p, now, reported, link, received) && p.AcceptsOffer(session, webrtcbin) && !p.localOfferSent
    ensures PeerOk(p.OfferReady(session, webrtcbin, now), now, reported, link, received)
  {
  }

  lemma LocalDescriptionSetOk(p: Peer, session: SessionId, webrtcbin: Element, pipeline: Element, now: int,
                              reported: set<SessionId>, link: Option<DirectIpv4Link>, received: seq<Candidate>)
    requires PeerOk(p, now, reported, link, received) && p.StillActive(session, webrtcbin, pipeline)
    ensures PeerOk(p.LocalDescriptionSet(session, webrtcbin, pipeline, true, now), now, reported, link, received)
  {
  }

  lemma AnswerReceivedOk(p: Peer, now: int, reported: set<SessionId>, link: Option<DirectIpv4Link>, received: seq<Candidate>)
    requires PeerOk(p, now, reported, link, received)
    ensures PeerOk(p.AnswerReceived(now), now, reported, link, received)
  {
  }

  lemma RemoteAnswerAppliedOk(p: Peer, session: SessionId, webrtcbin: Element, replied: bool, playOk: bool, now: int,
                              reported: set<SessionId>, link: Option<DirectIpv4Link>, received: seq<Candidate>)
    requires PeerOk(p, now, reported, link, received) && (p.IsCurrent(session, Some(webrtcbin)) ==> p.localOfferSent)
    ensures PeerOk(p.RemoteAnswerApplied(session, webrtcbin, replied, playOk), now, reported, link, received)
  {
  }

  lemma {:induction false} FlushAppend(cs: seq<Candidate>, c: Candidate)
    requires Complete(c)
    ensures Flush(cs + [c]) == Flush(cs) + [Forwarded(c)]
  {
    if cs != [] {
      assert (cs + [c])[1..] == cs[1..] + [c];
      FlushAppend(cs[1..], c);
    } else {
      assert [] + [c] == [c];
    }
  }

  lemma IceReceivedOk(p: Peer, c: Candidate, now: int, reported: set<SessionId>, link: Option<DirectIpv4Link>, received: seq<Candidate>)
    requires PeerOk(p, now, reported, link, received) && Admissible(link, c) && p.handles.webrtcbin.Some?
    ensures PeerOk(p.IceReceived(link, c), now, reported, link, received + [c])
  {
    FlushAppend(received, c);
  }

  lemma WatchdogFiredOk(p: Peer, now: int, reported: set<SessionId>, link: Option<DirectIpv4Link>, received: seq<Candidate>)
    requires PeerOk(p, now, reported, link, received) && p.WatchdogDue(now)
    ensures PeerOk(p.Cleared(p.watchdog.sessionId), now, reported + {p.watchdog.sessionId}, link, received)
  {
  }

  // ------------------------------------------------- what the callbacks keep

  // The session either goes on or is gone; no new one starts.
  predicate Continues(p: Peer, q: Peer) {
    && q.nextSessionId == p.nextSessionId
    && ((q.activeSessionId == p.activeSessionId && q.replyTo == p.replyTo && q.handles.webrtcbin == p.handles.webrtcbin
         && (p.localOfferSent ==> q.localOfferSent))
        || (q.activeSessionId == 0 && q.handles == NO_HANDLES && !q.localOfferSent))
  }

  lemma TokensKept(tokens: map<nat, Token>, io: Io, p: Peer, q: Peer, log: Log)
    requires TokensOk(tokens, p, log) && HandlerOk(io, tokens, p, log) && MarksOk(p, log)
    requires Continues(p, q) && (q.localOfferSent ==> p.localOfferSent)
    ensures TokensOk(tokens, q, log) && HandlerOk(io, tokens, q, log) && MarksOk(q, log)
  {
    forall t | t in tokens ensures TokenOk(tokens[t], q, log) {
      assert TokenOk(tokens[t], p, log);
    }
  }

  lemma TokenPut(tokens: map<nat, Token>, t: nat, tok: Token, p: Peer, log: Log)
    requires TokensOk(tokens, p, log) && TokenOk(tok, p, log)
    requires tok.OffersFor(tok.session) ==> forall u :: u in tokens && u != t ==> !tokens[u].OffersFor(tok.session)
    ensures TokensOk(tokens[t := tok], p, log)
  {
  }

  lemma TokenGone(tokens: map<nat, Token>, t: nat, io: Io, p: Peer, log: Log)
    requires TokensOk(tokens, p, log) && HandlerOk(io, tokens, p, log)
    ensures TokensOk(tokens - {t}, p, log) && HandlerOk(io, tokens - {t}, p, log)
  {
  }

  lemma OwnersKept(p: Peer, q: Peer, log: Log, sig: Signalling)
    requires OwnersOk(p, log, sig) && OwnershipOk(p, log, sig) && Continues(p, q)
    ensures OwnersOk(q, log, sig) && OwnershipOk(q, log, sig)
  {
  }

  // ------------------------------------------------------------ step by step

  lemma OpenBeginKeepsInv(s: System, step: Step)
    requires Inv(s) && Enabled(s, step) && step.OpenBegin?
    ensures Inv(Apply(s, step))
  {
  }

  lemma OpenPostKeepsInv(s: System, step: Step)
    requires Inv(s) && Enabled(s, step) && step.OpenPost?
    ensures Inv(Apply(s, step))
  {
  }

  lemma RunTaskKeepsInv(s: System, step: Step)
    requires Inv(s) && Enabled(s, step) && step.RunTask?
    ensures Inv(Apply(s, step))
  {
    TaskPopped(s.peer, s.log, s.sig, Apply(s, step).sig.io);
  }

  lemma TaskPopped(p: Peer, log: Log, sig: Signalling, io: Io)
    requires OwnersOk(p, log, sig) && TasksOk(sig, log) && OwnershipOk(p, log, sig)
    requires sig.io.IoIdle? && sig.tasks != []
    requires io == if sig.tasks[0].Startup? && sig.IsActive(sig.tasks[0].client) then Connecting(sig.tasks[0].client) else IoIdle
    ensures var t := sig.(tasks := sig.tasks[1..], io := io); OwnersOk(p, log, t) && TasksOk(t, log) && OwnershipOk(p, log, t)
  {
    var t := sig.(tasks := sig.tasks[1..], io := io);
    assert forall task :: task in sig.tasks <==> task == sig.tasks[0] || task in sig.tasks[1..];
    assert forall c :: t.Pending(c) ==> sig.Pending(c);
  }

  lemma ConnectKeepsInv(s: System, step: Step)
    requires Inv(s) && Enabled(s, step) && step.Connect?
    ensures Inv(Apply(s, step))
  {
    var q := s.peer.Connected(s.sig.io.client, step.build, s.now);
    var log := s.log.(owner := s.log.owner[s.peer.nextSessionId := s.sig.io.client], received := []);
    ConnectedOk(s.peer, s.sig.io.client, step.build, s.now, s.log.reported, s.link);
    TokensAfterConnect(s.tokens, s.peer, q, s.log, log, step.build, s.sig.io.client);
    OwnersAfterConnect(s.peer, q, s.log, log, s.sig, Apply(s, step).sig.io);
  }

  lemma TokensAfterConnect(tokens: map<nat, Token>, p: Peer, q: Peer, log: Log, log': Log, build: Build, c: Client)
    requires TokensOk(tokens, p, log) && MarksOk(p, log) && Unreferenced(build, tokens)
    requires q.nextSessionId == p.nextSessionId + 1 && !q.localOfferSent
    requires q.activeSessionId == 0 ==> q.handles == NO_HANDLES
    requires q.activeSessionId != 0 ==> q.activeSessionId == p.nextSessionId && q.handles.webrtcbin == build.handles.webrtcbin
    requires log'.offerMarks == log.offerMarks && log'.owner == log.owner[p.nextSessionId := c]
    requires forall x :: x in log.owner ==> x < p.nextSessionId
    ensures TokensOk(tokens, q, log') && MarksOk(q, log')
    ensures q.activeSessionId != 0 ==> HandlerOk(CreatingOffer(q.activeSessionId), tokens, q, log')
  {
    forall t | t in tokens ensures TokenOk(tokens[t], q, log') && !tokens[t].OffersFor(p.nextSessionId) {
      assert TokenOk(tokens[t], p, log);
    }
  }

  lemma OwnersAfterConnect(p: Peer, q: Peer, log: Log, log': Log, sig: Signalling, io: Io)
    requires OwnersOk(p, log, sig) && TasksOk(sig, log) && sig.io.Connecting?
    requires io.IoIdle? || io.CreatingOffer?
    requires log'.owner == log.owner[p.nextSessionId := sig.io.client]
    requires q.nextSessionId == p.nextSessionId + 1 && 0 < p.nextSessionId
    requires q.activeSessionId == 0 || (q.activeSessionId == p.nextSessionId && q.replyTo == Some(sig.io.client))
    ensures var t := sig.(io := io); OwnersOk(q, log', t) && TasksOk(t, log') && OwnershipOk(q, log', t)
  {
    assert sig.Pending(sig.io.client);
  }

  lemma StartOfferKeepsInv(s: System, step: Step)
    requires Inv(s) && Enabled(s, step) && step.StartOffer?
    ensures Inv(Apply(s, step))
  {
  }

  lemma CloseBeginKeepsInv(s: System, step: Step)
    requires Inv(s) && Enabled(s, step) && step.CloseBegin?
    ensures Inv(Apply(s, step))
  {
  }

  lemma CloseEndKeepsInv(s: System, step: Step)
    requires Inv(s) && Enabled(s, step) && step.CloseEnd?
    ensures Inv(Apply(s, step))
  {
    TornDownOk(s.peer, s.now, s.log.reported, s.link, s.log.received);
    TokensKept(s.tokens, s.sig.io, s.peer, s.peer.TornDown(), s.log);
    OwnersKept(s.peer, s.peer.TornDown(), s.log, s.sig);
  }

  lemma AnswerKeepsInv(s: System, step: Step)
    requires Inv(s) && Enabled(s, step) && step.AnswerMessage?
    ensures Inv(Apply(s, step))
  {
    AnswerReceivedOk(s.peer, s.now, s.log.reported, s.link, s.log.received);
    TokensKept(s.tokens, s.sig.io, s.peer, s.peer.AnswerReceived(s.now), s.log);
    OwnersKept(s.peer, s.peer.AnswerReceived(s.now), s.log, s.sig);
  }

  lemma ApplyAnswerKeepsInv(s: System, step: Step)
    requires Inv(s) && Enabled(s, step) && step.ApplyAnswer?
    ensures Inv(Apply(s, step))
  {
  }

  lemma IceMessageKeepsInv(s: System, step: Step)
    requires Inv(s) && Enabled(s, step) && step.IceMessage?
    ensures Inv(Apply(s, step))
  {
    var q := s.peer.IceReceived(s.link, step.candidate);
    if Admissible(s.link, step.candidate) && s.peer.handles.webrtcbin.Some? {
      IceReceivedOk(s.peer, step.candidate, s.now, s.log.reported, s.link, s.log.received);
    }
    TokensKept(s.tokens, s.sig.io, s.peer, q, s.log);
    OwnersKept(s.peer, q, s.log, s.sig);
  }

  lemma OfferCreatedKeepsInv(s: System, step: Step)
    requires Inv(s) && Enabled(s, step) && step.OfferCreated?
    ensures Inv(Apply(s, step))
  {
    var tok := s.tokens[step.token];
    assert TokenOk(tok, s.peer, s.log);
    TokenGone(s.tokens, step.token, s.sig.io, s.peer, s.log);
    if step.offer && s.peer.AcceptsOffer(tok.session, tok.webrtcbin) {
      var q := s.peer.OfferReady(tok.session, tok.webrtcbin, s.now);
      OfferReadyOk(s.peer, tok.session, tok.webrtcbin, s.now, s.log.reported, s.link, s.log.received);
      var next := LocalPromise(tok.session, tok.webrtcbin, s.peer.handles.pipeline.value, s.peer.replyTo);
      assert tok.OffersFor(tok.session);
      TokenPut(s.tokens, step.token, next, s.peer, s.log);
      TokensKept(s.tokens[step.token := next], s.sig.io, s.peer, q, s.log);
      OwnersKept(s.peer, q, s.log, s.sig);
    } else {
      var q := if step.offer then s.peer else s.peer.OfferFailed(tok.session, tok.webrtcbin);
      TornDownOk(s.peer, s.now, s.log.reported, s.link, s.log.received);
      TokensKept(s.tokens - {step.token}, s.sig.io, s.peer, q, s.log);
      OwnersKept(s.peer, q, s.log, s.sig);
    }
  }

  lemma LocalSetKeepsInv(s: System, step: Step)
    requires Inv(s) && Enabled(s, step) && step.LocalSet?
    ensures Inv(Apply(s, step))
  {
    var tok := s.tokens[step.token];
    assert TokenOk(tok, s.peer, s.log) && tok.OffersFor(tok.session);
    TokenGone(s.tokens, step.token, s.sig.io, s.peer, s.log);
    if step.replied && s.peer.StillActive(tok.session, tok.webrtcbin, tok.pipeline) {
      MarkKeepsInv(s, Apply(s, step), step.token, tok);
    } else {
      var q := if step.replied then s.peer else s.peer.OfferFailed(tok.session, tok.webrtcbin);
      TornDownOk(s.peer, s.now, s.log.reported, s.link, s.log.received);
      TokensKept(s.tokens - {step.token}, s.sig.io, s.peer, q, s.log);
      OwnersKept(s.peer, q, s.log, s.sig);
    }
  }

  lemma MarkKeepsInv(s: System, t: System, k: nat, tok: Token)
    requires Inv(s) && k in s.tokens && s.tokens[k] == tok && tok.LocalPromise?
    requires s.peer.StillActive(tok.session, tok.webrtcbin, tok.pipeline)
    requires t == s.(peer := s.peer.LocalDescriptionSet(tok.session, tok.webrtcbin, tok.pipeline, true, s.now),
                     log := s.log.(offerMarks := s.log.offerMarks + [tok.session]),
                     tokens := if tok.reply.Some? then s.tokens[k := Reply(tok.session, tok.reply.value)] else s.tokens - {k})
    ensures Inv(t)
  {
    LocalDescriptionSetOk(s.peer, tok.session, tok.webrtcbin, tok.pipeline, s.now, s.log.reported, s.link, s.log.received);
    assert TokenOk(tok, s.peer, s.log) && tok.OffersFor(tok.session);
    OwnersKept(s.peer, t.peer, s.log, s.sig);
  }

  lemma RemoteAppliedKeepsInv(s: System, step: Step)
    requires Inv(s) && Enabled(s, step) && step.RemoteApplied?
    ensures Inv(Apply(s, step))
  {
    var tok := s.tokens[step.token];
    var q := s.peer.RemoteAnswerApplied(tok.session, tok.webrtcbin, step.replied, step.playOk);
    assert TokenOk(tok, s.peer, s.log);
    TokenGone(s.tokens, step.token, s.sig.io, s.peer, s.log);
    RemoteAnswerAppliedOk(s.peer, tok.session, tok.webrtcbin, step.replied, step.playOk, s.now, s.log.reported, s.link, s.log.received);
    TokensKept(s.tokens - {step.token}, s.sig.io, s.peer, q, s.log);
    OwnersKept(s.peer, q, s.log, s.sig);
  }

  lemma EmitKeepsInv(s: System, step: Step)
    requires Inv(s) && Enabled(s, step) && (step.EmitLocalIce? || step.EmitNotify?)
    ensures Inv(Apply(s, step))
  {
    var h := s.peer.activeWebrtcbin.value;
    var tok := if step.EmitLocalIce? then LocalIce(s.peer.activeSessionId, h, step.text) else StateNotify(s.peer.activeSessionId, h, step.connected);
    TokenPut(s.tokens, step.token, tok, s.peer, s.log);
  }

  lemma LocalIceLockedKeepsInv(s: System, step: Step)
    requires Inv(s) && Enabled(s, step) && step.LocalIceLocked?
    ensures Inv(Apply(s, step))
  {
    var tok := s.tokens[step.token];
    assert TokenOk(tok, s.peer, s.log);
    TokenGone(s.tokens, step.token, s.sig.io, s.peer, s.log);
    if s.peer.handles.webrtcbin == Some(tok.webrtcbin) && s.peer.replyTo.Some? {
      TokenPut(s.tokens, step.token, Reply(tok.session, s.peer.replyTo.value), s.peer, s.log);
    }
  }

  lemma NotifySetKeepsInv(s: System, step: Step)
    requires Inv(s) && Enabled(s, step) && step.NotifySet?
    ensures Inv(Apply(s, step))
  {
    var q := Apply(s, step).peer;
    TokenGone(s.tokens, step.token, s.sig.io, s.peer, s.log);
    TokensKept(s.tokens - {step.token}, s.sig.io, s.peer, q, s.log);
    OwnersKept(s.peer, q, s.log, s.sig);
  }

  lemma PostReplyKeepsInv(s: System, step: Step)
    requires Inv(s) && Enabled(s, step) && step.PostReply?
    ensures Inv(Apply(s, step))
  {
    var tok := s.tokens[step.token];
    assert TokenOk(tok, s.peer, s.log);
    TokenGone(s.tokens, step.token, s.sig.io, s.peer, s.log);
    PostedTask(s.peer, s.log, s.sig, Send(tok.client, tok.session));
  }

  // Posting a task that starts nothing up.
  lemma PostedTask(p: Peer, log: Log, sig: Signalling, task: Task)
    requires OwnersOk(p, log, sig) && TasksOk(sig, log) && OwnershipOk(p, log, sig)
    requires task.Send? || task.Close?
    requires task.Send? ==> task.session in log.owner && log.owner[task.session] == task.client
    ensures var t := sig.(tasks := sig.tasks + [task]); OwnersOk(p, log, t) && TasksOk(t, log) && OwnershipOk(p, log, t)
  {
    assert forall c :: sig.(tasks := sig.tasks + [task]).Pending(c) <==> sig.Pending(c);
  }

  lemma PumpCheckKeepsInv(s: System, step: Step)
    requires Inv(s) && Enabled(s, step) && step.PumpCheck?
    ensures Inv(Apply(s, step))
  {
    if s.peer.WatchdogDue(s.now) {
      var q := s.peer.Cleared(s.peer.watchdog.sessionId);
      WatchdogFiredOk(s.peer, s.now, s.log.reported, s.link, s.log.received);
      TokensKept(s.tokens, s.sig.io, s.peer, q, s.log);
      OwnersKept(s.peer, q, s.log, s.sig);
    }
  }

  lemma PumpCloseKeepsInv(s: System, step: Step)
    requires Inv(s) && Enabled(s, step) && step.PumpClose?
    ensures Inv(Apply(s, step))
  {
    if s.sig.activeClient.Some? {
      PostedTask(s.peer, s.log, s.sig, Close(s.sig.activeClient.value));
    }
  }

  lemma TickKeepsInv(s: System, step: Step)
    requires Inv(s) && Enabled(s, step) && step.Tick?
    ensures Inv(Apply(s, step))
  {
  }

  // The steps of the signalling thread.
  predicate OnSignallingThread(step: Step) {
    || step.OpenBegin? || step.OpenPost? || step.RunTask? || step.Connect? || step.StartOffer? || step.CloseBegin?
    || step.CloseEnd? || step.AnswerMessage? || step.ApplyAnswer? || step.IceMessage?
  }

  lemma SignallingStepKeepsInv(s: System, step: Step)
    requires Inv(s) && Enabled(s, step) && OnSignallingThread(step)
    ensures Inv(Apply(s, step))
  {
    match step
    case OpenBegin(_) => OpenBeginKeepsInv(s, step);
    case OpenPost => OpenPostKeepsInv(s, step);
    case RunTask => RunTaskKeepsInv(s, step);
    case Connect(_) => ConnectKeepsInv(s, step);
    case StartOffer(_) => StartOfferKeepsInv(s, step);
    case CloseBegin(_) => CloseBeginKeepsInv(s, step);
    case CloseEnd => CloseEndKeepsInv(s, step);
    case AnswerMessage(_) => AnswerKeepsInv(s, step);
    case ApplyAnswer(_, _) => ApplyAnswerKeepsInv(s, step);
    case IceMessage(_, _) => IceMessageKeepsInv(s, step);
  }

  lemma CallbackKeepsInv(s: System, step: Step)
    requires Inv(s) && Enabled(s, step) && !OnSignallingThread(step)
    ensures Inv(Apply(s, step))
  {
    match step
    case Tick(_) => TickKeepsInv(s, step);
    case OfferCreated(_, _) => OfferCreatedKeepsInv(s, step);
    case LocalSet(_, _) => LocalSetKeepsInv(s, step);
    case RemoteApplied(_, _, _) => RemoteAppliedKeepsInv(s, step);
    case EmitLocalIce(_, _) => EmitKeepsInv(s, step);
    case LocalIceLocked(_) => LocalIceLockedKeepsInv(s, step);
    case EmitNotify(_, _) => EmitKeepsInv(s, step);
    case NotifySet(_) => NotifySetKeepsInv(s, step);
    case PostReply(_) => PostReplyKeepsInv(s, step);
    case PumpCheck => PumpCheckKeepsInv(s, step);
    case PumpClose => PumpCloseKeepsInv(s, step);
  }

  lemma StepKeepsInv(s: System, step: Step)
    requires Inv(s) && Enabled(s, step)
    ensures Inv(Apply(s, step))
  {
    if OnSignallingThread(step) {
      SignallingStepKeepsInv(s, step);
    } else {
      CallbackKeepsInv(s, step);
    }
  }

  ghost predicate Reachable(link: Option<DirectIpv4Link>, s: System) {
    exists states, steps :: IsRun(link, states, steps) && s == states[|steps|]
  }

  lemma RunNext(link: Option<DirectIpv4Link>, states: seq<System>, steps: seq<Step>, k: nat)
    requires IsRun(link, states, steps) && k < |steps|
    ensures Next(states[k], steps[k], states[k + 1])
  {
  }

  ghost predicate InvAt(states: seq<System>, i: nat) {
    i < |states| && Inv(states[i])
  }

  lemma {:induction false} RunInvariant(link: Option<DirectIpv4Link>, states: seq<System>, steps: seq<Step>, i: nat)
    requires IsRun(link, states, steps) && i < |states|
    ensures InvAt(states, i)
  {
    if i > 0 {
      var k := i - 1;
      RunInvariant(link, states, steps, k);
      RunNext(link, states, steps, k);
      StepKeepsInv(states[k], steps[k]);
    }
  }

  lemma ReachableInv(link: Option<DirectIpv4Link>, s: System)
    requires Reachable(link, s)
    ensures Inv(s)
  {
    var states, steps :| IsRun(link, states, steps) && s == states[|steps|];
    RunInvariant(link, states, steps, |steps|);
  }

  // ------------------------------------------------------------- main theorems

  // What direct delivery would have handed to the peer.
  function Direct(cs: seq<Candidate>): seq<AddedIce>
    requires forall c :: c in cs ==> Complete(c)
  {
    seq(|cs|, i requires 0 <= i < |cs| => Forwarded(cs[i]))
  }

  lemma {:induction false} FlushDropsNothing(cs: seq<Candidate>)
    requires forall c :: c in cs ==> Complete(c)
    ensures Flush(cs) == Direct(cs)
  {
    if cs != [] {
      FlushDropsNothing(cs[1..]);
      assert Direct(cs) == [Forwarded(cs[0])] + Direct(cs[1..]);
    }
  }

  // Buffering refines direct delivery: what was handed to the peer, followed by what
  // is still pending, is every admissible candidate since the session began, in
  // order; nothing is handed over before the remote description; a flush drops none.
  lemma IceBufferingRefinesDirectDelivery(link: Option<DirectIpv4Link>, s: System)
    requires Reachable(link, s) && s.peer.activeSessionId != 0
    ensures forall c :: c in s.log.received || c in s.peer.pendingRemoteIce ==> Complete(c)
    ensures s.peer.addedIce + Direct(s.peer.pendingRemoteIce) == Direct(s.log.received)
    ensures !s.peer.remoteDescriptionApplied ==> s.peer.addedIce == []
    ensures s.peer.Flushed().addedIce == Direct(s.log.received)
  {
    ReachableInv(link, s);
    FlushDropsNothing(s.log.received);
    FlushDropsNothing(s.peer.pendingRemoteIce);
  }

  // Media implies an applied answer, which implies a sent offer, which implies a
  // live session with its handles.
  lemma NegotiationOrder(link: Option<DirectIpv4Link>, s: System)
    requires Reachable(link, s)
    ensures s.peer.mediaPipelineStarted ==> s.peer.remoteDescriptionApplied
    ensures s.peer.remoteDescriptionApplied ==> s.peer.localOfferSent
    ensures s.peer.localOfferSent ==>
      s.peer.activeSessionId != 0 && s.peer.activeSessionId in s.log.offerMarks
      && s.peer.handles.pipeline.Some? && s.peer.handles.webrtcbin.Some?
    ensures forall i, j :: 0 <= i < j < |s.log.offerMarks| ==> s.log.offerMarks[i] != s.log.offerMarks[j]
  {
    ReachableInv(link, s);
  }

  // The video pump takes a source only from a session whose answer was applied.
  lemma PumpTakesOnlyAnswered(link: Option<DirectIpv4Link>, s: System)
    requires Reachable(link, s) && s.peer.PumpReady()
    ensures s.peer.remoteDescriptionApplied && s.peer.localOfferSent
    ensures s.peer.activeSessionId in s.log.offerMarks && s.peer.activeSessionId in s.log.owner
  {
    ReachableInv(link, s);
  }

  // A promise callback of another session changes nothing of the current one.
  lemma StalePromiseIsHarmless(link: Option<DirectIpv4Link>, s: System, step: Step, t: System)
    requires Reachable(link, s) && Next(s, step, t)
    requires step.OfferCreated? || step.LocalSet? || step.RemoteApplied?
    requires s.tokens[step.token].session != s.peer.activeSessionId
    ensures t.peer == s.peer && t.log == s.log && t.sig == s.sig
    ensures t.tokens == s.tokens - {step.token}
  {
  }

  ghost predicate LocalIceAllowed(link: Option<DirectIpv4Link>, s: System) {
    && s.link == link
    && forall t :: t in s.tokens && s.tokens[t].LocalIce? ==> s.tokens[t].candidate != [] && AllowLocal(link, s.tokens[t].candidate)
  }

  lemma StepKeepsLocalIce(link: Option<DirectIpv4Link>, s: System, step: Step)
    requires LocalIceAllowed(link, s) && Enabled(s, step)
    ensures LocalIceAllowed(link, Apply(s, step))
  {
  }

  lemma {:induction false} RunLocalIce(link: Option<DirectIpv4Link>, states: seq<System>, steps: seq<Step>, i: nat)
    requires IsRun(link, states, steps) && i < |states|
    ensures LocalIceAllowed(link, states[i])
    decreases i
  {
    if i > 0 {
      RunLocalIce(link, states, steps, i - 1);
      RunNext(link, states, steps, i - 1);
      StepKeepsLocalIce(link, states[i - 1], steps[i - 1]);
    }
  }

  // A local candidate callback may outlive its session, and its element may be
  // replaced; it still replies only for the session that emitted it, to that
  // session's client, while that session is the current one, and only with a
  // candidate that passes the local filter.
  lemma LocalIceRepliesForItsSession(link: Option<DirectIpv4Link>, s: System, step: Step, t: System)
    requires Reachable(link, s) && Next(s, step, t) && step.LocalIceLocked? && step.token in t.tokens
    ensures var tok := s.tokens[step.token];
      && tok.session == s.peer.activeSessionId && tok.session in s.log.owner
      && t.tokens[step.token] == Reply(tok.session, s.log.owner[tok.session])
      && tok.candidate != [] && AllowLocal(link, tok.candidate)
  {
    ReachableInv(link, s);
    assert TokenOk(s.tokens[step.token], s.peer, s.log);
    var states, steps :| IsRun(link, states, steps) && s == states[|steps|];
    RunLocalIce(link, states, steps, |steps|);
  }

  // A live session belongs to the active client, unless the startup of a newer
  // active client is still to come or the disconnection is being carried out.
  lemma SessionOwnership(link: Option<DirectIpv4Link>, s: System)
    requires Reachable(link, s) && s.peer.activeSessionId != 0
    ensures s.peer.activeSessionId in s.log.owner
    ensures var c := s.log.owner[s.peer.activeSessionId];
      || s.sig.activeClient == Some(c)
      || s.sig.io.Disconnecting?
      || (s.sig.activeClient.Some? && s.sig.Pending(s.sig.activeClient.value))
    ensures s.sig.io.IoIdle? && s.sig.tasks == [] ==> s.sig.activeClient == Some(s.log.owner[s.peer.activeSessionId])
  {
    ReachableInv(link, s);
  }

  // A message of the active client acts on its own session exactly when its startup
  // is not still to come; before that it acts on its predecessor's session.
  lemma MessageReachesOwnSessionIff(link: Option<DirectIpv4Link>, s: System, c: Client)
    requires Reachable(link, s) && s.sig.io.IoIdle? && s.sig.IsActive(c) && s.peer.activeSessionId != 0
    ensures s.peer.activeSessionId in s.log.owner
    ensures s.log.owner[s.peer.activeSessionId] == c <==> Startup(c) !in s.sig.tasks
  {
    ReachableInv(link, s);
  }

  // Exactly when a message changes anything; and what it changes is the live
  // session, which is another client's exactly while the sender's startup is
  // still to come.
  lemma MessageActsOnOwnSessionIff(link: Option<DirectIpv4Link>, s: System, step: Step, t: System)
    requires Reachable(link, s) && Next(s, step, t) && (step.AnswerMessage? || step.IceMessage?)
    ensures t != s <==>
      && s.sig.IsActive(step.client) && s.peer.activeSessionId != 0
      && (if step.IceMessage? then Admissible(s.link, step.candidate) else s.peer.localOfferSent)
    ensures t != s ==>
      && s.peer.activeSessionId in s.log.owner && t.peer.activeSessionId == s.peer.activeSessionId
      && (s.log.owner[s.peer.activeSessionId] == step.client <==> Startup(step.client) !in s.sig.tasks)
      && (step.IceMessage? ==> t.log.received == s.log.received + [step.candidate])
      && (step.AnswerMessage? ==> t.sig.io == Applying(s.peer.activeSessionId) && t.peer.watchdog.stage == SetRemoteDescription)
  {
    ReachableInv(link, s);
    if s.sig.IsActive(step.client) && s.peer.activeSessionId != 0 {
      MessageReachesOwnSessionIff(link, s, step.client);
    }
    if step.IceMessage? && t != s {
      assert |t.log.received| > |s.log.received| || t.log.received == s.log.received;
    }
  }

  // A client that is not the active one reaches no callback.
  lemma SupersededClientIsInert(link: Option<DirectIpv4Link>, s: System, step: Step, t: System)
    requires Reachable(link, s) && Next(s, step, t)
    requires step.CloseBegin? || step.AnswerMessage? || step.IceMessage?
    requires s.sig.activeClient != Some(step.client)
    ensures t.peer == s.peer && t.log == s.log && t.tokens == s.tokens
    ensures t.sig == s.sig.(live := t.sig.live)
  {
  }

  // A payload goes to the client of the session it was made for, and to it alone:
  // no client ever has two sessions. It goes out exactly while that client is active.
  lemma SentOnlyToOwnClient(link: Option<DirectIpv4Link>, s: System, step: Step)
    requires Reachable(link, s) && Enabled(s, step) && step.RunTask? && s.sig.tasks[0].Send?
    ensures var task := s.sig.tasks[0];
      && task.session in s.log.owner && s.log.owner[task.session] == task.client
      && (s.sig.ActionOf(task) == SendPayload(task.client, task.session) <==> s.sig.activeClient == Some(task.client))
      && (forall x :: x in s.log.owner && s.log.owner[x] == task.client ==> x == task.session)
  {
    ReachableInv(link, s);
  }

  // Every live session is answered, watched, or already reported as timed out, and
  // the watchdog, when armed, is armed for the live session and is due in time.
  lemma WatchdogCoverage(link: Option<DirectIpv4Link>, s: System)
    requires Reachable(link, s)
    ensures s.peer.watchdog.armed ==> s.peer.watchdog.sessionId == s.peer.activeSessionId != 0
    ensures s.peer.activeSessionId != 0 ==>
      s.peer.remoteDescriptionApplied || s.peer.watchdog.armed || s.peer.activeSessionId in s.log.reported
    ensures s.peer.watchdog.armed ==> s.peer.WatchdogDue(s.now + WATCHDOG_TIMEOUT_MS)
  {
    ReachableInv(link, s);
  }
}
