// Every interleaving of one submitting thread, one dequeuing thread and any thread
// that acknowledges frames, at the grain of the store lock and the queue lock.
//
// A submission holds the store lock from its checks to its commit; inside it the
// queue lock covers the push and the insertion of the ready id. A dequeue pops
// without any lock, moves the id under the queue lock, and marks the frame
// dispatched under the store lock.
module FrameStoreRuns {
  import opened Common
  import opened FrameModel
  import opened FrameStorage

  datatype Producer =
    | ProducerIdle
    | Checked(frame: Frame)    // validated, store lock held
    | Pushed(frame: Frame)     // in the FIFO, queue lock held as well
    | Announced(frame: Frame)  // ready id inserted, queue lock released

  datatype Consumer =
    | ConsumerIdle
    | Popped(frame: Frame)  // out of the FIFO, no lock held
    | Moved(frame: Frame)   // id in flight, not yet marked dispatched

  // What has happened to the accepted ids so far.
  datatype Ledger = Ledger(
    returned: set<FrameId>,  // their dequeue has returned
    consumed: set<FrameId>,  // acknowledged as consumed
    failed: set<FrameId>,    // acknowledged as failed
    early: set<FrameId>,     // acknowledged before their dequeue returned
    evicted: set<FrameId>    // stored once and not any more
  ) {
    function Acked(): set<FrameId> { consumed + failed }

    // The lifecycle state that the ledger implies for an accepted id.
    function Expected(id: FrameId): LifecycleState {
      if id in early && id in returned then Dispatched
      else if id in evicted then Dropped
      else if id in consumed then Consumed
      else if id in failed then Failed
      else if id in returned then Dispatched
      else Ready
    }
  }

  datatype System = System(
    store: Store,
    producer: Producer,
    consumer: Consumer,
    pushed: seq<Frame>,  // every frame that entered the FIFO, in order
    popped: seq<Frame>,  // every frame that left it, in order
    ledger: Ledger
  ) {
    // The accepted frames: a submission counts once it has committed.
    function Committed(): seq<Frame> {
      if (producer.Pushed? || producer.Announced?) && pushed != [] then pushed[..|pushed| - 1] else pushed
    }
  }

  datatype Step =
    | Submit(frame: Frame)
    | Push
    | Announce
    | Commit
    | Pop
    | MoveInFlight
    | Dispatch
    | Acknowledge(id: FrameId, success: bool)

  function Initial(maxStored: nat, maxReady: nat): System {
    System(EmptyStore(maxStored, maxReady), ProducerIdle, ConsumerIdle, [], [], Ledger({}, {}, {}, {}, {}))
  }

  function IdsOf(frames: seq<Frame>): set<FrameId> {
    if frames == [] then {} else {frames[0].frameId} + IdsOf(frames[1..])
  }

  lemma {:induction false} InIds(frames: seq<Frame>, id: FrameId)
    ensures id in IdsOf(frames) <==> exists f :: f in frames && f.frameId == id
  {
    if frames != [] {
      InIds(frames[1..], id);
      assert forall f :: f in frames <==> f == frames[0] || f in frames[1..];
    }
  }

  function Missing(before: seq<Frame>, after: seq<Frame>): set<FrameId> {
    IdsOf(before) - IdsOf(after)
  }

  predicate Enabled(s: System, step: Step) {
    match step
    case Submit(_) => s.producer.ProducerIdle?
    case Push => s.producer.Checked?
    case Announce => s.producer.Pushed?
    case Commit => s.producer.Announced?
    case Pop => s.consumer.ConsumerIdle? && s.store.queue.fifo != []
    case MoveInFlight => s.consumer.Popped? && !s.producer.Pushed?
    case Dispatch => s.consumer.Moved? && s.producer.ProducerIdle?
    case Acknowledge(_, _) => s.producer.ProducerIdle?
  }

  function Apply(s: System, step: Step): System
    requires Enabled(s, step)
  {
    match step
    case Submit(frame) =>
      var code := Validate(frame, s.store.Context());
      if code == Accepted then s.(producer := Checked(frame)) else s.(store := s.store.Rejected(frame, code))
    case Push =>
      var f := s.producer.frame;
      if s.store.queue.Full() then s.(store := s.store.Rejected(f, ReadyFrameQueueFull), producer := ProducerIdle)
      else s.(store := s.store.(queue := s.store.queue.Pushed(f)), producer := Pushed(f), pushed := s.pushed + [f])
    case Announce =>
      var f := s.producer.frame;
      s.(store := s.store.(queue := s.store.queue.Announced(f.frameId)), producer := Announced(f))
    case Commit =>
      var f := s.producer.frame;
      var store := s.store.Committed(f);
      s.(store := store, producer := ProducerIdle,
         ledger := s.ledger.(evicted := s.ledger.evicted + Missing(s.store.history.frames + [f], store.history.frames)))
    case Pop =>
      var f := s.store.queue.fifo[0];
      s.(store := s.store.(queue := s.store.queue.Popped()), consumer := Popped(f), popped := s.popped + [f])
    case MoveInFlight =>
      var f := s.consumer.frame;
      s.(store := s.store.(queue := s.store.queue.InFlight(f.frameId)), consumer := Moved(f))
    case Dispatch =>
      var id := s.consumer.frame.frameId;
      s.(store := s.store.(lifecycles := MarkedDispatched(s.store.lifecycles, id)), consumer := ConsumerIdle,
         ledger := s.ledger.(returned := s.ledger.returned + {id}))
    case Acknowledge(id, success) =>
      if id !in s.store.queue.inFlightIds then s
      else
        var store := s.store.Acknowledged(id, success);
        var l := s.ledger;
        s.(store := store,
           ledger := Ledger(
             l.returned,
             if success then l.consumed + {id} else l.consumed,
             if success then l.failed else l.failed + {id},
             if id in l.returned then l.early else l.early + {id},
             l.evicted + Missing(s.store.history.frames, store.history.frames)))
  }

  predicate Next(s: System, step: Step, t: System) {
    Enabled(s, step) && t == Apply(s, step)
  }

  ghost predicate IsRun(maxStored: nat, maxReady: nat, states: seq<System>, steps: seq<Step>) {
    && |states| == |steps| + 1
    && states[0] == Initial(maxStored, maxReady)
    && forall i :: 0 <= i < |steps| ==> Next(states[i], steps[i], states[i + 1])
  }

  // ------------------------------------------------------ facts about sequences

  ghost predicate Increasing(frames: seq<Frame>) {
    forall i, j :: 0 <= i < j < |frames| ==> frames[i].frameId < frames[j].frameId && frames[i].ticks < frames[j].ticks
  }

  // The frames of a log whose ids are not gone.
  function Kept(log: seq<Frame>, gone: set<FrameId>): seq<Frame> {
    if log == [] then []
    else if log[0].frameId in gone then Kept(log[1..], gone)
    else [log[0]] + Kept(log[1..], gone)
  }

  lemma {:induction false} KeptMembers(log: seq<Frame>, gone: set<FrameId>, f: Frame)
    ensures f in Kept(log, gone) <==> f in log && f.frameId !in gone
  {
    if log != [] {
      KeptMembers(log[1..], gone, f);
    }
  }

  lemma {:induction false} KeptAppend(log: seq<Frame>, gone: set<FrameId>, f: Frame)
    ensures Kept(log + [f], gone) == if f.frameId in gone then Kept(log, gone) else Kept(log, gone) + [f]
  {
    if log != [] {
      assert (log + [f])[1..] == log[1..] + [f];
      KeptAppend(log[1..], gone, f);
    }
  }

  lemma {:induction false} KeptIrrelevant(log: seq<Frame>, gone: set<FrameId>, id: FrameId)
    requires forall f :: f in log ==> f.frameId != id
    ensures Kept(log, gone + {id}) == Kept(log, gone)
  {
    if log != [] {
      KeptIrrelevant(log[1..], gone, id);
    }
  }

  // Removing a kept frame from the deque is adding its id to the gone ones.
  lemma {:induction false} KeptWithout(log: seq<Frame>, gone: set<FrameId>, id: FrameId)
    requires Increasing(log) && id !in gone
    ensures Without(Kept(log, gone), id) == Kept(log, gone + {id})
  {
    if log != [] {
      if log[0].frameId == id {
        forall f | f in log[1..] ensures f.frameId != id {
        }
        KeptIrrelevant(log[1..], gone, id);
      } else {
        KeptWithout(log[1..], gone, id);
      }
    }
  }

  lemma {:induction false} FirstWithAgrees(frames: seq<Frame>, more: seq<Frame>, p: FrameId -> bool, q: FrameId -> bool)
    requires forall f :: f in frames ==> p(f.frameId) == q(f.frameId)
    requires FirstWith(frames, p).Some?
    ensures FirstWith(frames + more, q) == FirstWith(frames, p)
  {
    assert frames != [];
    if !p(frames[0].frameId) {
      assert (frames + more)[1..] == frames[1..] + more;
      FirstWithAgrees(frames[1..], more, p, q);
    }
  }

  // ------------------------------------------------------------------ invariant

  ghost predicate FifoOk(pushed: seq<Frame>, popped: seq<Frame>, fifo: seq<Frame>) {
    pushed == popped + fifo && Increasing(pushed)
  }

  // While the store lock is held, the verdict on the frame in hand stays true.
  ghost predicate ProducerOk(p: Producer, pushed: seq<Frame>, context: ValidationContext) {
    && (p.Pushed? || p.Announced? ==> pushed != [] && pushed[|pushed| - 1] == p.frame)
    && (!p.ProducerIdle? ==> Validate(p.frame, context) == Accepted)
  }

  ghost predicate ConsumerOk(c: Consumer, popped: seq<Frame>) {
    !c.ConsumerIdle? ==> popped != [] && popped[|popped| - 1] == c.frame
  }

  ghost predicate HistoryOk(h: History, log: seq<Frame>, evicted: set<FrameId>, maxStored: nat) {
    && 1 <= maxStored && |h.frames| <= maxStored
    && h.frames == Kept(log, evicted)
    && (log != [] ==> log[|log| - 1].frameId !in evicted)
    && h.latest == (if log == [] then None else Some(log[|log| - 1]))
    && IndexExact(h)
  }

  // The id map is exactly the index of the deque.
  ghost predicate IndexExact(h: History) {
    && (forall id :: id in h.byId <==> id in IdsOf(h.frames))
    && (forall f :: f in h.frames ==> f.frameId in h.byId && h.byId[f.frameId] == f)
  }

  ghost predicate CountsOk(stored: nat, evicted: nat, logged: nat, store: Store) {
    && stored + evicted == logged == store.accepted
    && store.evicted == store.dropped == evicted
  }

  function HeldBy(c: Consumer): set<FrameId> {
    if c.ConsumerIdle? then {} else {c.frame.frameId}
  }

  function Unmoved(c: Consumer): set<FrameId> {
    if c.Popped? then {c.frame.frameId} else {}
  }

  function Unannounced(p: Producer): set<FrameId> {
    if p.Pushed? then {p.frame.frameId} else {}
  }

  ghost predicate ReadyOk(readyIds: set<FrameId>, fifoIds: set<FrameId>, c: Consumer, p: Producer) {
    && readyIds == fifoIds + Unmoved(c) - Unannounced(p)
    && Unannounced(p) <= fifoIds + Unmoved(c)
  }

  // In flight and acknowledged ids partition the ids that were moved.
  ghost predicate FlightOk(inFlightIds: set<FrameId>, poppedIds: set<FrameId>, c: Consumer, l: Ledger) {
    && inFlightIds + l.Acked() == poppedIds - Unmoved(c)
    && inFlightIds !! l.Acked()
    && l.returned == poppedIds - HeldBy(c)
  }

  ghost predicate LedgerOk(l: Ledger, ids: set<FrameId>) {
    && l.consumed !! l.failed
    && l.early <= l.Acked() <= l.early + l.returned
    && l.evicted <= l.Acked() && l.Acked() <= ids && l.returned <= ids
  }

  ghost predicate LifecyclesOk(m: Lifecycles, ids: set<FrameId>, l: Ledger) {
    forall id :: if id in ids then id in m && m[id].state == l.Expected(id)
                 else id in m ==> m[id].state == Invalid
  }

  ghost predicate Inv(s: System) {
    && FifoOk(s.pushed, s.popped, s.store.queue.fifo)
    && ProducerOk(s.producer, s.pushed, s.store.Context())
    && ConsumerOk(s.consumer, s.popped)
    && HistoryOk(s.store.history, s.Committed(), s.ledger.evicted, s.store.maxStored)
    && CountsOk(|s.store.history.frames|, |s.ledger.evicted|, |s.Committed()|, s.store)
    && ReadyOk(s.store.queue.readyIds, IdsOf(s.store.queue.fifo), s.consumer, s.producer)
    && FlightOk(s.store.queue.inFlightIds, IdsOf(s.popped), s.consumer, s.ledger)
    && LedgerOk(s.ledger, IdsOf(s.Committed()))
    && LifecyclesOk(s.store.lifecycles, IdsOf(s.Committed()), s.ledger)
  }

  // ------------------------------------------------------------- step by step

  lemma {:induction false} IdsConcat(a: seq<Frame>, b: seq<Frame>)
    ensures IdsOf(a + b) == IdsOf(a) + IdsOf(b)
  {
    if a == [] {
      assert a + b == b;
    } else {
      assert (a + b)[1..] == a[1..] + b;
      IdsConcat(a[1..], b);
    }
  }

  lemma IdsAppend(frames: seq<Frame>, f: Frame)
    ensures IdsOf(frames + [f]) == IdsOf(frames) + {f.frameId}
  {
    IdsConcat(frames, [f]);
  }

  lemma MemberId(frames: seq<Frame>, f: Frame)
    requires f in frames
    ensures f.frameId in IdsOf(frames)
  {
    InIds(frames, f.frameId);
  }

  // The log splits at the consumer: what was popped, what is queued, no id twice.
  lemma SplitIds(pushed: seq<Frame>, popped: seq<Frame>, fifo: seq<Frame>)
    requires FifoOk(pushed, popped, fifo)
    ensures IdsOf(pushed) == IdsOf(popped) + IdsOf(fifo) && IdsOf(popped) !! IdsOf(fifo)
  {
    IdsConcat(popped, fifo);
    forall id | id in IdsOf(popped) ensures id !in IdsOf(fifo) {
      InIds(popped, id);
      InIds(fifo, id);
      DistinctIds(pushed, popped, fifo);
    }
  }

  lemma DistinctIds(pushed: seq<Frame>, popped: seq<Frame>, fifo: seq<Frame>)
    requires FifoOk(pushed, popped, fifo)
    ensures forall f, g :: f in popped && g in fifo ==> f.frameId != g.frameId
  {
    forall f, g | f in popped && g in fifo ensures f.frameId != g.frameId {
      var i :| 0 <= i < |popped| && popped[i] == f;
      var j :| 0 <= j < |fifo| && fifo[j] == g;
      assert pushed[i] == f && pushed[|popped| + j] == g;
    }
  }

  // A rejection may record an Invalid entry, but never over an existing one.
  lemma RejectionKeepsLifecycles(m: Lifecycles, id: FrameId, ids: set<FrameId>, l: Ledger)
    requires LifecyclesOk(m, ids, l)
    ensures LifecyclesOk(RecordedInvalid(m, id), ids, l)
  {
  }

  lemma RejectKeepsInv(s: System, t: System, frame: Frame, code: SubmissionCode)
    requires Inv(s) && (s.producer.ProducerIdle? || s.producer.Checked?)
    requires t == s.(store := s.store.Rejected(frame, code), producer := ProducerIdle)
    ensures Inv(t)
  {
    RejectionKeepsLifecycles(s.store.lifecycles, frame.frameId, IdsOf(s.Committed()), s.ledger);
    assert t.Committed() == s.Committed();
  }

  lemma SubmitKeepsInv(s: System, step: Step)
    requires Inv(s) && Enabled(s, step) && step.Submit?
    ensures Inv(Apply(s, step))
  {
    var t := Apply(s, step);
    var code := Validate(step.frame, s.store.Context());
    if code == Accepted {
      assert t.Committed() == s.Committed();
    } else {
      RejectKeepsInv(s, t, step.frame, code);
    }
  }

  // A step that touches only the queue and its users.
  lemma QueueStepInv(s: System, t: System)
    requires Inv(s)
    requires t.store == s.store.(queue := t.store.queue) && t.ledger == s.ledger && t.Committed() == s.Committed()
    requires FifoOk(t.pushed, t.popped, t.store.queue.fifo)
    requires ProducerOk(t.producer, t.pushed, s.store.Context()) && ConsumerOk(t.consumer, t.popped)
    requires ReadyOk(t.store.queue.readyIds, IdsOf(t.store.queue.fifo), t.consumer, t.producer)
    requires FlightOk(t.store.queue.inFlightIds, IdsOf(t.popped), t.consumer, t.ledger)
    ensures Inv(t)
  {
  }

  lemma PushKeepsInv(s: System, step: Step)
    requires Inv(s) && Enabled(s, step) && step.Push?
    ensures Inv(Apply(s, step))
  {
    var t := Apply(s, step);
    var f := s.producer.frame;
    if s.store.queue.Full() {
      RejectKeepsInv(s, t, f, ReadyFrameQueueFull);
    } else {
      PushKeepsFifo(s.pushed, s.popped, s.store.queue.fifo, s.store.history, s.ledger.evicted, s.store.maxStored, f, s.store.Context());
      PushKeepsReady(s.store.queue.readyIds, s.store.queue.fifo, s.popped, s.pushed, s.consumer, s.producer, f);
      assert t.Committed() == s.Committed();
      QueueStepInv(s, t);
    }
  }

  lemma PushKeepsFifo(pushed: seq<Frame>, popped: seq<Frame>, fifo: seq<Frame>, h: History, evicted: set<FrameId>,
                      maxStored: nat, f: Frame, context: ValidationContext)
    requires FifoOk(pushed, popped, fifo) && HistoryOk(h, pushed, evicted, maxStored)
    requires context.latestFrameId == h.LatestId() && context.latestTicks == h.LatestTicks()
    requires Validate(f, context) == Accepted
    ensures FifoOk(pushed + [f], popped, fifo + [f])
    ensures f.frameId !in IdsOf(pushed)
  {
    NewerIncreases(pushed, f);
    assert pushed + [f] == popped + (fifo + [f]);
  }

  lemma NewerIncreases(pushed: seq<Frame>, f: Frame)
    requires Increasing(pushed)
    requires pushed != [] ==> f.frameId > pushed[|pushed| - 1].frameId && f.ticks > pushed[|pushed| - 1].ticks
    ensures Increasing(pushed + [f]) && f.frameId !in IdsOf(pushed)
  {
    InIds(pushed, f.frameId);
  }

  lemma PushKeepsReady(readyIds: set<FrameId>, fifo: seq<Frame>, popped: seq<Frame>, pushed: seq<Frame>, c: Consumer, p: Producer, f: Frame)
    requires FifoOk(pushed, popped, fifo) && ConsumerOk(c, popped)
    requires ReadyOk(readyIds, IdsOf(fifo), c, p) && p == Checked(f)
    requires f.frameId !in IdsOf(pushed)
    ensures ReadyOk(readyIds, IdsOf(fifo + [f]), c, Producer.Pushed(f))
  {
    IdsAppend(fifo, f);
    SplitIds(pushed, popped, fifo);
    if c.Popped? {
      MemberId(popped, c.frame);
    }
  }

  lemma AnnounceKeepsInv(s: System, step: Step)
    requires Inv(s) && Enabled(s, step) && step.Announce?
    ensures Inv(Apply(s, step))
  {
    var t := Apply(s, step);
    AnnounceEffect(s, step);
    AnnounceKeepsReady(s.store.queue.readyIds, IdsOf(s.store.queue.fifo), s.consumer, s.producer);
    QueueStepInv(s, t);
  }

  lemma AnnounceEffect(s: System, step: Step)
    requires Enabled(s, step) && step.Announce?
    ensures var f := s.producer.frame; var t := Apply(s, step);
      && t == s.(store := s.store.(queue := s.store.queue.Announced(f.frameId)), producer := Announced(f))
      && t.Committed() == s.Committed()
  {
  }

  lemma AnnounceKeepsReady(readyIds: set<FrameId>, fifoIds: set<FrameId>, c: Consumer, p: Producer)
    requires ReadyOk(readyIds, fifoIds, c, p) && p.Pushed?
    ensures ReadyOk(readyIds + {p.frame.frameId}, fifoIds, c, Announced(p.frame))
  {
  }

  lemma PopKeepsInv(s: System, step: Step)
    requires Inv(s) && Enabled(s, step) && step.Pop?
    ensures Inv(Apply(s, step))
  {
    var q := s.store.queue;
    PopKeepsFifo(q.fifo, s.popped, s.pushed);
    PopKeepsReady(q.readyIds, q.fifo, s.producer);
    PopKeepsFlight(q.inFlightIds, s.popped, q.fifo, s.pushed, s.ledger);
    PopEffect(s, step);
    QueueStepInv(s, Apply(s, step));
  }

  lemma PopEffect(s: System, step: Step)
    requires Enabled(s, step) && step.Pop?
    ensures var f := s.store.queue.fifo[0]; var t := Apply(s, step);
      && t == s.(store := s.store.(queue := s.store.queue.Popped()), consumer := Consumer.Popped(f), popped := s.popped + [f])
      && t.Committed() == s.Committed() && ConsumerOk(t.consumer, t.popped)
  {
  }

  lemma PopKeepsFifo(fifo: seq<Frame>, popped: seq<Frame>, pushed: seq<Frame>)
    requires FifoOk(pushed, popped, fifo) && fifo != []
    ensures FifoOk(pushed, popped + [fifo[0]], fifo[1..])
  {
    assert popped + fifo == (popped + [fifo[0]]) + fifo[1..];
  }

  lemma PopKeepsReady(readyIds: set<FrameId>, fifo: seq<Frame>, p: Producer)
    requires ReadyOk(readyIds, IdsOf(fifo), ConsumerIdle, p) && fifo != []
    ensures ReadyOk(readyIds, IdsOf(fifo[1..]), Consumer.Popped(fifo[0]), p)
  {
  }

  lemma PopKeepsFlight(inFlightIds: set<FrameId>, popped: seq<Frame>, fifo: seq<Frame>, pushed: seq<Frame>, l: Ledger)
    requires FifoOk(pushed, popped, fifo) && fifo != []
    requires FlightOk(inFlightIds, IdsOf(popped), ConsumerIdle, l)
    ensures FlightOk(inFlightIds, IdsOf(popped + [fifo[0]]), Consumer.Popped(fifo[0]), l)
  {
    IdsAppend(popped, fifo[0]);
    SplitIds(pushed, popped, fifo);
  }

  lemma MoveKeepsInv(s: System, step: Step)
    requires Inv(s) && Enabled(s, step) && step.MoveInFlight?
    ensures Inv(Apply(s, step))
  {
    var q := s.store.queue;
    MemberId(s.popped, s.consumer.frame);
    SplitIds(s.pushed, s.popped, q.fifo);
    MoveKeepsIds(q.readyIds, q.inFlightIds, IdsOf(q.fifo), IdsOf(s.popped), s.consumer, s.producer, s.ledger);
    MoveEffect(s, step);
    QueueStepInv(s, Apply(s, step));
  }

  lemma MoveEffect(s: System, step: Step)
    requires Enabled(s, step) && step.MoveInFlight?
    ensures var f := s.consumer.frame; var t := Apply(s, step);
      && t == s.(store := s.store.(queue := s.store.queue.InFlight(f.frameId)), consumer := Moved(f))
      && t.Committed() == s.Committed()
  {
  }

  lemma MoveKeepsIds(readyIds: set<FrameId>, inFlightIds: set<FrameId>, fifoIds: set<FrameId>, poppedIds: set<FrameId>,
                     c: Consumer, p: Producer, l: Ledger)
    requires c.Popped? && !p.Pushed? && c.frame.frameId in poppedIds && c.frame.frameId !in fifoIds
    requires ReadyOk(readyIds, fifoIds, c, p) && FlightOk(inFlightIds, poppedIds, c, l)
    ensures ReadyOk(readyIds - {c.frame.frameId}, fifoIds, Moved(c.frame), p)
    ensures FlightOk(inFlightIds + {c.frame.frameId}, poppedIds, Moved(c.frame), l)
  {
  }

  lemma DispatchKeepsInv(s: System, step: Step)
    requires Inv(s) && Enabled(s, step) && step.Dispatch?
    ensures Inv(Apply(s, step))
  {
    var t := Apply(s, step);
    ConsumerFrameIsCommitted(s);
    DispatchKeepsIds(s.store.queue.inFlightIds, IdsOf(s.popped), IdsOf(s.pushed), s.consumer, s.ledger);
    DispatchKeepsLifecycles(s.store.lifecycles, IdsOf(s.pushed), s.ledger, s.consumer.frame.frameId);
    LedgerStepInv(s, t);
  }

  lemma ConsumerFrameIsCommitted(s: System)
    requires Inv(s) && s.consumer.Moved? && s.producer.ProducerIdle?
    ensures s.consumer.frame in s.Committed() && s.consumer.frame.frameId in IdsOf(s.popped)
    ensures s.consumer.frame.frameId in IdsOf(s.pushed)
  {
    MemberId(s.popped, s.consumer.frame);
    SplitIds(s.pushed, s.popped, s.store.queue.fifo);
    assert s.consumer.frame in s.pushed;
  }

  // A step under the store lock that moves frames along their life cycle.
  lemma LedgerStepInv(s: System, t: System)
    requires Inv(s) && s.producer.ProducerIdle?
    requires t == s.(store := s.store.(queue := t.store.queue, lifecycles := t.store.lifecycles), consumer := t.consumer, ledger := t.ledger)
    requires t.store.queue == s.store.queue.(inFlightIds := t.store.queue.inFlightIds)
    requires t.ledger.evicted == s.ledger.evicted && Unmoved(t.consumer) == Unmoved(s.consumer)
    requires ConsumerOk(t.consumer, s.popped)
    requires FlightOk(t.store.queue.inFlightIds, IdsOf(s.popped), t.consumer, t.ledger)
    requires LedgerOk(t.ledger, IdsOf(s.pushed)) && LifecyclesOk(t.store.lifecycles, IdsOf(s.pushed), t.ledger)
    ensures Inv(t)
  {
    assert t.Committed() == s.Committed() == s.pushed;
  }

  lemma DispatchKeepsIds(inFlightIds: set<FrameId>, poppedIds: set<FrameId>, ids: set<FrameId>, c: Consumer, l: Ledger)
    requires c.Moved? && c.frame.frameId in poppedIds && c.frame.frameId in ids
    requires FlightOk(inFlightIds, poppedIds, c, l) && LedgerOk(l, ids)
    ensures FlightOk(inFlightIds, poppedIds, ConsumerIdle, l.(returned := l.returned + {c.frame.frameId}))
    ensures LedgerOk(l.(returned := l.returned + {c.frame.frameId}), ids)
    ensures c.frame.frameId !in l.returned
  {
  }

  lemma DispatchKeepsLifecycles(m: Lifecycles, ids: set<FrameId>, l: Ledger, id: FrameId)
    requires LifecyclesOk(m, ids, l) && LedgerOk(l, ids) && id in ids && id !in l.returned
    ensures LifecyclesOk(MarkedDispatched(m, id), ids, l.(returned := l.returned + {id}))
  {
  }

  // An acknowledgement never has anything to evict.
  lemma AcknowledgeEvictsNothing(store: Store, id: FrameId, success: bool)
    requires |store.history.frames| <= store.maxStored && id in store.queue.inFlightIds
    ensures store.Acknowledged(id, success)
            == store.(queue := store.queue.Completed(id), lifecycles := MarkedDone(store.lifecycles, id, success))
    ensures Missing(store.history.frames, store.history.frames) == {}
  {
  }

  lemma AcknowledgeKeepsInv(s: System, step: Step)
    requires Inv(s) && Enabled(s, step) && step.Acknowledge?
    ensures Inv(Apply(s, step))
  {
    var id, success := step.id, step.success;
    if id in s.store.queue.inFlightIds {
      AcknowledgeEvictsNothing(s.store, id, success);
      AcknowledgeEffect(s, step);
      SplitIds(s.pushed, s.popped, s.store.queue.fifo);
      AckKeepsIds(s.store.queue.inFlightIds, IdsOf(s.popped), IdsOf(s.pushed), s.consumer, s.ledger, id, success);
      AckKeepsLifecycles(s.store.lifecycles, IdsOf(s.pushed), s.ledger, id, success);
      LedgerStepInv(s, Apply(s, step));
    }
  }

  lemma AcknowledgeEffect(s: System, step: Step)
    requires |s.store.history.frames| <= s.store.maxStored && Enabled(s, step) && step.Acknowledge?
    ensures Apply(s, step) ==
      if step.id !in s.store.queue.inFlightIds then s
      else s.(store := s.store.Acknowledged(step.id, step.success), ledger := AckLedger(s.ledger, step.id, step.success))
  {
    if step.id in s.store.queue.inFlightIds {
      AcknowledgeEvictsNothing(s.store, step.id, step.success);
      assert s.ledger.evicted + {} == s.ledger.evicted;
    }
  }

  function AckLedger(l: Ledger, id: FrameId, success: bool): Ledger {
    Ledger(
      l.returned,
      if success then l.consumed + {id} else l.consumed,
      if success then l.failed else l.failed + {id},
      if id in l.returned then l.early else l.early + {id},
      l.evicted)
  }

  lemma AckKeepsIds(inFlightIds: set<FrameId>, poppedIds: set<FrameId>, ids: set<FrameId>, c: Consumer, l: Ledger, id: FrameId, success: bool)
    requires FlightOk(inFlightIds, poppedIds, c, l) && LedgerOk(l, ids) && poppedIds <= ids && id in inFlightIds
    ensures FlightOk(inFlightIds - {id}, poppedIds, c, AckLedger(l, id, success))
    ensures LedgerOk(AckLedger(l, id, success), ids)
  {
  }

  lemma AckKeepsExpected(l: Ledger, ids: set<FrameId>, id: FrameId, success: bool)
    requires LedgerOk(l, ids) && id !in l.Acked()
    ensures forall x :: x != id ==> AckLedger(l, id, success).Expected(x) == l.Expected(x)
    ensures AckLedger(l, id, success).Expected(id) == if success then Consumed else Failed
  {
  }

  lemma AckKeepsLifecycles(m: Lifecycles, ids: set<FrameId>, l: Ledger, id: FrameId, success: bool)
    requires LifecyclesOk(m, ids, l) && LedgerOk(l, ids) && id in ids && id !in l.Acked()
    ensures LifecyclesOk(MarkedDone(m, id, success), ids, AckLedger(l, id, success))
  {
    AckKeepsExpected(l, ids, id, success);
  }

  // --------------------------------------------------------------- the commit

  // The check made before the push and the eviction made after it agree: a commit
  // evicts nothing, or exactly the frame that the check had found.
  function Victim(store: Store): Option<FrameId> {
    if |store.history.frames| < store.maxStored then None
    else FirstWith(store.history.frames, Unprotected(store.lifecycles))
  }

  lemma CommitEvictsVictim(store: Store, f: Frame)
    requires |store.history.frames| <= store.maxStored
    requires Validate(f, store.Context()) == Accepted && f.frameId !in IdsOf(store.history.frames)
    ensures Victim(store).None? ==> store.Committed(f) == store.Filed(f).(lastCode := Accepted)
    ensures Victim(store).Some? ==> store.Committed(f) == store.Filed(f).Evicted(Victim(store).value).(lastCode := Accepted)
    ensures |store.Committed(f).history.frames| == |store.history.frames| + if Victim(store).Some? then 0 else 1
    ensures |store.Committed(f).history.frames| <= store.maxStored
  {
    var filed := store.Filed(f);
    if |store.history.frames| == store.maxStored {
      var p := Unprotected(store.lifecycles);
      var q := Evictable(filed.history.LatestId(), filed.lifecycles);
      forall g | g in store.history.frames ensures p(g.frameId) == q(g.frameId) {
        MemberId(store.history.frames, g);
      }
      FirstWithAgrees(store.history.frames, [f], p, q);
      RemovalShrinks(filed.history, q);
      assert filed.EvictedOld() == filed.Evicted(Victim(store).value).EvictedOld();
    }
  }

  lemma VictimIsStoredAndUnprotected(store: Store)
    requires Victim(store).Some?
    ensures Victim(store).value in IdsOf(store.history.frames)
    ensures !ProtectedFromEviction(store.lifecycles, Victim(store).value)
  {
    var k := FirstWithAt(store.history.frames, Unprotected(store.lifecycles));
    MemberId(store.history.frames, store.history.frames[k]);
  }

  lemma FiledHistory(h: History, log: seq<Frame>, evicted: set<FrameId>, f: Frame)
    requires h.frames == Kept(log, evicted) && IndexExact(h)
    requires f.frameId !in evicted && f.frameId !in IdsOf(h.frames)
    ensures h.Added(f).frames == Kept(log + [f], evicted) && IndexExact(h.Added(f))
    ensures Missing(h.frames + [f], h.Added(f).frames) == {}
  {
    KeptAppend(log, evicted, f);
    IdsAppend(h.frames, f);
  }

  lemma EvictedHistory(h: History, log: seq<Frame>, evicted: set<FrameId>, v: FrameId)
    requires h.frames == Kept(log, evicted) && IndexExact(h) && Increasing(log)
    requires v in IdsOf(h.frames)
    ensures h.Removed(v).frames == Kept(log, evicted + {v}) && IndexExact(h.Removed(v))
    ensures v !in evicted && Missing(h.frames, h.Removed(v).frames) == {v}
  {
    KeptIds(log, evicted);
    KeptWithout(log, evicted, v);
    KeptLess(log, evicted, v);
  }

  lemma KeptLess(log: seq<Frame>, gone: set<FrameId>, v: FrameId)
    requires v !in gone
    ensures IdsOf(Kept(log, gone + {v})) == IdsOf(Kept(log, gone)) - {v}
    ensures forall f :: f in Kept(log, gone + {v}) ==> f in Kept(log, gone) && f.frameId != v
  {
    forall f ensures f in Kept(log, gone + {v}) <==> f in Kept(log, gone) && f.frameId != v {
      KeptMembers(log, gone, f);
      KeptMembers(log, gone + {v}, f);
    }
    forall id ensures id in IdsOf(Kept(log, gone + {v})) <==> id in IdsOf(Kept(log, gone)) && id != v {
      InIds(Kept(log, gone + {v}), id);
      InIds(Kept(log, gone), id);
    }
  }

  lemma FilingKeepsLifecycles(m: Lifecycles, ids: set<FrameId>, l: Ledger, id: FrameId)
    requires LifecyclesOk(m, ids, l) && LedgerOk(l, ids) && id !in ids
    ensures LifecyclesOk(AcceptedReady(m, id), ids + {id}, l) && LedgerOk(l, ids + {id})
  {
  }

  // Only an acknowledged frame is unprotected, and not one acknowledged too early.
  lemma UnprotectedIsAcknowledged(m: Lifecycles, ids: set<FrameId>, l: Ledger, id: FrameId)
    requires LifecyclesOk(m, ids, l) && id in ids && id !in l.evicted
    ensures !ProtectedFromEviction(m, id) <==> id in l.Acked() && !(id in l.early && id in l.returned)
  {
  }

  lemma EvictionKeepsLifecycles(m: Lifecycles, ids: set<FrameId>, l: Ledger, v: FrameId)
    requires LifecyclesOk(m, ids, l) && LedgerOk(l, ids) && v in ids && v !in l.evicted
    requires !ProtectedFromEviction(m, v)
    ensures LifecyclesOk(MarkedDropped(m, v), ids, l.(evicted := l.evicted + {v}))
    ensures LedgerOk(l.(evicted := l.evicted + {v}), ids)
  {
    UnprotectedIsAcknowledged(m, ids, l, v);
  }

  lemma PushedSplits(s: System)
    requires ProducerOk(s.producer, s.pushed, s.store.Context()) && s.producer.Announced?
    ensures s.pushed == s.Committed() + [s.producer.frame]
  {
  }

  lemma CommittedSplits(s: System)
    requires Inv(s) && s.producer.Announced?
    ensures s.pushed == s.Committed() + [s.producer.frame]
    ensures s.producer.frame.frameId !in IdsOf(s.Committed())
    ensures IdsOf(s.pushed) == IdsOf(s.Committed()) + {s.producer.frame.frameId}
    ensures IdsOf(s.store.history.frames) <= IdsOf(s.Committed()) - s.ledger.evicted
  {
    PushedSplits(s);
    LastIsNew(s.Committed(), s.producer.frame, s.pushed);
    KeptIds(s.Committed(), s.ledger.evicted);
  }

  lemma LastIsNew(log: seq<Frame>, f: Frame, pushed: seq<Frame>)
    requires pushed == log + [f] && Increasing(pushed)
    ensures f.frameId !in IdsOf(log) && IdsOf(pushed) == IdsOf(log) + {f.frameId}
  {
    IdsAppend(log, f);
    SplitIds(pushed, log, [f]);
  }

  lemma KeptIds(log: seq<Frame>, gone: set<FrameId>)
    ensures IdsOf(Kept(log, gone)) <= IdsOf(log) - gone
  {
    forall id | id in IdsOf(Kept(log, gone)) ensures id in IdsOf(log) - gone {
      InIds(Kept(log, gone), id);
      var f :| f in Kept(log, gone) && f.frameId == id;
      KeptMembers(log, gone, f);
      MemberId(log, f);
    }
  }

  // Filing the new frame, as an intermediate state: everything but the bound on
  // the deque and the lock is back in place.
  lemma FiledParts(s: System, filed: Store)
    requires Inv(s) && s.producer.Announced? && filed == s.store.Filed(s.producer.frame)
    ensures filed.history.frames == Kept(s.pushed, s.ledger.evicted) && IndexExact(filed.history)
    ensures filed.history.frames == s.store.history.frames + [s.producer.frame]
    ensures filed.history.latest == Some(s.pushed[|s.pushed| - 1])
    ensures LifecyclesOk(filed.lifecycles, IdsOf(s.pushed), s.ledger) && LedgerOk(s.ledger, IdsOf(s.pushed))
    ensures CountsOk(|filed.history.frames|, |s.ledger.evicted|, |s.pushed|, filed)
  {
    CommittedSplits(s);
    FiledHistory(s.store.history, s.Committed(), s.ledger.evicted, s.producer.frame);
    FilingKeepsLifecycles(s.store.lifecycles, IdsOf(s.Committed()), s.ledger, s.producer.frame.frameId);
  }

  lemma CommitInv(s: System, t: System, evicted: set<FrameId>)
    requires Inv(s) && s.producer.Announced?
    requires t == s.(store := t.store, producer := ProducerIdle, ledger := s.ledger.(evicted := evicted))
    requires t.store.queue == s.store.queue
    requires HistoryOk(t.store.history, s.pushed, evicted, t.store.maxStored)
    requires CountsOk(|t.store.history.frames|, |evicted|, |s.pushed|, t.store)
    requires LedgerOk(t.ledger, IdsOf(s.pushed)) && LifecyclesOk(t.store.lifecycles, IdsOf(s.pushed), t.ledger)
    ensures Inv(t)
  {
    assert t.Committed() == s.pushed;
  }

  lemma CommitWithVictim(s: System, t: System, filed: Store, v: FrameId)
    requires Inv(s) && s.producer.Announced? && filed == s.store.Filed(s.producer.frame)
    requires Victim(s.store) == Some(v)
    requires t.store == filed.Evicted(v).(lastCode := Accepted)
    requires t == s.(store := t.store, producer := ProducerIdle,
                     ledger := s.ledger.(evicted := s.ledger.evicted + Missing(filed.history.frames, t.store.history.frames)))
    requires |t.store.history.frames| == |s.store.history.frames| <= t.store.maxStored
    ensures Inv(t) && t.ledger == s.ledger.(evicted := s.ledger.evicted + {v})
  {
    FiledParts(s, filed);
    CommittedSplits(s);
    VictimIsStoredAndUnprotected(s.store);
    EvictedHistory(filed.history, s.pushed, s.ledger.evicted, v);
    assert filed.lifecycles == AcceptedReady(s.store.lifecycles, s.producer.frame.frameId);
    assert !ProtectedFromEviction(filed.lifecycles, v);
    EvictionKeepsLifecycles(filed.lifecycles, IdsOf(s.pushed), s.ledger, v);
    CommitInv(s, t, s.ledger.evicted + {v});
  }

  lemma NothingMissing(l: Ledger, frames: seq<Frame>)
    ensures l.evicted + Missing(frames, frames) == l.evicted
    ensures l.(evicted := l.evicted + Missing(frames, frames)) == l
  {
  }

  lemma CommitWithoutVictim(s: System, t: System, filed: Store)
    requires Inv(s) && s.producer.Announced? && filed == s.store.Filed(s.producer.frame)
    requires t.store == filed.(lastCode := Accepted)
    requires t == s.(store := t.store, producer := ProducerIdle,
                     ledger := s.ledger.(evicted := s.ledger.evicted + Missing(filed.history.frames, t.store.history.frames)))
    requires |t.store.history.frames| <= t.store.maxStored
    ensures Inv(t) && t.ledger == s.ledger
  {
    FiledParts(s, filed);
    CommittedSplits(s);
    NothingMissing(s.ledger, filed.history.frames);
    assert HistoryOk(t.store.history, s.pushed, s.ledger.evicted, t.store.maxStored);
    CommitInv(s, t, s.ledger.evicted);
  }

  lemma CommitEffect(s: System)
    requires Inv(s) && s.producer.Announced?
    ensures var f := s.producer.frame; var committed := s.store.Committed(f);
      && committed == (if Victim(s.store).None? then s.store.Filed(f) else s.store.Filed(f).Evicted(Victim(s.store).value)).(lastCode := Accepted)
      && |committed.history.frames| == |s.store.history.frames| + (if Victim(s.store).Some? then 0 else 1)
      && |committed.history.frames| <= s.store.maxStored
  {
    CommittedSplits(s);
    assert IdsOf(s.store.history.frames) <= IdsOf(s.Committed());
    CommitEvictsVictim(s.store, s.producer.frame);
  }

  function AfterCommit(s: System): Ledger {
    if Victim(s.store).Some? then s.ledger.(evicted := s.ledger.evicted + {Victim(s.store).value}) else s.ledger
  }

  lemma CommitKeepsInv(s: System, step: Step)
    requires Inv(s) && Enabled(s, step) && step.Commit?
    ensures Inv(Apply(s, step))
    ensures Apply(s, step).ledger == AfterCommit(s)
  {
    CommitEffect(s);
    if Victim(s.store).None? {
      CommitWithoutVictim(s, Apply(s, step), s.store.Filed(s.producer.frame));
    } else {
      CommitWithVictim(s, Apply(s, step), s.store.Filed(s.producer.frame), Victim(s.store).value);
    }
  }

  lemma StepKeepsInv(s: System, step: Step)
    requires Inv(s) && Enabled(s, step)
    ensures Inv(Apply(s, step))
  {
    match step
    case Submit(_) => SubmitKeepsInv(s, step);
    case Push => PushKeepsInv(s, step);
    case Announce => AnnounceKeepsInv(s, step);
    case Commit => CommitKeepsInv(s, step);
    case Pop => PopKeepsInv(s, step);
    case MoveInFlight => MoveKeepsInv(s, step);
    case Dispatch => DispatchKeepsInv(s, step);
    case Acknowledge(_, _) => AcknowledgeKeepsInv(s, step);
  }

  lemma NextKeepsInv(s: System, step: Step, t: System)
    requires Inv(s) && Next(s, step, t)
    ensures Inv(t)
  {
    StepKeepsInv(s, step);
  }

  lemma InitialInv(maxStored: nat, maxReady: nat)
    ensures Inv(Initial(maxStored, maxReady))
  {
    var s := Initial(maxStored, maxReady);
    assert IdsOf([]) == {} && Kept([], {}) == [];
    assert FifoOk([], [], []) && IndexExact(s.store.history);
  }

  lemma RunNext(maxStored: nat, maxReady: nat, states: seq<System>, steps: seq<Step>, k: nat)
    requires IsRun(maxStored, maxReady, states, steps) && k < |steps|
    ensures Next(states[k], steps[k], states[k + 1])
  {
  }

  ghost predicate InvAt(states: seq<System>, i: nat) {
    i < |states| && Inv(states[i])
  }

  lemma {:induction false} RunInvariant(maxStored: nat, maxReady: nat, states: seq<System>, steps: seq<Step>, i: nat)
    requires IsRun(maxStored, maxReady, states, steps) && i < |states|
    ensures InvAt(states, i)
    decreases i
  {
    if i == 0 {
      InitialInv(maxStored, maxReady);
    } else {
      var k := i - 1;
      RunInvariant(maxStored, maxReady, states, steps, k);
      RunNext(maxStored, maxReady, states, steps, k);
      NextKeepsInv(states[k], steps[k], states[k + 1]);
    }
  }

  ghost predicate Reachable(maxStored: nat, maxReady: nat, s: System) {
    exists states, steps :: IsRun(maxStored, maxReady, states, steps) && s == states[|steps|]
  }

  lemma ReachableInv(maxStored: nat, maxReady: nat, s: System)
    requires Reachable(maxStored, maxReady, s)
    ensures Inv(s)
  {
    var states, steps :| IsRun(maxStored, maxReady, states, steps) && s == states[|steps|];
    RunInvariant(maxStored, maxReady, states, steps, |steps|);
  }

  lemma ReachableNext(maxStored: nat, maxReady: nat, s: System, step: Step, t: System)
    requires Reachable(maxStored, maxReady, s) && Next(s, step, t)
    ensures Reachable(maxStored, maxReady, t)
  {
    var states, steps :| IsRun(maxStored, maxReady, states, steps) && s == states[|steps|];
    var states', steps' := states + [t], steps + [step];
    forall i | 0 <= i < |steps'| ensures Next(states'[i], steps'[i], states'[i + 1]) {
      if i < |steps| {
        RunNext(maxStored, maxReady, states, steps, i);
      }
    }
    assert IsRun(maxStored, maxReady, states', steps') && t == states'[|steps'|];
  }

  ghost predicate AllWellFormed(frames: seq<Frame>) {
    forall f :: f in frames ==> WellFormed(f)
  }

  lemma StepKeepsWellFormed(s: System, step: Step)
    requires ProducerOk(s.producer, s.pushed, s.store.Context()) && AllWellFormed(s.pushed) && Enabled(s, step)
    ensures AllWellFormed(Apply(s, step).pushed)
  {
  }

  lemma {:induction false} RunKeepsWellFormed(maxStored: nat, maxReady: nat, states: seq<System>, steps: seq<Step>, i: nat)
    requires IsRun(maxStored, maxReady, states, steps) && i < |states|
    ensures AllWellFormed(states[i].pushed)
    decreases i
  {
    if i > 0 {
      var k := i - 1;
      RunKeepsWellFormed(maxStored, maxReady, states, steps, k);
      RunInvariant(maxStored, maxReady, states, steps, k);
      RunNext(maxStored, maxReady, states, steps, k);
      StepKeepsWellFormed(states[k], steps[k]);
    }
  }

  // Every frame that was ever queued or accepted passed the admission checks.
  lemma AcceptedFramesAreWellFormed(maxStored: nat, maxReady: nat, s: System, f: Frame)
    requires Reachable(maxStored, maxReady, s) && (f in s.pushed || f in s.Committed())
    ensures WellFormed(f)
  {
    var states, steps :| IsRun(maxStored, maxReady, states, steps) && s == states[|steps|];
    RunKeepsWellFormed(maxStored, maxReady, states, steps, |steps|);
    assert f in s.pushed;
  }

  // What a step does to the ledger.
  function NextLedger(s: System, step: Step): Ledger
    requires Enabled(s, step)
  {
    var l := s.ledger;
    match step
    case Dispatch => l.(returned := l.returned + {s.consumer.frame.frameId})
    case Acknowledge(id, success) => if id in s.store.queue.inFlightIds then AckLedger(l, id, success) else l
    case Commit => AfterCommit(s)
    case _ => l
  }

  lemma LedgerAfter(s: System, step: Step)
    requires Inv(s) && Enabled(s, step)
    ensures Apply(s, step).ledger == NextLedger(s, step)
  {
    if step.Commit? {
      CommitKeepsInv(s, step);
    } else if step.Acknowledge? {
      AcknowledgeEffect(s, step);
    } else {
      LedgerAfterOthers(s, step);
    }
  }

  lemma LedgerAfterOthers(s: System, step: Step)
    requires Enabled(s, step) && !step.Commit? && !step.Acknowledge?
    ensures Apply(s, step).ledger == NextLedger(s, step)
  {
  }

  lemma PushedAfter(s: System, step: Step)
    requires Enabled(s, step)
    ensures s.pushed <= Apply(s, step).pushed && s.popped <= Apply(s, step).popped
  {
  }

  lemma CommittedAfter(s: System, step: Step)
    requires Inv(s) && Enabled(s, step)
    ensures Apply(s, step).Committed() == if step.Commit? then s.Committed() + [s.producer.frame] else s.Committed()
  {
    if step.Commit? {
      CommittedAfterCommit(s, step);
      CommittedSplits(s);
    } else {
      CommittedAfterOthers(s, step);
    }
  }

  lemma CommittedAfterCommit(s: System, step: Step)
    requires Enabled(s, step) && step.Commit?
    ensures Apply(s, step).Committed() == s.pushed
  {
  }

  lemma CommittedAfterOthers(s: System, step: Step)
    requires Enabled(s, step) && !step.Commit?
    ensures Apply(s, step).Committed() == s.Committed()
  {
    if step.Push? && !s.store.queue.Full() {
      assert (s.pushed + [s.producer.frame])[..|s.pushed|] == s.pushed;
    }
  }

  // ------------------------------------------------------------- main theorems

  // At every moment of every run the deque is within its bound, the map is its
  // exact index, and the frame accepted last is still there.
  lemma BoundedHistory(maxStored: nat, maxReady: nat, s: System)
    requires Reachable(maxStored, maxReady, s)
    ensures |s.store.history.frames| <= s.store.maxStored && IndexExact(s.store.history)
    ensures s.Committed() != [] ==>
      s.store.history.latest == Some(s.Committed()[|s.Committed()| - 1])
      && s.store.history.latest.value in s.store.history.frames
  {
    ReachableInv(maxStored, maxReady, s);
    if s.Committed() != [] {
      KeptMembers(s.Committed(), s.ledger.evicted, s.Committed()[|s.Committed()| - 1]);
    }
  }

  // The only step that evicts is a commit, and it evicts at most one frame: one
  // that was stored and acknowledged.
  lemma EvictsOnlyAcknowledged(maxStored: nat, maxReady: nat, s: System, step: Step, t: System)
    requires Reachable(maxStored, maxReady, s) && Next(s, step, t)
    ensures t.ledger.evicted != s.ledger.evicted ==> step.Commit? && Victim(s.store).Some?
    ensures step.Commit? && Victim(s.store).Some? ==>
      var v := Victim(s.store).value;
      && t.ledger.evicted == s.ledger.evicted + {v}
      && v in IdsOf(s.store.history.frames) && v in s.ledger.Acked()
      && !(v in s.ledger.early && v in s.ledger.returned)
  {
    ReachableInv(maxStored, maxReady, s);
    LedgerAfter(s, step);
    if Victim(s.store).Some? {
      VictimIsStoredAndUnprotected(s.store);
      KeptIds(s.Committed(), s.ledger.evicted);
      UnprotectedIsAcknowledged(s.store.lifecycles, IdsOf(s.Committed()), s.ledger, Victim(s.store).value);
    }
  }

  // Every accepted frame that nobody has acknowledged is stored and protected,
  // wherever it is on its way through the queue and the consumer.
  lemma UnacknowledgedFramesAreKept(maxStored: nat, maxReady: nat, s: System, f: Frame)
    requires Reachable(maxStored, maxReady, s)
    requires f in s.Committed() && f.frameId !in s.ledger.Acked()
    ensures f in s.store.history.frames
    ensures f.frameId in s.store.history.byId && s.store.history.byId[f.frameId] == f
    ensures ProtectedFromEviction(s.store.lifecycles, f.frameId)
  {
    ReachableInv(maxStored, maxReady, s);
    KeptMembers(s.Committed(), s.ledger.evicted, f);
    MemberId(s.Committed(), f);
    MemberId(s.store.history.frames, f);
  }

  // A dequeue that gets as far as marking its frame always finds the entry.
  lemma DispatchFindsItsEntry(maxStored: nat, maxReady: nat, s: System)
    requires Reachable(maxStored, maxReady, s) && Enabled(s, Dispatch)
    ensures s.consumer.frame in s.Committed() && s.consumer.frame.frameId in s.store.lifecycles
  {
    ReachableInv(maxStored, maxReady, s);
    ConsumerFrameIsCommitted(s);
  }

  // First in, first out, exactly once: what left the queue is a prefix of what
  // entered it, ids and timestamps strictly increase, and both logs only grow.
  lemma ExactlyOnceInOrder(maxStored: nat, maxReady: nat, s: System, step: Step, t: System)
    requires Reachable(maxStored, maxReady, s) && Next(s, step, t)
    ensures s.pushed == s.popped + s.store.queue.fifo
    ensures Increasing(s.popped) && Increasing(s.pushed)
    ensures s.popped <= t.popped && s.pushed <= t.pushed
  {
    ReachableInv(maxStored, maxReady, s);
    PrefixIncreasing(s.pushed, s.popped, s.store.queue.fifo);
    PushedAfter(s, step);
  }

  lemma PrefixIncreasing(pushed: seq<Frame>, popped: seq<Frame>, fifo: seq<Frame>)
    requires FifoOk(pushed, popped, fifo)
    ensures Increasing(popped)
  {
    forall a, b | 0 <= a < b < |popped| ensures popped[a].frameId < popped[b].frameId && popped[a].ticks < popped[b].ticks {
      assert pushed[a] == popped[a] && pushed[b] == popped[b];
    }
  }

  // Every id that entered the queue is in exactly one place.
  lemma Conservation(maxStored: nat, maxReady: nat, s: System)
    requires Reachable(maxStored, maxReady, s)
    ensures var q, l := s.store.queue, s.ledger;
      && IdsOf(s.pushed) == IdsOf(q.fifo) + Unmoved(s.consumer) + q.inFlightIds + l.consumed + l.failed
      && IdsOf(q.fifo) !! Unmoved(s.consumer) !! q.inFlightIds !! l.consumed !! l.failed
    ensures s.store.accepted == |s.Committed()| == |s.store.history.frames| + s.store.evicted
    ensures s.store.evicted == s.store.dropped == |s.ledger.evicted|
  {
    ReachableInv(maxStored, maxReady, s);
    SplitIds(s.pushed, s.popped, s.store.queue.fifo);
    if s.consumer.Popped? {
      MemberId(s.popped, s.consumer.frame);
    }
    Partition(IdsOf(s.pushed), IdsOf(s.store.queue.fifo), IdsOf(s.popped), s.store.queue.inFlightIds, s.consumer, s.ledger);
  }

  lemma Partition(pushedIds: set<FrameId>, fifoIds: set<FrameId>, poppedIds: set<FrameId>, inFlightIds: set<FrameId>, c: Consumer, l: Ledger)
    requires pushedIds == poppedIds + fifoIds && poppedIds !! fifoIds && Unmoved(c) <= poppedIds
    requires FlightOk(inFlightIds, poppedIds, c, l) && l.consumed !! l.failed
    ensures pushedIds == fifoIds + Unmoved(c) + inFlightIds + l.consumed + l.failed
    ensures fifoIds !! Unmoved(c) !! inFlightIds !! l.consumed !! l.failed
  {
    assert inFlightIds + l.consumed + l.failed == poppedIds - Unmoved(c);
  }

  // ------------------------------------------------------------ the lifecycle

  function StateOf(s: System, id: FrameId): LifecycleState
    requires id in s.store.lifecycles
  {
    s.store.lifecycles[id].state
  }

  // The lifecycle map says exactly what the ledger says.
  lemma LifecycleExact(maxStored: nat, maxReady: nat, s: System, id: FrameId)
    requires Reachable(maxStored, maxReady, s) && id in IdsOf(s.Committed())
    ensures id in s.store.lifecycles && StateOf(s, id) == s.ledger.Expected(id)
  {
    ReachableInv(maxStored, maxReady, s);
  }

  predicate Follows(a: LifecycleState, b: LifecycleState) {
    || a == b
    || (a == Ready && b == Dispatched)
    || (a == Dispatched && (b == Consumed || b == Failed))
    || ((a == Consumed || a == Failed) && b == Dropped)
  }

  // An accepted frame that is not acknowledged before its dequeue returns moves
  // only forward through Ready, Dispatched, Consumed or Failed, Dropped, whatever
  // step is taken; in particular no later rejection overwrites it.
  lemma LifecycleMovesForward(maxStored: nat, maxReady: nat, s: System, step: Step, t: System, id: FrameId)
    requires Reachable(maxStored, maxReady, s) && Next(s, step, t)
    requires id in IdsOf(s.Committed()) && id !in t.ledger.early
    ensures id in s.store.lifecycles && id in t.store.lifecycles
    ensures Follows(StateOf(s, id), StateOf(t, id))
  {
    ReachableNext(maxStored, maxReady, s, step, t);
    ReachableInv(maxStored, maxReady, s);
    ReachableInv(maxStored, maxReady, t);
    CommittedAfter(s, step);
    LedgerAfter(s, step);
    if step.Commit? {
      IdsAppend(s.Committed(), s.producer.frame);
      EvictsOnlyAcknowledged(maxStored, maxReady, s, step, t);
    }
    ExpectedFollows(s, step, id);
    LifecycleExact(maxStored, maxReady, s, id);
    LifecycleExact(maxStored, maxReady, t, id);
  }

  lemma ExpectedFollows(s: System, step: Step, id: FrameId)
    requires Inv(s) && Enabled(s, step) && id !in NextLedger(s, step).early
    requires step.Commit? && Victim(s.store).Some? ==> Victim(s.store).value in s.ledger.Acked()
    ensures Follows(s.ledger.Expected(id), NextLedger(s, step).Expected(id))
  {
    var ids := IdsOf(s.Committed());
    match step
    case Dispatch => FollowsDispatch(s.ledger, ids, id, s.consumer.frame.frameId);
    case Acknowledge(x, success) => if x in s.store.queue.inFlightIds { FollowsAck(s.ledger, ids, id, x, success); }
    case Commit => if Victim(s.store).Some? { FollowsEvict(s.ledger, ids, id, Victim(s.store).value); }
    case _ =>
  }

  lemma FollowsDispatch(l: Ledger, ids: set<FrameId>, id: FrameId, x: FrameId)
    requires LedgerOk(l, ids) && id !in l.early
    ensures Follows(l.Expected(id), l.(returned := l.returned + {x}).Expected(id))
  {
  }

  lemma FollowsAck(l: Ledger, ids: set<FrameId>, id: FrameId, x: FrameId, success: bool)
    requires LedgerOk(l, ids) && x !in l.Acked() && id !in AckLedger(l, x, success).early
    ensures Follows(l.Expected(id), AckLedger(l, x, success).Expected(id))
  {
  }

  lemma FollowsEvict(l: Ledger, ids: set<FrameId>, id: FrameId, v: FrameId)
    requires LedgerOk(l, ids) && v in l.Acked() && id !in l.early
    ensures Follows(l.Expected(id), l.(evicted := l.evicted + {v}).Expected(id))
  {
  }

  // ------------------------------------------------------- the whole life entries

  // Every flag of an entry, in terms of what has happened to its frame.
  predicate EntryOk(e: Lifecycle, id: FrameId, accepted: bool, l: Ledger) {
    && e.frameId == id
    && if accepted then
         && e.captured && e.stored && e.readyForConsumer && !e.invalid
         && (e.dispatchedToConsumer <==> id in l.returned || id in l.consumed || id in l.failed)
         && (e.consumed <==> id in l.consumed) && (e.failed <==> id in l.failed)
         && (e.dropped <==> id in l.evicted)
       else e == Lifecycle(id, Invalid, true, false, false, false, false, false, true, false)
  }

  ghost predicate EntriesOk(m: Lifecycles, ids: set<FrameId>, l: Ledger) {
    forall id :: id in m ==> EntryOk(m[id], id, id in ids, l)
  }

  lemma RejectionKeepsEntries(m: Lifecycles, id: FrameId, ids: set<FrameId>, l: Ledger)
    requires EntriesOk(m, ids, l) && LifecyclesOk(m, ids, l)
    ensures EntriesOk(RecordedInvalid(m, id), ids, l)
    ensures RecordedInvalid(m, id).Keys == m.Keys + (if id == 0 then {} else {id})
  {
  }

  lemma FilingKeepsEntries(m: Lifecycles, ids: set<FrameId>, l: Ledger, id: FrameId)
    requires EntriesOk(m, ids, l) && LedgerOk(l, ids) && id !in ids
    ensures EntriesOk(AcceptedReady(m, id), ids + {id}, l)
  {
  }

  lemma EvictionKeepsEntries(m: Lifecycles, ids: set<FrameId>, l: Ledger, v: FrameId)
    requires EntriesOk(m, ids, l) && v in ids && v in m
    ensures EntriesOk(MarkedDropped(m, v), ids, l.(evicted := l.evicted + {v}))
    ensures MarkedDropped(m, v).Keys == m.Keys
  {
  }

  lemma DispatchKeepsEntries(m: Lifecycles, ids: set<FrameId>, l: Ledger, id: FrameId)
    requires EntriesOk(m, ids, l) && id in ids && id in m
    ensures EntriesOk(MarkedDispatched(m, id), ids, l.(returned := l.returned + {id}))
    ensures MarkedDispatched(m, id).Keys == m.Keys
  {
  }

  lemma AckKeepsEntries(m: Lifecycles, ids: set<FrameId>, l: Ledger, id: FrameId, success: bool)
    requires EntriesOk(m, ids, l) && id in ids && id in m
    ensures EntriesOk(MarkedDone(m, id, success), ids, AckLedger(l, id, success))
    ensures MarkedDone(m, id, success).Keys == m.Keys
  {
  }

  function CommittedEntries(m: Lifecycles, id: FrameId, victim: Option<FrameId>): Lifecycles {
    if victim.None? then AcceptedReady(m, id) else MarkedDropped(AcceptedReady(m, id), victim.value)
  }

  lemma CommitKeepsEntries(m: Lifecycles, ids: set<FrameId>, l: Ledger, id: FrameId, victim: Option<FrameId>)
    requires EntriesOk(m, ids, l) && LedgerOk(l, ids) && id !in ids
    requires victim.Some? ==> victim.value in ids && victim.value in m
    ensures EntriesOk(CommittedEntries(m, id, victim), ids + {id},
                      if victim.Some? then l.(evicted := l.evicted + {victim.value}) else l)
    ensures CommittedEntries(m, id, victim).Keys == m.Keys + {id}
  {
    FilingKeepsEntries(m, ids, l, id);
    if victim.Some? {
      EvictionKeepsEntries(AcceptedReady(m, id), ids + {id}, l, victim.value);
    }
  }

  lemma CommitEntries(s: System)
    requires Inv(s) && s.producer.Announced?
    ensures s.store.Committed(s.producer.frame).lifecycles
            == CommittedEntries(s.store.lifecycles, s.producer.frame.frameId, Victim(s.store))
    ensures Victim(s.store).Some? ==>
      Victim(s.store).value in IdsOf(s.Committed()) && Victim(s.store).value in s.store.lifecycles
  {
    CommitEffect(s);
    if Victim(s.store).Some? {
      VictimIsStoredAndUnprotected(s.store);
      KeptIds(s.Committed(), s.ledger.evicted);
    }
  }

  // Whether this step turns a frame down, and the id under which that is recorded.
  predicate Refuses(s: System, step: Step)
    requires Enabled(s, step)
  {
    || (step.Submit? && Validate(step.frame, s.store.Context()) != Accepted)
    || (step.Push? && s.store.queue.Full())
  }

  function IdInHand(s: System, step: Step): FrameId
    requires Enabled(s, step)
  {
    if step.Submit? then step.frame.frameId else if step.Push? then s.producer.frame.frameId else 0
  }

  function Refused(s: System, step: Step): set<FrameId>
    requires Enabled(s, step)
  {
    if Refuses(s, step) && IdInHand(s, step) != 0 then {IdInHand(s, step)} else {}
  }

  // One entry for every accepted frame and for every refused id, and no other.
  ghost predicate Accounted(m: Lifecycles, ids: set<FrameId>, l: Ledger, refused: set<FrameId>) {
    EntriesOk(m, ids, l) && m.Keys == ids + refused
  }

  // What a step does to the entries.
  lemma SubmissionEffect(s: System, step: Step)
    requires Enabled(s, step) && (step.Submit? || step.Push?)
    ensures var m, t := s.store.lifecycles, Apply(s, step).store.lifecycles;
      t == if Refuses(s, step) then RecordedInvalid(m, IdInHand(s, step)) else m
  {
  }

  lemma DequeueEffect(s: System, step: Step)
    requires Enabled(s, step) && (step.Announce? || step.Pop? || step.MoveInFlight? || step.Dispatch?)
    ensures var m, t := s.store.lifecycles, Apply(s, step).store.lifecycles;
      t == if step.Dispatch? then MarkedDispatched(m, s.consumer.frame.frameId) else m
  {
  }

  lemma RefusalAccounts(m: Lifecycles, ids: set<FrameId>, l: Ledger, refused: set<FrameId>, id: FrameId)
    requires Accounted(m, ids, l, refused)
    ensures Accounted(RecordedInvalid(m, id), ids, l, refused + (if id != 0 then {id} else {}))
  {
    var after := RecordedInvalid(m, id);
    assert after.Keys == m.Keys + (if id != 0 then {id} else {});
  }

  lemma SubmissionAccounts(s: System, step: Step, ids: set<FrameId>, l: Ledger, refused: set<FrameId>)
    requires Enabled(s, step) && (step.Submit? || step.Push?) && Accounted(s.store.lifecycles, ids, l, refused)
    ensures Accounted(Apply(s, step).store.lifecycles, ids, l, refused + Refused(s, step))
  {
    SubmissionEffect(s, step);
    if Refuses(s, step) {
      RefusalAccounts(s.store.lifecycles, ids, l, refused, IdInHand(s, step));
    } else {
      assert refused + {} == refused;
    }
  }

  lemma DequeueAccounts(s: System, step: Step, refused: set<FrameId>)
    requires Inv(s) && Enabled(s, step) && (step.Announce? || step.Pop? || step.MoveInFlight? || step.Dispatch?)
    requires Accounted(s.store.lifecycles, IdsOf(s.Committed()), s.ledger, refused)
    ensures Accounted(Apply(s, step).store.lifecycles, IdsOf(s.Committed()), NextLedger(s, step), refused)
  {
    DequeueEffect(s, step);
    if step.Dispatch? {
      ConsumerFrameIsCommitted(s);
      MemberId(s.Committed(), s.consumer.frame);
      DispatchKeepsEntries(s.store.lifecycles, IdsOf(s.Committed()), s.ledger, s.consumer.frame.frameId);
    }
  }

  lemma InFlightIsCommitted(s: System, id: FrameId)
    requires Inv(s) && s.producer.ProducerIdle? && id in s.store.queue.inFlightIds
    ensures id in IdsOf(s.Committed()) && id in s.store.lifecycles
  {
    SplitIds(s.pushed, s.popped, s.store.queue.fifo);
    assert s.Committed() == s.pushed;
  }

  lemma AckAccounts(s: System, step: Step, refused: set<FrameId>)
    requires Inv(s) && Enabled(s, step) && step.Acknowledge?
    requires Accounted(s.store.lifecycles, IdsOf(s.Committed()), s.ledger, refused)
    ensures Accounted(Apply(s, step).store.lifecycles, IdsOf(s.Committed()), NextLedger(s, step), refused)
  {
    AcknowledgeEffect(s, step);
    if step.id in s.store.queue.inFlightIds {
      InFlightIsCommitted(s, step.id);
      AckKeepsEntries(s.store.lifecycles, IdsOf(s.Committed()), s.ledger, step.id, step.success);
    }
  }

  lemma FilingAccounts(m: Lifecycles, ids: set<FrameId>, l: Ledger, refused: set<FrameId>, id: FrameId, victim: Option<FrameId>)
    requires Accounted(m, ids, l, refused) && LedgerOk(l, ids) && id !in ids
    requires victim.Some? ==> victim.value in ids && victim.value in m
    ensures Accounted(CommittedEntries(m, id, victim), ids + {id},
                      if victim.Some? then l.(evicted := l.evicted + {victim.value}) else l, refused)
  {
    CommitKeepsEntries(m, ids, l, id, victim);
    assert m.Keys + {id} == ids + {id} + refused;
  }

  lemma CommitChangesEntries(s: System)
    requires Inv(s) && Enabled(s, Commit)
    ensures Apply(s, Commit).store.lifecycles
            == CommittedEntries(s.store.lifecycles, s.producer.frame.frameId, Victim(s.store))
    ensures Victim(s.store).Some? ==>
      Victim(s.store).value in IdsOf(s.Committed()) && Victim(s.store).value in s.store.lifecycles
  {
    CommitEntries(s);
  }

  lemma CommitAccounts(s: System, refused: set<FrameId>)
    requires Inv(s) && Enabled(s, Commit) && Accounted(s.store.lifecycles, IdsOf(s.Committed()), s.ledger, refused)
    ensures Accounted(Apply(s, Commit).store.lifecycles, IdsOf(s.pushed), AfterCommit(s), refused)
  {
    CommitChangesEntries(s);
    CommittedSplits(s);
    FilingAccounts(s.store.lifecycles, IdsOf(s.Committed()), s.ledger, refused, s.producer.frame.frameId, Victim(s.store));
  }

  lemma StepAccounts(s: System, step: Step, refused: set<FrameId>)
    requires Inv(s) && Enabled(s, step) && Accounted(s.store.lifecycles, IdsOf(s.Committed()), s.ledger, refused)
    ensures var t := Apply(s, step);
      Accounted(t.store.lifecycles, IdsOf(t.Committed()), t.ledger, refused + Refused(s, step))
  {
    CommittedAfter(s, step);
    LedgerAfter(s, step);
    if step.Submit? || step.Push? {
      SubmissionAccounts(s, step, IdsOf(s.Committed()), s.ledger, refused);
    } else {
      OthersRefuseNothing(s, step, refused);
      if step.Commit? {
        CommittedAfterCommit(s, step);
        CommitAccounts(s, refused);
      } else if step.Acknowledge? {
        AckAccounts(s, step, refused);
      } else {
        DequeueAccounts(s, step, refused);
      }
    }
  }

  lemma OthersRefuseNothing(s: System, step: Step, refused: set<FrameId>)
    requires Enabled(s, step) && !step.Submit? && !step.Push?
    ensures refused + Refused(s, step) == refused
  {
  }

  // The ids of all frames that were turned down in the first steps of a run.
  ghost function RefusedIds(maxStored: nat, maxReady: nat, states: seq<System>, steps: seq<Step>, n: nat): set<FrameId>
    requires IsRun(maxStored, maxReady, states, steps) && n <= |steps|
  {
    if n == 0 then {}
    else
      RunNext(maxStored, maxReady, states, steps, n - 1);
      RefusedIds(maxStored, maxReady, states, steps, n - 1) + Refused(states[n - 1], steps[n - 1])
  }

  // The lifecycle entries after any run: there is one for every accepted frame and
  // for every refused id but zero, and no other; each flag says what happened to the
  // frame; a refusal never touches the entry of an accepted one.
  lemma {:induction false} EntriesSayWhatHappened(maxStored: nat, maxReady: nat, states: seq<System>, steps: seq<Step>, n: nat)
    requires IsRun(maxStored, maxReady, states, steps) && n <= |steps|
    ensures var s := states[n];
      Accounted(s.store.lifecycles, IdsOf(s.Committed()), s.ledger, RefusedIds(maxStored, maxReady, states, steps, n))
    decreases n
  {
    if n > 0 {
      var k := n - 1;
      EntriesSayWhatHappened(maxStored, maxReady, states, steps, k);
      RunInvariant(maxStored, maxReady, states, steps, k);
      RunNext(maxStored, maxReady, states, steps, k);
      StepAccounts(states[k], steps[k], RefusedIds(maxStored, maxReady, states, steps, k));
    }
  }

  // ------------------------------------------------------ early acknowledgements

  // Marked as dispatched, yet no longer in flight: no acknowledgement can succeed,
  // and the frame is protected.
  predicate Stuck(s: System, id: FrameId) {
    id in s.store.lifecycles && StateOf(s, id) == Dispatched && id !in s.store.queue.inFlightIds
  }

  // Exactly the frames acknowledged before their dequeue returned get stuck.
  lemma StuckIffAcknowledgedEarly(maxStored: nat, maxReady: nat, s: System, id: FrameId)
    requires Reachable(maxStored, maxReady, s) && id in s.ledger.returned
    ensures Stuck(s, id) <==> id in s.ledger.early
  {
    ReachableInv(maxStored, maxReady, s);
    LifecycleExact(maxStored, maxReady, s, id);
    assert id in s.store.queue.inFlightIds <==> id !in s.ledger.Acked();
  }

  // A stuck frame stays stuck, and if it is stored it is stored for ever.
  lemma StuckForEver(maxStored: nat, maxReady: nat, s: System, step: Step, t: System, id: FrameId)
    requires Reachable(maxStored, maxReady, s) && Next(s, step, t)
    requires id in s.ledger.returned && Stuck(s, id)
    ensures id in t.ledger.returned && Stuck(t, id)
    ensures id in IdsOf(s.store.history.frames) ==> id in IdsOf(t.store.history.frames)
  {
    StuckIffAcknowledgedEarly(maxStored, maxReady, s, id);
    ReachableNext(maxStored, maxReady, s, step, t);
    LedgerGrows(maxStored, maxReady, s, step, t);
    StuckIffAcknowledgedEarly(maxStored, maxReady, t, id);
    if id in IdsOf(s.store.history.frames) {
      StoredUnlessEvicted(maxStored, maxReady, s, step, t, id);
      EvictsOnlyAcknowledged(maxStored, maxReady, s, step, t);
    }
  }

  lemma LedgerGrows(maxStored: nat, maxReady: nat, s: System, step: Step, t: System)
    requires Reachable(maxStored, maxReady, s) && Next(s, step, t)
    ensures s.ledger.returned <= t.ledger.returned && s.ledger.early <= t.ledger.early
  {
    ReachableInv(maxStored, maxReady, s);
    LedgerAfter(s, step);
    NextLedgerGrows(s, step);
  }

  lemma NextLedgerGrows(s: System, step: Step)
    requires Enabled(s, step)
    ensures s.ledger.returned <= NextLedger(s, step).returned && s.ledger.early <= NextLedger(s, step).early
  {
  }

  lemma StoredUnlessEvicted(maxStored: nat, maxReady: nat, s: System, step: Step, t: System, id: FrameId)
    requires Reachable(maxStored, maxReady, s) && Next(s, step, t) && id in IdsOf(s.store.history.frames)
    ensures id !in s.ledger.evicted
    ensures id !in t.ledger.evicted ==> id in IdsOf(t.store.history.frames)
  {
    ReachableNext(maxStored, maxReady, s, step, t);
    ReachableInv(maxStored, maxReady, s);
    ReachableInv(maxStored, maxReady, t);
    KeptIds(s.Committed(), s.ledger.evicted);
    CommittedAfter(s, step);
    if id !in t.ledger.evicted {
      KeptGrows(s.Committed(), t.Committed(), s.ledger.evicted, t.ledger.evicted, id);
    }
  }

  lemma KeptGrows(log: seq<Frame>, log': seq<Frame>, gone: set<FrameId>, gone': set<FrameId>, id: FrameId)
    requires log <= log' && id in IdsOf(Kept(log, gone)) && id !in gone'
    ensures id in IdsOf(Kept(log', gone'))
  {
    InIds(Kept(log, gone), id);
    var f :| f in Kept(log, gone) && f.frameId == id;
    KeptMembers(log, gone, f);
    KeptMembers(log', gone', f);
    MemberId(Kept(log', gone'), f);
  }

  // A history full of stuck frames accepts nothing more.
  lemma StuckFramesFillHistory(s: System, g: Frame)
    requires |s.store.history.frames| >= s.store.maxStored
    requires forall f :: f in s.store.history.frames ==> Stuck(s, f.frameId)
    ensures Validate(g, s.store.Context()) != Accepted
  {
    var k := FirstWithAt(s.store.history.frames, Unprotected(s.store.lifecycles));
    if k < |s.store.history.frames| {
      assert false;
    }
  }

  // The first frame of all, accepted and still in the queue.
  lemma FirstAccepted(maxStored: nat, maxReady: nat, f: Frame) returns (s: System)
    requires WellFormed(f)
    ensures Reachable(maxStored, maxReady, s) && s.producer.ProducerIdle? && s.consumer.ConsumerIdle?
    ensures s.pushed == [f] && s.ledger == Ledger({}, {}, {}, {}, {})
    ensures s.store.queue == Queue(Max(1, maxReady), [f], {f.frameId}, {}) && s.store.maxStored == Max(1, maxStored)
    ensures s.store.history.frames == [f] && s.store.history.latest == Some(f)
  {
    s := Initial(maxStored, maxReady);
    var none: seq<Step> := [];
    assert IsRun(maxStored, maxReady, [s], none) && s == [s][|none|];
    assert s.store.Context() == ValidationContext(None, None, false, false);
    s := Taken(maxStored, maxReady, s, Submit(f));
    s := Taken(maxStored, maxReady, s, Push);
    s := Taken(maxStored, maxReady, s, Announce);
    s := Taken(maxStored, maxReady, s, Commit);
  }

  // Such a frame exists: one acknowledgement between the move and the mark suffices.
  lemma EarlyAcknowledgementLeaks(f: Frame) returns (s: System)
    requires WellFormed(f)
    ensures Reachable(1, 1, s) && Stuck(s, f.frameId) && s.store.history.frames == [f] && s.store.maxStored == 1
  {
    var id := f.frameId;
    s := FirstAccepted(1, 1, f);
    s := Taken(1, 1, s, Pop);
    s := Taken(1, 1, s, MoveInFlight);
    s := Taken(1, 1, s, Acknowledge(id, true));
    s := Taken(1, 1, s, Dispatch);
    StuckIffAcknowledgedEarly(1, 1, s, id);
  }

  lemma Taken(maxStored: nat, maxReady: nat, s: System, step: Step) returns (t: System)
    requires Reachable(maxStored, maxReady, s) && Enabled(s, step)
    ensures t == Apply(s, step) && Reachable(maxStored, maxReady, t)
  {
    t := Apply(s, step);
    ReachableNext(maxStored, maxReady, s, step, t);
  }

  // --------------------------------------------------------- verdicts in a run

  lemma {:induction false} EvictionKeepsVerdicts(store: Store)
    ensures store.EvictedOld().rejected == store.rejected && store.EvictedOld().lastCode == store.lastCode
    ensures store.EvictedOld().maxStored == store.maxStored && store.EvictedOld().queue == store.queue
    decreases |store.history.frames|
  {
    if |store.history.frames| > store.maxStored {
      var canEvict := Evictable(store.history.LatestId(), store.lifecycles);
      var id := FirstWith(store.history.frames, canEvict);
      if id.Some? {
        RemovalShrinks(store.history, canEvict);
        EvictionKeepsVerdicts(store.Evicted(id.value));
      }
    }
  }

  // A submission is turned down at its validation or at its push, and nowhere else.
  lemma RejectionsAfter(s: System, step: Step)
    requires Enabled(s, step)
    ensures var t := Apply(s, step);
      if step.Submit? && Validate(step.frame, s.store.Context()) != Accepted
      then t == s.(store := s.store.Rejected(step.frame, Validate(step.frame, s.store.Context())))
      else if step.Push? && s.store.queue.Full()
      then t == s.(store := s.store.Rejected(s.producer.frame, ReadyFrameQueueFull), producer := ProducerIdle)
      else t.store.rejected == s.store.rejected
  {
    match step
    case Commit => EvictionKeepsVerdicts(s.store.Filed(s.producer.frame));
    case Acknowledge(id, success) =>
      if id in s.store.queue.inFlightIds {
        EvictionKeepsVerdicts(s.store.(queue := s.store.queue.Completed(id), lifecycles := MarkedDone(s.store.lifecycles, id, success)));
      }
    case _ =>
  }

  // Between the check and the push the consumer can only make room.
  lemma CheckedQueueOnlyShrinks(s: System, step: Step)
    requires Enabled(s, step) && s.producer.Checked? && !step.Push?
    ensures var t := Apply(s, step);
      t.producer == s.producer && t.store.queue.capacity == s.store.queue.capacity
      && |t.store.queue.fifo| <= |s.store.queue.fifo|
  {
  }

  // The two limits are those that were configured, but for a zero.
  ghost predicate LimitsOk(store: Store, maxStored: nat, maxReady: nat) {
    && store.maxStored == (if maxStored == 0 then 1 else maxStored)
    && store.queue.capacity == (if maxReady == 0 then 1 else maxReady)
    && |store.queue.fifo| <= store.queue.capacity
  }

  lemma StepKeepsLimits(s: System, step: Step, maxStored: nat, maxReady: nat)
    requires Enabled(s, step) && LimitsOk(s.store, maxStored, maxReady)
    ensures LimitsOk(Apply(s, step).store, maxStored, maxReady)
  {
    match step
    case Commit => EvictionKeepsVerdicts(s.store.Filed(s.producer.frame));
    case Acknowledge(id, success) =>
      if id in s.store.queue.inFlightIds {
        EvictionKeepsVerdicts(s.store.(queue := s.store.queue.Completed(id), lifecycles := MarkedDone(s.store.lifecycles, id, success)));
      }
    case _ =>
  }

  lemma {:induction false} RunLimits(maxStored: nat, maxReady: nat, states: seq<System>, steps: seq<Step>, i: nat)
    requires IsRun(maxStored, maxReady, states, steps) && i <= |steps|
    ensures LimitsOk(states[i].store, maxStored, maxReady)
  {
    if i > 0 {
      RunLimits(maxStored, maxReady, states, steps, i - 1);
      RunNext(maxStored, maxReady, states, steps, i - 1);
      StepKeepsLimits(states[i - 1], steps[i - 1], maxStored, maxReady);
    }
  }

  // In every reachable state neither the history nor the queue exceeds its configured
  // limit, and a push goes in exactly if the queue is below its own at that step.
  lemma PushInWords(maxStored: nat, maxReady: nat, s: System, t: System)
    requires Reachable(maxStored, maxReady, s)
    ensures |s.store.history.frames| <= (if maxStored == 0 then 1 else maxStored)
    ensures |s.store.queue.fifo| <= (if maxReady == 0 then 1 else maxReady)
    ensures Next(s, Push, t) ==>
      if |s.store.queue.fifo| == (if maxReady == 0 then 1 else maxReady)
      then t.pushed == s.pushed && t.producer == ProducerIdle
           && t.store.rejected == s.store.rejected + 1 && t.store.lastCode == ReadyFrameQueueFull
      else t.pushed == s.pushed + [s.producer.frame] && t.store.queue.fifo == s.store.queue.fifo + [s.producer.frame]
           && t.store.rejected == s.store.rejected
  {
    ReachableInv(maxStored, maxReady, s);
    var states, steps :| IsRun(maxStored, maxReady, states, steps) && s == states[|steps|];
    RunLimits(maxStored, maxReady, states, steps, |steps|);
  }

  // So the verdict of an undisturbed submission is not that of a run: a queue that
  // is full at the check may have room at the push.
  lemma RoomMayComeBeforePush(f: Frame, g: Frame) returns (s: System, t: System)
    requires WellFormed(f) && WellFormed(g) && NewerThan(g, Some(f.frameId), Some(f.ticks))
    ensures Reachable(2, 1, s) && Enabled(s, Submit(g)) && s.store.Submitted(g).1 == ReadyFrameQueueFull
    ensures Reachable(2, 1, t) && t.pushed == s.pushed + [g] && t.store.rejected == s.store.rejected
  {
    s := FirstAccepted(2, 1, f);
    t := Taken(2, 1, s, Submit(g));
    t := Taken(2, 1, t, Pop);
    t := Taken(2, 1, t, Push);
  }

  // ------------------------------------------- the class methods are these steps

  // Taken without interference, the steps of a submission are FrameStore.SubmitFrame.
  lemma SubmissionWithoutInterference(s: System, f: Frame)
    requires Enabled(s, Submit(f))
    ensures var s1 := Apply(s, Submit(f));
      if s1.producer.ProducerIdle? then s1.store == s.store.Submitted(f).0
      else
        var s2 := Apply(s1, Push);
        if s2.producer.ProducerIdle? then s2.store == s.store.Submitted(f).0
        else Apply(Apply(s2, Announce), Commit).store == s.store.Submitted(f).0
  {
  }

  // ... and those of a dequeue are FrameStore.TryDequeueReadyFrame.
  lemma DequeueWithoutInterference(s: System)
    requires Enabled(s, Pop) && s.producer.ProducerIdle?
    ensures var f := s.store.queue.fifo[0];
      Apply(Apply(Apply(s, Pop), MoveInFlight), Dispatch).store
      == s.store.(queue := s.store.queue.Popped().InFlight(f.frameId), lifecycles := MarkedDispatched(s.store.lifecycles, f.frameId))
  {
  }
}
