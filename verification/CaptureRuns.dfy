// The whole way of a frame, from the camera to the builder, with one ingestor as
// the only submitter: every interleaving with the builder thread.
module CaptureRuns {
  import opened Common
  import opened FrameModel
  import opened FrameStorage
  import opened Capture
  import ViewConversion
  import B = BuilderRuns
  import FS = FrameStoreRuns

  datatype World = World(
    counters: Counters,
    rest: B.World,
    rejections: seq<SubmissionCode>  // the code of every rejection, in order
  )

  datatype Step =
    | Ingest(shot: Shot)
    | Rest(step: B.Step)  // any step but a submission

  function Initial(maxStored: nat, maxReady: nat, capacity: nat): World {
    World(Counters(1, 0), B.Initial(maxStored, maxReady, capacity), [])
  }

  predicate IsSubmission(step: B.Step) {
    step.Produce? && step.step.Submit?
  }

  predicate Enabled(w: World, step: Step) {
    match step
    case Ingest(shot) => shot.Backed() && w.rest.frames.producer.ProducerIdle?
    case Rest(s) => !IsSubmission(s) && B.Enabled(w.rest, s)
  }

  // The store counts a rejection and remembers its code.
  function Logged(rejections: seq<SubmissionCode>, before: Store, after: Store): seq<SubmissionCode> {
    if after.rejected > before.rejected then rejections + [after.lastCode] else rejections
  }

  function Moved(w: World, counters: Counters, rest: B.World): World {
    World(counters, rest, Logged(w.rejections, w.rest.frames.store, rest.frames.store))
  }

  function Apply(w: World, step: Step): World
    requires Enabled(w, step)
  {
    match step
    case Ingest(shot) =>
      var (counters, prepared) := Prepared(w.counters, shot);
      Moved(w, counters, if prepared.Err? then w.rest else B.Apply(w.rest, B.Produce(FS.Submit(prepared.value))))
    case Rest(s) => Moved(w, w.counters, B.Apply(w.rest, s))
  }

  predicate Next(w: World, step: Step, x: World) {
    Enabled(w, step) && x == Apply(w, step)
  }

  ghost predicate IsRun(maxStored: nat, maxReady: nat, capacity: nat, states: seq<World>, steps: seq<Step>) {
    && |states| == |steps| + 1
    && states[0] == Initial(maxStored, maxReady, capacity)
    && forall i :: 0 <= i < |steps| ==> Next(states[i], steps[i], states[i + 1])
  }

  // ------------------------------------------------------------------ invariant

  // Frames that the ingestor made: older than its counters.
  ghost predicate Made(f: Frame, c: Counters) {
    f.frameId < c.nextFrameId && f.ticks <= c.lastTicks
  }

  ghost predicate AllMade(pushed: seq<Frame>, p: FS.Producer, c: Counters) {
    && (forall f :: f in pushed ==> Made(f, c))
    && (!p.ProducerIdle? ==> Made(p.frame, c))
    && c.nextFrameId >= 1 && c.lastTicks >= 0
  }

  ghost predicate AllConvertible(pushed: seq<Frame>, p: FS.Producer) {
    && (forall f :: f in pushed ==> ViewConversion.Convertible(f))
    && (!p.ProducerIdle? ==> ViewConversion.Convertible(p.frame))
  }

  // What a step of the frame store can do to its log and its producer.
  lemma LogAfterStep(s: FS.System, step: FS.Step)
    requires FS.Enabled(s, step) && !step.Submit?
    ensures var t := FS.Apply(s, step);
      && (t.pushed == s.pushed || (!s.producer.ProducerIdle? && t.pushed == s.pushed + [s.producer.frame]))
      && (!t.producer.ProducerIdle? ==> !s.producer.ProducerIdle? && t.producer.frame == s.producer.frame)
  {
  }

  lemma LogAfterSubmit(s: FS.System, f: Frame)
    requires FS.Enabled(s, FS.Submit(f))
    ensures var t := FS.Apply(s, FS.Submit(f));
      t.pushed == s.pushed && (t.producer == FS.Checked(f) || t.producer.ProducerIdle?)
  {
  }

  lemma BuilderStepLog(w: B.World, step: B.Step)
    requires B.Enabled(w, step) && !IsSubmission(step)
    ensures var s, t := w.frames, B.Apply(w, step).frames;
      && (t.pushed == s.pushed || (!s.producer.ProducerIdle? && t.pushed == s.pushed + [s.producer.frame]))
      && (!t.producer.ProducerIdle? ==> !s.producer.ProducerIdle? && t.producer.frame == s.producer.frame)
  {
    match step
    case Produce(s) => LogAfterStep(w.frames, s);
    case Dequeue(s) => LogAfterStep(w.frames, s);
    case Acknowledge => LogAfterStep(w.frames, B.AckStep(w.builder));
    case _ =>
  }

  ghost predicate Inv(w: World, maxStored: nat, maxReady: nat, capacity: nat) {
    && B.Reachable(maxStored, maxReady, capacity, w.rest)
    && AllMade(w.rest.frames.pushed, w.rest.frames.producer, w.counters)
  }

  lemma PreparedIsNewer(c: Counters, shot: Shot)
    requires shot.Backed() && c.nextFrameId >= 1 && c.lastTicks >= 0
    ensures var (d, prepared) := Prepared(c, shot);
      && c.nextFrameId <= d.nextFrameId && c.lastTicks <= d.lastTicks
      && (prepared.Ok? ==> WellFormed(prepared.value) && Made(prepared.value, d) && !Made(prepared.value, c)
                           && prepared.value.frameId >= c.nextFrameId && prepared.value.ticks > c.lastTicks)
      && (prepared.Ok? && shot.Faithful() ==> ViewConversion.Convertible(prepared.value))
  {
    if shot.captured && shot.capture.Some? && shot.calibration.Some? {
      var ticks := NextTicks(shot.now, c.lastTicks);
      if Build(shot.capture, shot.calibration.value, shot.alignment, c.nextFrameId, ticks).Ok? {
        BuiltFrames(shot.capture, shot.calibration.value, shot.alignment, c.nextFrameId, ticks);
      }
    }
  }

  lemma IngestKeepsInv(w: World, shot: Shot, maxStored: nat, maxReady: nat, capacity: nat)
    requires Inv(w, maxStored, maxReady, capacity) && Enabled(w, Ingest(shot))
    ensures Inv(Apply(w, Ingest(shot)), maxStored, maxReady, capacity)
  {
    PreparedIsNewer(w.counters, shot);
    var (counters, prepared) := Prepared(w.counters, shot);
    if prepared.Ok? {
      var step := B.Produce(FS.Submit(prepared.value));
      B.ReachableNext(maxStored, maxReady, capacity, w.rest, step, B.Apply(w.rest, step));
      LogAfterSubmit(w.rest.frames, prepared.value);
    }
  }

  lemma RestKeepsInv(w: World, step: B.Step, maxStored: nat, maxReady: nat, capacity: nat)
    requires Inv(w, maxStored, maxReady, capacity) && Enabled(w, Rest(step))
    ensures Inv(Apply(w, Rest(step)), maxStored, maxReady, capacity)
  {
    B.ReachableNext(maxStored, maxReady, capacity, w.rest, step, B.Apply(w.rest, step));
    BuilderStepLog(w.rest, step);
  }

  lemma {:induction false} RunInvariant(maxStored: nat, maxReady: nat, capacity: nat, states: seq<World>, steps: seq<Step>, i: nat)
    requires IsRun(maxStored, maxReady, capacity, states, steps) && i < |states|
    ensures Inv(states[i], maxStored, maxReady, capacity)
    decreases i
  {
    if i == 0 {
      B.InitialReachable(maxStored, maxReady, capacity);
    } else {
      RunInvariant(maxStored, maxReady, capacity, states, steps, i - 1);
      assert Next(states[i - 1], steps[i - 1], states[i]);
      match steps[i - 1]
      case Ingest(shot) => IngestKeepsInv(states[i - 1], shot, maxStored, maxReady, capacity);
      case Rest(step) => RestKeepsInv(states[i - 1], step, maxStored, maxReady, capacity);
    }
  }

  // ------------------------------------------------------------- main theorems

  ghost predicate Reachable(maxStored: nat, maxReady: nat, capacity: nat, w: World) {
    exists states, steps :: IsRun(maxStored, maxReady, capacity, states, steps) && w == states[|steps|]
  }

  lemma LatestIsLogged(maxStored: nat, maxReady: nat, capacity: nat, w: B.World)
    requires B.Reachable(maxStored, maxReady, capacity, w)
    ensures w.frames.store.history.latest.Some? ==> w.frames.store.history.latest.value in w.frames.pushed
  {
    B.ReachableInv(maxStored, maxReady, capacity, w);
    FS.ReachableInv(maxStored, maxReady, w.frames);
  }

  lemma ReachableInv(maxStored: nat, maxReady: nat, capacity: nat, w: World)
    requires Reachable(maxStored, maxReady, capacity, w)
    ensures Inv(w, maxStored, maxReady, capacity)
  {
    var states, steps :| IsRun(maxStored, maxReady, capacity, states, steps) && w == states[|steps|];
    RunInvariant(maxStored, maxReady, capacity, states, steps, |steps|);
  }

  predicate NoRoom(store: Store) {
    store.Context().historyFull && !store.Context().hasEvictableFrame
  }

  // What the check says of a frame that the ingestor has built: it is strictly newer
  // than every frame queued before, and only a full history turns it down.
  lemma CheckedUnlessNoRoom(w: World, shot: Shot, maxStored: nat, maxReady: nat, capacity: nat)
    requires Inv(w, maxStored, maxReady, capacity) && Enabled(w, Ingest(shot)) && Prepared(w.counters, shot).1.Ok?
    ensures var frame := Prepared(w.counters, shot).1.value;
      && (forall f :: f in w.rest.frames.pushed ==> f.frameId < frame.frameId && f.ticks < frame.ticks)
      && Validate(frame, w.rest.frames.store.Context()) == if NoRoom(w.rest.frames.store) then HistoryFull else Accepted
  {
    PreparedIsNewer(w.counters, shot);
    LatestIsLogged(maxStored, maxReady, capacity, w.rest);
  }

  // The first half of a submission, whatever the builder and the queue are doing:
  // the frame is checked and waits for its push, or the history has no room.
  lemma IngestVerdict(maxStored: nat, maxReady: nat, capacity: nat, w: World, shot: Shot, x: World)
    requires Reachable(maxStored, maxReady, capacity, w) && Next(w, Ingest(shot), x)
    requires Prepared(w.counters, shot).1.Ok?
    ensures var frame := Prepared(w.counters, shot).1.value; var s := w.rest.frames;
      && (forall f :: f in s.pushed ==> f.frameId < frame.frameId && f.ticks < frame.ticks)
      && x.rest.frames == (if NoRoom(s.store) then s.(store := s.store.Rejected(frame, HistoryFull))
                           else s.(producer := FS.Checked(frame)))
      && x.rejections == w.rejections + if NoRoom(s.store) then [HistoryFull] else []
  {
    ReachableInv(maxStored, maxReady, capacity, w);
    CheckedUnlessNoRoom(w, shot, maxStored, maxReady, capacity);
  }

  // The second half: the push fails exactly if the queue is full at that very step.
  lemma PushVerdict(w: World, x: World)
    requires Next(w, Rest(B.Produce(FS.Push)), x)
    ensures var s := w.rest.frames; var frame := s.producer.frame;
      if s.store.queue.Full()
      then && x.rest.frames == s.(store := s.store.Rejected(frame, ReadyFrameQueueFull), producer := FS.ProducerIdle)
           && x.rejections == w.rejections + [ReadyFrameQueueFull]
      else && x.rest.frames.pushed == s.pushed + [frame] && x.rest.frames.producer == FS.Pushed(frame)
           && x.rejections == w.rejections
  {
  }

  // No other step turns a frame down.
  lemma RestRejectsOnlyAtPush(w: World, step: B.Step)
    requires Enabled(w, Rest(step)) && !(step.Produce? && step.step.Push?)
    ensures Apply(w, Rest(step)).rejections == w.rejections
    ensures Apply(w, Rest(step)).rest.frames.store.rejected == w.rest.frames.store.rejected
  {
    match step
    case Produce(s) => FS.RejectionsAfter(w.rest.frames, s);
    case Dequeue(s) => FS.RejectionsAfter(w.rest.frames, s);
    case Acknowledge => FS.RejectionsAfter(w.rest.frames, B.AckStep(w.rest.builder));
    case _ =>
  }

  ghost predicate OnlyFull(rejections: seq<SubmissionCode>, rejected: nat) {
    && |rejections| == rejected
    && forall code :: code in rejections ==> code == HistoryFull || code == ReadyFrameQueueFull
  }

  lemma StepKeepsOnlyFull(w: World, step: Step, maxStored: nat, maxReady: nat, capacity: nat)
    requires Inv(w, maxStored, maxReady, capacity) && Enabled(w, step)
    requires OnlyFull(w.rejections, w.rest.frames.store.rejected)
    ensures OnlyFull(Apply(w, step).rejections, Apply(w, step).rest.frames.store.rejected)
  {
    match step
    case Ingest(shot) =>
      if Prepared(w.counters, shot).1.Ok? {
        CheckedUnlessNoRoom(w, shot, maxStored, maxReady, capacity);
      }
    case Rest(s) =>
      if s.Produce? && s.step.Push? {
        PushVerdict(w, Apply(w, step));
      } else {
        RestRejectsOnlyAtPush(w, s);
      }
  }

  lemma {:induction false} RunOnlyFull(maxStored: nat, maxReady: nat, capacity: nat, states: seq<World>, steps: seq<Step>, i: nat)
    requires IsRun(maxStored, maxReady, capacity, states, steps) && i < |states|
    ensures OnlyFull(states[i].rejections, states[i].rest.frames.store.rejected)
    decreases i
  {
    if i > 0 {
      RunOnlyFull(maxStored, maxReady, capacity, states, steps, i - 1);
      RunInvariant(maxStored, maxReady, capacity, states, steps, i - 1);
      assert Next(states[i - 1], steps[i - 1], states[i]);
      StepKeepsOnlyFull(states[i - 1], steps[i - 1], maxStored, maxReady, capacity);
    }
  }

  // Over every run, every rejection that the store has counted was for a full
  // history or a full queue.
  lemma OnlyFullnessRejects(maxStored: nat, maxReady: nat, capacity: nat, w: World)
    requires Reachable(maxStored, maxReady, capacity, w)
    ensures |w.rejections| == w.rest.frames.store.rejected
    ensures forall code :: code in w.rejections ==> code == HistoryFull || code == ReadyFrameQueueFull
  {
    var states, steps :| IsRun(maxStored, maxReady, capacity, states, steps) && w == states[|steps|];
    RunOnlyFull(maxStored, maxReady, capacity, states, steps, |steps|);
  }

  lemma {:induction false} CheckedUntilPush(maxStored: nat, maxReady: nat, capacity: nat, states: seq<World>, steps: seq<Step>,
                                            i: nat, j: nat)
    requires IsRun(maxStored, maxReady, capacity, states, steps) && i <= j < |states|
    requires states[i].rest.frames.producer.Checked?
    requires forall m :: i <= m < j ==> steps[m] != Rest(B.Produce(FS.Push))
    ensures states[j].rest.frames.producer == states[i].rest.frames.producer
    ensures |states[j].rest.frames.store.queue.fifo| <= |states[i].rest.frames.store.queue.fifo|
    ensures states[j].rest.frames.store.queue.capacity == states[i].rest.frames.store.queue.capacity
    decreases j
  {
    if i < j {
      CheckedUntilPush(maxStored, maxReady, capacity, states, steps, i, j - 1);
      assert Next(states[j - 1], steps[j - 1], states[j]);
      var w := states[j - 1].rest;
      if steps[j - 1].Rest? {
        match steps[j - 1].step
        case Produce(s) => FS.CheckedQueueOnlyShrinks(w.frames, s);
        case Dequeue(s) => FS.CheckedQueueOnlyShrinks(w.frames, s);
        case _ =>
      }
    }
  }

  // A whole submission in a run, ingested at step i and pushed at step j: the frame
  // goes in exactly if there was room in the history at i and room in the queue at
  // j; and the consumer can only have helped meanwhile.
  lemma SubmissionInARun(maxStored: nat, maxReady: nat, capacity: nat, states: seq<World>, steps: seq<Step>, i: nat, j: nat)
    requires IsRun(maxStored, maxReady, capacity, states, steps) && i < j < |steps|
    requires steps[i].Ingest? && Next(states[i], steps[i], states[i + 1]) && Prepared(states[i].counters, steps[i].shot).1.Ok?
    requires !NoRoom(states[i].rest.frames.store)
    requires steps[j] == Rest(B.Produce(FS.Push)) && forall m :: i < m < j ==> steps[m] != Rest(B.Produce(FS.Push))
    ensures var frame := Prepared(states[i].counters, steps[i].shot).1.value;
      && (frame in states[j + 1].rest.frames.pushed <==> !states[j].rest.frames.store.queue.Full())
      && (!states[i].rest.frames.store.queue.Full() ==> frame in states[j + 1].rest.frames.pushed)
  {
    var w := states[i];
    var frame := Prepared(w.counters, steps[i].shot).1.value;
    RunInvariant(maxStored, maxReady, capacity, states, steps, i);
    CheckedUnlessNoRoom(w, steps[i].shot, maxStored, maxReady, capacity);
    CheckedUntilPush(maxStored, maxReady, capacity, states, steps, i + 1, j);
    assert Next(states[j], steps[j], states[j + 1]);
    PushVerdict(states[j], states[j + 1]);
    RunInvariant(maxStored, maxReady, capacity, states, steps, j);
    NotYetPushed(maxStored, maxReady, capacity, states[j].rest);
  }

  // A checked frame is newer than everything queued, so it is not queued yet.
  lemma NotYetPushed(maxStored: nat, maxReady: nat, capacity: nat, w: B.World)
    requires B.Reachable(maxStored, maxReady, capacity, w) && w.frames.producer.Checked?
    ensures w.frames.producer.frame !in w.frames.pushed
  {
    B.ReachableInv(maxStored, maxReady, capacity, w);
    FS.ReachableInv(maxStored, maxReady, w.frames);
    var s := w.frames;
    assert s.Committed() == s.pushed;
    FS.PushKeepsFifo(s.pushed, s.popped, s.store.queue.fifo, s.store.history, s.ledger.evicted, s.store.maxStored,
                     s.producer.frame, s.store.Context());
    if s.producer.frame in s.pushed {
      FS.MemberId(s.pushed, s.producer.frame);
    }
  }

  ghost predicate FaithfulCamera(steps: seq<Step>) {
    forall i :: 0 <= i < |steps| && steps[i].Ingest? ==> steps[i].shot.Faithful()
  }

  lemma {:induction false} ConvertibleRun(maxStored: nat, maxReady: nat, capacity: nat, states: seq<World>, steps: seq<Step>, i: nat)
    requires IsRun(maxStored, maxReady, capacity, states, steps) && FaithfulCamera(steps) && i < |states|
    ensures AllConvertible(states[i].rest.frames.pushed, states[i].rest.frames.producer)
    decreases i
  {
    if i > 0 {
      var w, step := states[i - 1], steps[i - 1];
      ConvertibleRun(maxStored, maxReady, capacity, states, steps, i - 1);
      RunInvariant(maxStored, maxReady, capacity, states, steps, i - 1);
      assert Next(w, step, states[i]);
      if step.Ingest? {
        PreparedIsNewer(w.counters, step.shot);
        var prepared := Prepared(w.counters, step.shot).1;
        if prepared.Ok? {
          LogAfterSubmit(w.rest.frames, prepared.value);
        }
      } else {
        BuilderStepLog(w.rest, step.step);
      }
    }
  }

  // With a faithful camera no frame ever fails the view conversion in the builder.
  lemma ConversionNeverFails(maxStored: nat, maxReady: nat, capacity: nat, states: seq<World>, steps: seq<Step>, i: nat)
    requires IsRun(maxStored, maxReady, capacity, states, steps) && FaithfulCamera(steps) && i < |states|
    requires states[i].rest.builder.Building?
    ensures ViewConversion.Convertible(states[i].rest.builder.frame)
  {
    ConvertibleRun(maxStored, maxReady, capacity, states, steps, i);
    RunInvariant(maxStored, maxReady, capacity, states, steps, i);
    B.ReachableInv(maxStored, maxReady, capacity, states[i].rest);
    assert states[i].rest.builder.frame in states[i].rest.frames.pushed;
  }
}
