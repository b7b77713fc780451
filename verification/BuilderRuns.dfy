// Every interleaving of the submitting thread with the builder thread: dequeue a
// frame, build it, publish and record a scene version, acknowledge the frame.
module BuilderRuns {
  import opened Common
  import opened FrameModel
  import opened FrameStorage
  import opened SceneVersions
  import opened SceneBuilding
  import ViewConversion
  import FS = FrameStoreRuns

  datatype Builder =
    | Waiting                                      // in waitDequeueReadyFrame
    | Building(frame: Frame)                       // the dequeue has returned
    | Published(frame: Frame, version: SceneVersion)  // write lease released, not recorded yet
    | Built(frame: Frame, consumed: bool)          // not acknowledged yet

  datatype World = World(
    frames: FS.System,
    builder: Builder,
    pipeline: Pipeline,
    sceneVersionId: SceneVersionId,
    capacity: nat,
    versions: Versions,
    recorded: seq<SceneVersion>  // every version that was added, in order
  )

  datatype Step =
    | Produce(step: FS.Step)
    | Dequeue(step: FS.Step)
    | Build(lost: bool, pose: Pose4f)
    | Record
    | Acknowledge

  function Initial(maxStored: nat, maxReady: nat, capacity: nat): World {
    World(FS.Initial(maxStored, maxReady), Waiting, NO_PIPELINE, 0, Max(1, capacity), NO_VERSIONS, [])
  }

  function AckStep(b: Builder): FS.Step
    requires b.Built?
  {
    FS.Acknowledge(b.frame.frameId, b.consumed)
  }

  predicate Enabled(w: World, step: Step) {
    match step
    case Produce(s) => (s.Submit? || s.Push? || s.Announce? || s.Commit?) && FS.Enabled(w.frames, s)
    case Dequeue(s) => w.builder.Waiting? && (s.Pop? || s.MoveInFlight? || s.Dispatch?) && FS.Enabled(w.frames, s)
    case Build(_, _) => w.builder.Building?
    case Record => w.builder.Published?
    case Acknowledge => w.builder.Built? && FS.Enabled(w.frames, AckStep(w.builder))
  }

  function Apply(w: World, step: Step): World
    requires Enabled(w, step)
  {
    match step
    case Produce(s) => w.(frames := FS.Apply(w.frames, s))
    case Dequeue(s) =>
      w.(frames := FS.Apply(w.frames, s), builder := if s.Dispatch? then Building(w.frames.consumer.frame) else Waiting)
    case Build(lost, pose) =>
      var frame := w.builder.frame;
      if !ViewConversion.Convertible(frame) then w.(builder := Built(frame, false))
      else
        var (p, version) := Attempt(w.pipeline, frame, lost, pose, w.sceneVersionId + 1);
        if version.None? then w.(builder := Built(frame, false), pipeline := p)
        else w.(builder := Published(frame, version.value), pipeline := p, sceneVersionId := w.sceneVersionId + 1)
    case Record =>
      var v := w.builder.version;
      w.(builder := Built(w.builder.frame, true), versions := w.versions.Added(v).Trimmed(w.capacity), recorded := w.recorded + [v])
    case Acknowledge => w.(frames := FS.Apply(w.frames, AckStep(w.builder)), builder := Waiting)
  }

  predicate Next(w: World, step: Step, x: World) {
    Enabled(w, step) && x == Apply(w, step)
  }

  ghost predicate IsRun(maxStored: nat, maxReady: nat, capacity: nat, states: seq<World>, steps: seq<Step>) {
    && |states| == |steps| + 1
    && states[0] == Initial(maxStored, maxReady, capacity)
    && forall i :: 0 <= i < |steps| ==> Next(states[i], steps[i], states[i + 1])
  }

  // ------------------------------------------------------------------ invariant

  function RecordedIds(recorded: seq<SceneVersion>): set<FrameId> {
    if recorded == [] then {} else RecordedIds(recorded[..|recorded| - 1]) + {recorded[|recorded| - 1].lastIntegratedFrameId}
  }

  // The frame in the builder's hands, which no version names yet.
  function Current(b: Builder, c: FS.Consumer): Option<Frame> {
    if b.Building? || b.Published? then Some(b.frame)
    else if c.Popped? || c.Moved? then Some(c.frame)
    else None
  }

  // Version i + 1 names a newer frame than version i.
  ghost predicate Chained(recorded: seq<SceneVersion>) {
    forall i :: 0 <= i < |recorded| ==>
      && recorded[i].versionId == i + 1
      && (i > 0 ==> recorded[i - 1].lastIntegratedFrameId < recorded[i].lastIntegratedFrameId)
  }

  ghost predicate RecordOk(recorded: seq<SceneVersion>, b: Builder, c: FS.Consumer, poppedIds: set<FrameId>, sceneVersionId: SceneVersionId) {
    && Chained(recorded)
    && RecordedIds(recorded) <= poppedIds
    && (Current(b, c).Some? ==> forall id :: id in RecordedIds(recorded) ==> id < Current(b, c).value.frameId)
    && sceneVersionId == |recorded| + (if b.Published? then 1 else 0)
    && (b.Published? ==> b.version.versionId == sceneVersionId && b.version.lastIntegratedFrameId == b.frame.frameId)
  }

  // The builder acknowledges what it was given, and only that.
  ghost predicate HandsOk(b: Builder, c: FS.Consumer, committed: seq<Frame>, poppedIds: set<FrameId>, l: FS.Ledger) {
    && l.early == {}
    && (!b.Waiting? ==>
          c.ConsumerIdle? && b.frame in committed && b.frame.frameId in poppedIds && b.frame.frameId !in l.Acked())
  }

  function Unacknowledged(b: Builder): set<FrameId> {
    if b.Built? && b.consumed then {b.frame.frameId} else {}
  }

  ghost predicate ConsumedOk(recorded: seq<SceneVersion>, b: Builder, consumed: set<FrameId>) {
    && RecordedIds(recorded) == consumed + Unacknowledged(b)
    && consumed !! Unacknowledged(b)
  }

  ghost predicate Inv(w: World, maxStored: nat, maxReady: nat) {
    && FS.Reachable(maxStored, maxReady, w.frames)
    && HandsOk(w.builder, w.frames.consumer, w.frames.Committed(), FS.IdsOf(w.frames.popped), w.frames.ledger)
    && RecordOk(w.recorded, w.builder, w.frames.consumer, FS.IdsOf(w.frames.popped), w.sceneVersionId)
    && ConsumedOk(w.recorded, w.builder, w.frames.ledger.consumed)
    && w.versions == StoreOf(w.recorded, w.capacity) && w.capacity >= 1
  }

  // -------------------------------------------------------------- step by step

  // What the frame store's steps mean for the builder.
  lemma ProduceEffect(s: FS.System, step: FS.Step)
    requires FS.Inv(s) && FS.Enabled(s, step) && (step.Submit? || step.Push? || step.Announce? || step.Commit?)
    ensures var t := FS.Apply(s, step);
      && t.popped == s.popped && t.consumer == s.consumer && s.Committed() <= t.Committed()
      && t.ledger.early == s.ledger.early && t.ledger.Acked() == s.ledger.Acked() && t.ledger.consumed == s.ledger.consumed
  {
    FS.CommittedAfter(s, step);
    FS.LedgerAfter(s, step);
    ProducerLedger(s, step);
    ProducerOnly(s, step);
  }

  lemma ProducerLedger(s: FS.System, step: FS.Step)
    requires FS.Enabled(s, step) && (step.Submit? || step.Push? || step.Announce? || step.Commit?)
    ensures var l := FS.NextLedger(s, step);
      l == s.ledger.(evicted := l.evicted) && l.Acked() == s.ledger.Acked()
  {
  }

  lemma ProducerOnly(s: FS.System, step: FS.Step)
    requires FS.Enabled(s, step) && (step.Submit? || step.Push? || step.Announce? || step.Commit?)
    ensures FS.Apply(s, step).popped == s.popped && FS.Apply(s, step).consumer == s.consumer
  {
  }

  lemma ProduceKeepsInv(w: World, step: Step, maxStored: nat, maxReady: nat)
    requires Inv(w, maxStored, maxReady) && Enabled(w, step) && step.Produce?
    ensures Inv(Apply(w, step), maxStored, maxReady)
  {
    var t := FS.Apply(w.frames, step.step);
    FS.ReachableInv(maxStored, maxReady, w.frames);
    FS.ReachableNext(maxStored, maxReady, w.frames, step.step, t);
    ProduceEffect(w.frames, step.step);
    ProducedInv(w, Apply(w, step), t, maxStored, maxReady);
  }

  lemma ProducedInv(w: World, x: World, t: FS.System, maxStored: nat, maxReady: nat)
    requires Inv(w, maxStored, maxReady) && x == w.(frames := t) && FS.Reachable(maxStored, maxReady, t)
    requires t.popped == w.frames.popped && t.consumer == w.frames.consumer && w.frames.Committed() <= t.Committed()
    requires t.ledger.early == w.frames.ledger.early && t.ledger.Acked() == w.frames.ledger.Acked()
    requires t.ledger.consumed == w.frames.ledger.consumed
    ensures Inv(x, maxStored, maxReady)
  {
    assert !w.builder.Waiting? ==> w.builder.frame in t.Committed();
  }

  lemma DequeueEffect(s: FS.System, step: FS.Step)
    requires FS.Inv(s) && FS.Enabled(s, step) && (step.Pop? || step.MoveInFlight? || step.Dispatch?)
    ensures var t := FS.Apply(s, step);
      && t.ledger.early == s.ledger.early && t.ledger.Acked() == s.ledger.Acked() && t.ledger.consumed == s.ledger.consumed
      && FS.IdsOf(s.popped) <= FS.IdsOf(t.popped)
      && (step.Pop? ==> t.consumer.Popped? && NewestId(FS.IdsOf(s.popped), t.consumer.frame.frameId))
      && (step.MoveInFlight? ==> t.consumer == FS.Moved(s.consumer.frame))
      && (step.Dispatch? ==> t.consumer.ConsumerIdle?)
  {
    FS.LedgerAfter(s, step);
    if step.Pop? {
      var f := s.store.queue.fifo[0];
      FS.IdsAppend(s.popped, f);
      PoppedIsNewest(s.pushed, s.popped, s.store.queue.fifo);
    }
    DequeuePhases(s, step);
  }

  lemma DequeuePhases(s: FS.System, step: FS.Step)
    requires FS.Enabled(s, step) && (step.Pop? || step.MoveInFlight? || step.Dispatch?)
    ensures var t := FS.Apply(s, step);
      && (step.Pop? ==> t.consumer == FS.Consumer.Popped(s.store.queue.fifo[0]) && t.popped == s.popped + [s.store.queue.fifo[0]])
      && (step.MoveInFlight? ==> t.consumer == FS.Moved(s.consumer.frame) && t.popped == s.popped)
      && (step.Dispatch? ==> t.consumer.ConsumerIdle? && t.popped == s.popped && t.Committed() == s.Committed())
  {
  }

  ghost predicate NewestId(ids: set<FrameId>, newest: FrameId) {
    forall id :: id in ids ==> id < newest
  }

  lemma PoppedIsNewest(pushed: seq<Frame>, popped: seq<Frame>, fifo: seq<Frame>)
    requires FS.FifoOk(pushed, popped, fifo) && fifo != []
    ensures NewestId(FS.IdsOf(popped), fifo[0].frameId)
  {
    forall id | id in FS.IdsOf(popped) ensures id < fifo[0].frameId {
      FS.InIds(popped, id);
      var f :| f in popped && f.frameId == id;
      var i :| 0 <= i < |popped| && popped[i] == f;
      assert pushed[i] == f && pushed[|popped|] == fifo[0];
    }
  }

  lemma DispatchHandsOver(s: FS.System, t: FS.System)
    requires FS.Inv(s) && FS.Enabled(s, FS.Dispatch) && s.ledger.early == {} && t == FS.Apply(s, FS.Dispatch)
    ensures HandsOk(Building(s.consumer.frame), t.consumer, t.Committed(), FS.IdsOf(t.popped), t.ledger)
  {
    FS.ConsumerFrameIsCommitted(s);
    FS.LedgerAfter(s, FS.Dispatch);
    DequeuePhases(s, FS.Dispatch);
    NotYetAcknowledged(s.store.queue.inFlightIds, FS.IdsOf(s.popped), FS.IdsOf(s.Committed()), s.consumer, s.ledger);
  }

  lemma NotYetAcknowledged(inFlightIds: set<FrameId>, poppedIds: set<FrameId>, ids: set<FrameId>, c: FS.Consumer, l: FS.Ledger)
    requires FS.FlightOk(inFlightIds, poppedIds, c, l) && FS.LedgerOk(l, ids) && l.early == {} && !c.ConsumerIdle?
    ensures c.frame.frameId !in l.Acked()
  {
  }

  lemma DequeueKeepsInv(w: World, step: Step, maxStored: nat, maxReady: nat)
    requires Inv(w, maxStored, maxReady) && Enabled(w, step) && step.Dequeue?
    ensures Inv(Apply(w, step), maxStored, maxReady)
  {
    var s, t := w.frames, FS.Apply(w.frames, step.step);
    FS.ReachableInv(maxStored, maxReady, s);
    FS.ReachableNext(maxStored, maxReady, s, step.step, t);
    DequeueEffect(s, step.step);
    DequeuePhases(s, step.step);
    if step.step.Dispatch? {
      DispatchHandsOver(s, t);
    }
    DequeuedInv(w, Apply(w, step), t, maxStored, maxReady);
  }

  lemma DequeuedInv(w: World, x: World, t: FS.System, maxStored: nat, maxReady: nat)
    requires Inv(w, maxStored, maxReady) && w.builder.Waiting?
    requires x == w.(frames := t, builder := x.builder) && FS.Reachable(maxStored, maxReady, t)
    requires t.ledger.early == {} && t.ledger.consumed == w.frames.ledger.consumed
    requires FS.IdsOf(w.frames.popped) <= FS.IdsOf(t.popped)
    requires HandedOn(w.frames.consumer, t.consumer, x.builder, FS.IdsOf(w.frames.popped))
    requires x.builder.Building? ==> HandsOk(x.builder, t.consumer, t.Committed(), FS.IdsOf(t.popped), t.ledger)
    ensures Inv(x, maxStored, maxReady)
  {
    DequeueKeepsRecord(w.recorded, w.frames.consumer, t.consumer, x.builder,
                       FS.IdsOf(w.frames.popped), FS.IdsOf(t.popped), w.sceneVersionId);
  }

  // The three moves of a frame towards the builder.
  ghost predicate HandedOn(c: FS.Consumer, c': FS.Consumer, b': Builder, poppedIds: set<FrameId>) {
    || (b'.Waiting? && c'.Popped? && NewestId(poppedIds, c'.frame.frameId))
    || (b'.Waiting? && c.Popped? && c' == FS.Moved(c.frame))
    || (c.Moved? && c'.ConsumerIdle? && b' == Building(c.frame))
  }

  lemma DequeueKeepsRecord(recorded: seq<SceneVersion>, c: FS.Consumer, c': FS.Consumer, b': Builder,
                           poppedIds: set<FrameId>, poppedIds': set<FrameId>, sceneVersionId: SceneVersionId)
    requires RecordOk(recorded, Waiting, c, poppedIds, sceneVersionId) && poppedIds <= poppedIds'
    requires HandedOn(c, c', b', poppedIds)
    ensures RecordOk(recorded, b', c', poppedIds', sceneVersionId)
  {
  }

  lemma BuildKeepsInv(w: World, step: Step, maxStored: nat, maxReady: nat)
    requires Inv(w, maxStored, maxReady) && Enabled(w, step) && step.Build?
    ensures Inv(Apply(w, step), maxStored, maxReady)
  {
    var x := Apply(w, step);
    BuildKeepsRecord(w.recorded, w.builder, x.builder, w.frames.consumer, FS.IdsOf(w.frames.popped), w.sceneVersionId);
  }

  lemma BuildKeepsRecord(recorded: seq<SceneVersion>, b: Builder, b': Builder, c: FS.Consumer, poppedIds: set<FrameId>,
                         sceneVersionId: SceneVersionId)
    requires RecordOk(recorded, b, c, poppedIds, sceneVersionId) && b.Building? && c.ConsumerIdle?
    ensures b'.Built? ==> RecordOk(recorded, b', c, poppedIds, sceneVersionId)
    ensures b'.Published? && b'.frame == b.frame && b'.version.versionId == sceneVersionId + 1
            && b'.version.lastIntegratedFrameId == b.frame.frameId
            ==> RecordOk(recorded, b', c, poppedIds, sceneVersionId + 1)
  {
  }

  lemma RecordKeepsInv(w: World, step: Step, maxStored: nat, maxReady: nat)
    requires Inv(w, maxStored, maxReady) && Enabled(w, step) && step.Record?
    ensures Inv(Apply(w, step), maxStored, maxReady)
  {
    var b, v := w.builder, w.builder.version;
    RecordKeepsRecord(w.recorded, b, w.frames.consumer, FS.IdsOf(w.frames.popped), w.sceneVersionId);
    assert (w.recorded + [v])[..|w.recorded|] == w.recorded;
    RecordKeepsConsumed(w.recorded, b, w.frames.ledger.consumed);
  }

  lemma RecordedMore(recorded: seq<SceneVersion>, v: SceneVersion)
    ensures RecordedIds(recorded + [v]) == RecordedIds(recorded) + {v.lastIntegratedFrameId}
  {
    assert (recorded + [v])[..|recorded|] == recorded;
  }

  lemma ChainedMore(recorded: seq<SceneVersion>, v: SceneVersion)
    requires Chained(recorded) && v.versionId == |recorded| + 1
    requires forall id :: id in RecordedIds(recorded) ==> id < v.lastIntegratedFrameId
    ensures Chained(recorded + [v])
  {
    if recorded != [] {
      assert recorded[|recorded| - 1].lastIntegratedFrameId in RecordedIds(recorded);
    }
  }

  lemma RecordKeepsRecord(recorded: seq<SceneVersion>, b: Builder, c: FS.Consumer, poppedIds: set<FrameId>, sceneVersionId: SceneVersionId)
    requires RecordOk(recorded, b, c, poppedIds, sceneVersionId) && b.Published? && b.frame.frameId in poppedIds && c.ConsumerIdle?
    ensures RecordOk(recorded + [b.version], Built(b.frame, true), c, poppedIds, sceneVersionId)
  {
    RecordedMore(recorded, b.version);
    ChainedMore(recorded, b.version);
  }

  lemma RecordKeepsConsumed(recorded: seq<SceneVersion>, b: Builder, consumed: set<FrameId>)
    requires ConsumedOk(recorded, b, consumed) && b.Published? && b.version.lastIntegratedFrameId == b.frame.frameId
    requires forall id :: id in RecordedIds(recorded) ==> id < b.frame.frameId
    ensures ConsumedOk(recorded + [b.version], Built(b.frame, true), consumed)
  {
    RecordedMore(recorded, b.version);
  }

  lemma AcknowledgeEffect(s: FS.System, id: FrameId, success: bool)
    requires FS.Inv(s) && FS.Enabled(s, FS.Acknowledge(id, success))
    requires id in FS.IdsOf(s.popped) && id !in s.ledger.Acked() && s.consumer.ConsumerIdle? && s.ledger.early == {}
    ensures id in s.store.queue.inFlightIds
    ensures var t := FS.Apply(s, FS.Acknowledge(id, success));
      && t.ledger.early == {} && t.popped == s.popped && t.consumer == s.consumer
      && t.ledger.consumed == (if success then s.ledger.consumed + {id} else s.ledger.consumed)
      && t.ledger.failed == (if success then s.ledger.failed else s.ledger.failed + {id})
  {
    FS.AcknowledgeEffect(s, FS.Acknowledge(id, success));
    assert id in s.ledger.returned;
  }

  lemma AcknowledgeKeepsInv(w: World, step: Step, maxStored: nat, maxReady: nat)
    requires Inv(w, maxStored, maxReady) && Enabled(w, step) && step.Acknowledge?
    ensures Inv(Apply(w, step), maxStored, maxReady)
  {
    var t := FS.Apply(w.frames, AckStep(w.builder));
    FS.ReachableInv(maxStored, maxReady, w.frames);
    FS.ReachableNext(maxStored, maxReady, w.frames, AckStep(w.builder), t);
    AcknowledgeEffect(w.frames, w.builder.frame.frameId, w.builder.consumed);
    AcknowledgedInv(w, Apply(w, step), t, maxStored, maxReady);
  }

  lemma AcknowledgedInv(w: World, x: World, t: FS.System, maxStored: nat, maxReady: nat)
    requires Inv(w, maxStored, maxReady) && w.builder.Built?
    requires x == w.(frames := t, builder := Waiting) && FS.Reachable(maxStored, maxReady, t)
    requires t.ledger.early == {} && t.popped == w.frames.popped && t.consumer == w.frames.consumer
    requires t.ledger.consumed == if w.builder.consumed then w.frames.ledger.consumed + {w.builder.frame.frameId} else w.frames.ledger.consumed
    ensures Inv(x, maxStored, maxReady)
  {
  }

  lemma StepKeepsInv(w: World, step: Step, maxStored: nat, maxReady: nat)
    requires Inv(w, maxStored, maxReady) && Enabled(w, step)
    ensures Inv(Apply(w, step), maxStored, maxReady)
  {
    match step
    case Produce(_) => ProduceKeepsInv(w, step, maxStored, maxReady);
    case Dequeue(_) => DequeueKeepsInv(w, step, maxStored, maxReady);
    case Build(_, _) => BuildKeepsInv(w, step, maxStored, maxReady);
    case Record => RecordKeepsInv(w, step, maxStored, maxReady);
    case Acknowledge => AcknowledgeKeepsInv(w, step, maxStored, maxReady);
  }

  lemma InitialInv(maxStored: nat, maxReady: nat, capacity: nat)
    ensures Inv(Initial(maxStored, maxReady, capacity), maxStored, maxReady)
  {
    var s := FS.Initial(maxStored, maxReady);
    var none: seq<FS.Step> := [];
    assert FS.IsRun(maxStored, maxReady, [s], none) && s == [s][|none|];
  }

  lemma {:induction false} RunInvariant(maxStored: nat, maxReady: nat, capacity: nat, states: seq<World>, steps: seq<Step>, i: nat)
    requires IsRun(maxStored, maxReady, capacity, states, steps) && i < |states|
    ensures Inv(states[i], maxStored, maxReady) && states[i].capacity == Max(1, capacity)
    decreases i
  {
    if i == 0 {
      InitialInv(maxStored, maxReady, capacity);
    } else {
      RunInvariant(maxStored, maxReady, capacity, states, steps, i - 1);
      assert Next(states[i - 1], steps[i - 1], states[i]);
      StepKeepsInv(states[i - 1], steps[i - 1], maxStored, maxReady);
    }
  }

  ghost predicate Reachable(maxStored: nat, maxReady: nat, capacity: nat, w: World) {
    exists states, steps :: IsRun(maxStored, maxReady, capacity, states, steps) && w == states[|steps|]
  }

  lemma ReachableInv(maxStored: nat, maxReady: nat, capacity: nat, w: World)
    requires Reachable(maxStored, maxReady, capacity, w)
    ensures Inv(w, maxStored, maxReady) && w.capacity == Max(1, capacity)
  {
    var states, steps :| IsRun(maxStored, maxReady, capacity, states, steps) && w == states[|steps|];
    RunInvariant(maxStored, maxReady, capacity, states, steps, |steps|);
  }

  lemma InitialReachable(maxStored: nat, maxReady: nat, capacity: nat)
    ensures Reachable(maxStored, maxReady, capacity, Initial(maxStored, maxReady, capacity))
  {
    var w := Initial(maxStored, maxReady, capacity);
    var none: seq<Step> := [];
    assert IsRun(maxStored, maxReady, capacity, [w], none) && w == [w][|none|];
  }

  lemma ReachableNext(maxStored: nat, maxReady: nat, capacity: nat, w: World, step: Step, x: World)
    requires Reachable(maxStored, maxReady, capacity, w) && Next(w, step, x)
    ensures Reachable(maxStored, maxReady, capacity, x)
  {
    var states, steps :| IsRun(maxStored, maxReady, capacity, states, steps) && w == states[|steps|];
    var states', steps' := states + [x], steps + [step];
    forall i | 0 <= i < |steps'| ensures Next(states'[i], steps'[i], states'[i + 1]) {
      if i < |steps| {
        assert Next(states[i], steps[i], states[i + 1]);
      }
    }
    assert IsRun(maxStored, maxReady, capacity, states', steps') && x == states'[|steps'|];
  }

  // ------------------------------------------------------------- main theorems

  // Whatever reaches the builder passed the admission checks, so the view can be
  // prepared from it without leaving its buffers.
  lemma BuilderSeesWellFormedFrames(maxStored: nat, maxReady: nat, capacity: nat, w: World)
    requires Reachable(maxStored, maxReady, capacity, w) && w.builder.Building?
    ensures WellFormed(w.builder.frame)
    ensures ViewConversion.Convertible(w.builder.frame) <==> ViewConversion.ConversionFailure(w.builder.frame).None?
  {
    ReachableInv(maxStored, maxReady, capacity, w);
    FS.AcceptedFramesAreWellFormed(maxStored, maxReady, w.frames, w.builder.frame);
  }

  // Versions are numbered 1, 2, 3, ... and each names a newer frame than the last.
  lemma VersionsAreConsecutive(maxStored: nat, maxReady: nat, capacity: nat, w: World, i: nat, j: nat)
    requires Reachable(maxStored, maxReady, capacity, w) && i < j < |w.recorded|
    ensures w.recorded[i].versionId == i + 1 && w.recorded[j].versionId == j + 1
    ensures w.recorded[i].lastIntegratedFrameId < w.recorded[j].lastIntegratedFrameId
  {
    ReachableInv(maxStored, maxReady, capacity, w);
    ChainIncreases(w.recorded, i, j);
  }

  lemma {:induction false} ChainIncreases(recorded: seq<SceneVersion>, i: nat, j: nat)
    requires Chained(recorded) && i < j < |recorded|
    ensures recorded[i].lastIntegratedFrameId < recorded[j].lastIntegratedFrameId
  {
    if i + 1 < j {
      ChainIncreases(recorded, i, j - 1);
    }
  }

  lemma InLast(recorded: seq<SceneVersion>, capacity: nat, v: SceneVersion)
    requires Chained(recorded)
    ensures v in LastOf(recorded, capacity) <==>
      var id := v.versionId; 1 <= id <= |recorded| < id + capacity && recorded[id - 1] == v
  {
    var last := LastOf(recorded, capacity);
    var shift := |recorded| - |last|;
    if v in last {
      var i :| 0 <= i < |last| && last[i] == v;
      assert recorded[shift + i] == v;
    }
    var id := v.versionId;
    if 1 <= id <= |recorded| < id + capacity && recorded[id - 1] == v {
      assert last[id - 1 - shift] == v;
    }
  }

  lemma ChainedIdsIncrease(recorded: seq<SceneVersion>)
    requires Chained(recorded)
    ensures IdsIncrease(recorded)
  {
  }

  // A lookup by version id succeeds exactly for the newest `capacity` versions, and
  // returns what was recorded under that id.
  lemma LookupsFindTheNewest(maxStored: nat, maxReady: nat, capacity: nat, w: World, id: SceneVersionId)
    requires Reachable(maxStored, maxReady, capacity, w)
    ensures w.versions.Get(id).Some? <==> 1 <= id <= |w.recorded| < id + (if capacity == 0 then 1 else capacity)
    ensures w.versions.Get(id).Some? ==> w.versions.Get(id).value == w.recorded[id - 1]
    ensures w.versions.latest == if w.recorded == [] then None else Some(w.recorded[|w.recorded| - 1])
  {
    ReachableInv(maxStored, maxReady, capacity, w);
    ChainedIdsIncrease(w.recorded);
    StoreHoldsTheLast(w.recorded, w.capacity);
    if w.versions.Get(id).Some? {
      var v := w.versions.Get(id).value;
      GetAnswersTheLast(w.recorded, w.capacity, id, v);
      InLast(w.recorded, w.capacity, v);
    }
    if 1 <= id <= |w.recorded| < id + w.capacity {
      var v := w.recorded[id - 1];
      InLast(w.recorded, w.capacity, v);
      GetAnswersTheLast(w.recorded, w.capacity, id, v);
    }
  }

  // When a version is recorded, the frame it names is stored and protected.
  lemma RecordedFrameIsStored(maxStored: nat, maxReady: nat, capacity: nat, w: World)
    requires Reachable(maxStored, maxReady, capacity, w) && w.builder.Published?
    ensures w.builder.version.lastIntegratedFrameId == w.builder.frame.frameId
    ensures w.builder.frame in w.frames.store.history.frames
    ensures ProtectedFromEviction(w.frames.store.lifecycles, w.builder.frame.frameId)
  {
    ReachableInv(maxStored, maxReady, capacity, w);
    FS.UnacknowledgedFramesAreKept(maxStored, maxReady, w.frames, w.builder.frame);
  }

  // Every acknowledgement succeeds, whatever was submitted meanwhile.
  lemma AcknowledgementSucceeds(maxStored: nat, maxReady: nat, capacity: nat, w: World, x: World)
    requires Reachable(maxStored, maxReady, capacity, w) && Next(w, Acknowledge, x)
    ensures w.builder.frame.frameId in w.frames.store.queue.inFlightIds
    ensures w.builder.frame.frameId in (if w.builder.consumed then x.frames.ledger.consumed else x.frames.ledger.failed)
  {
    ReachableInv(maxStored, maxReady, capacity, w);
    FS.ReachableInv(maxStored, maxReady, w.frames);
    AcknowledgeEffect(w.frames, w.builder.frame.frameId, w.builder.consumed);
  }

  // Between two frames, exactly the frames that a version names count as consumed.
  lemma ConsumedMeansRecorded(maxStored: nat, maxReady: nat, capacity: nat, w: World, id: FrameId)
    requires Reachable(maxStored, maxReady, capacity, w) && w.builder.Waiting?
    ensures id in w.frames.ledger.consumed <==> exists v :: v in w.recorded && v.lastIntegratedFrameId == id
  {
    ReachableInv(maxStored, maxReady, capacity, w);
    InRecordedIds(w.recorded, id);
  }

  lemma {:induction false} InRecordedIds(recorded: seq<SceneVersion>, id: FrameId)
    ensures id in RecordedIds(recorded) <==> exists v :: v in recorded && v.lastIntegratedFrameId == id
  {
    if recorded != [] {
      var n := |recorded| - 1;
      InRecordedIds(recorded[..n], id);
      assert recorded == recorded[..n] + [recorded[n]];
    }
  }

  // The builder never acknowledges early, so no frame it was given gets stuck.
  lemma NothingGetsStuck(maxStored: nat, maxReady: nat, capacity: nat, w: World, id: FrameId)
    requires Reachable(maxStored, maxReady, capacity, w) && id in w.frames.ledger.returned
    ensures !FS.Stuck(w.frames, id)
  {
    ReachableInv(maxStored, maxReady, capacity, w);
    FS.StuckIffAcknowledgedEarly(maxStored, maxReady, w.frames, id);
  }
}
