// The frame store and its three parts, as classes proved against functions on
// plain values: the history deque with its map index, the lifecycle tracker, and
// the ready queue with its two id sets.
module FrameStorage {
  import opened Common
  import opened FrameModel

  // ------------------------------------------------------------------ history

  datatype History = History(frames: seq<Frame>, byId: map<FrameId, Frame>, latest: Option<Frame>) {
    function Added(frame: Frame): History {
      History(frames + [frame], byId[frame.frameId := frame], Some(frame))
    }

    function Removed(id: FrameId): History {
      History(Without(frames, id), byId - {id}, latest)
    }

    function LatestId(): Option<FrameId> {
      if latest.Some? then Some(latest.value.frameId) else None
    }

    function LatestTicks(): Option<int> {
      if latest.Some? then Some(latest.value.ticks) else None
    }
  }

  // The frames without the first one that has this id.
  function Without(frames: seq<Frame>, id: FrameId): seq<Frame> {
    if frames == [] then []
    else if frames[0].frameId == id then frames[1..]
    else [frames[0]] + Without(frames[1..], id)
  }

  lemma {:induction false} WithoutAt(frames: seq<Frame>, id: FrameId, k: nat)
    requires k <= |frames|
    requires forall i :: 0 <= i < k ==> frames[i].frameId != id
    requires k < |frames| ==> frames[k].frameId == id
    ensures Without(frames, id) == if k < |frames| then frames[..k] + frames[k + 1..] else frames
  {
    if frames != [] && k > 0 {
      WithoutAt(frames[1..], id, k - 1);
      assert k < |frames| ==> frames[1..][..k - 1] + frames[1..][k..] == frames[1..k] + frames[k + 1..];
    }
  }

  function FirstWith(frames: seq<Frame>, canEvict: FrameId -> bool): Option<FrameId> {
    if frames == [] then None
    else if canEvict(frames[0].frameId) then Some(frames[0].frameId)
    else FirstWith(frames[1..], canEvict)
  }

  // The first match, with where it stands.
  lemma {:induction false} FirstWithAt(frames: seq<Frame>, canEvict: FrameId -> bool) returns (k: nat)
    ensures k <= |frames|
    ensures forall i :: 0 <= i < k ==> !canEvict(frames[i].frameId)
    ensures k < |frames| ==> canEvict(frames[k].frameId) && FirstWith(frames, canEvict) == Some(frames[k].frameId)
    ensures k == |frames| ==> FirstWith(frames, canEvict) == None
  {
    if frames == [] || canEvict(frames[0].frameId) {
      k := 0;
    } else {
      k := FirstWithAt(frames[1..], canEvict);
      k := k + 1;
    }
  }

  class FrameHistory {
    var history: seq<Frame>
    var framesById: map<FrameId, Frame>
    var latestFrame: Option<Frame>

    constructor ()
      ensures View() == History([], map[], None)
    {
      history, framesById, latestFrame := [], map[], None;
    }

    function View(): History
      reads this
    {
      History(history, framesById, latestFrame)
    }

    method Add(frame: Frame)
      modifies this
      ensures View() == old(View()).Added(frame)
    {
      history := history + [frame];
      framesById := framesById[frame.frameId := frame];
      latestFrame := Some(frame);
    }

    method Remove(id: FrameId)
      modifies this
      ensures View() == old(View()).Removed(id)
    {
      var k := 0;
      while k < |history| && history[k].frameId != id
        invariant k <= |history|
        invariant forall i :: 0 <= i < k ==> history[i].frameId != id
      {
        k := k + 1;
      }
      WithoutAt(history, id, k);
      if k < |history| {
        history := history[..k] + history[k + 1..];
      }
      framesById := framesById - {id};
    }

    method Get(id: FrameId) returns (frame: Option<Frame>)
      ensures frame == if id in framesById then Some(framesById[id]) else None
    {
      frame := if id in framesById then Some(framesById[id]) else None;
    }

    // The newest frames, oldest of them first.
    method Recent(count: nat) returns (frames: seq<Frame>)
      ensures |frames| == if count < |history| then count else |history|
      ensures frames == history[|history| - |frames|..]
    {
      var clampedCount := if count < |history| then count else |history|;
      var start := |history| - clampedCount;
      frames := [];
      var index := start;
      while index < |history|
        invariant start <= index <= |history|
        invariant frames == history[start..index]
      {
        frames := frames + [history[index]];
        index := index + 1;
      }
    }

    method FindOldestEvictable(canEvict: FrameId -> bool) returns (id: Option<FrameId>)
      ensures id == FirstWith(history, canEvict)
    {
      var k := 0;
      while k < |history|
        invariant k <= |history|
        invariant FirstWith(history, canEvict) == FirstWith(history[k..], canEvict)
      {
        assert history[k..][1..] == history[k + 1..];
        if canEvict(history[k].frameId) {
          return Some(history[k].frameId);
        }
        k := k + 1;
      }
      return None;
    }
  }

  // --------------------------------------------------------------- lifecycles

  datatype LifecycleState = Captured | Stored | Ready | Dispatched | Consumed | Dropped | Invalid | Failed

  datatype Lifecycle = Lifecycle(
    frameId: FrameId,
    state: LifecycleState,
    captured: bool,
    stored: bool,
    readyForConsumer: bool,
    dispatchedToConsumer: bool,
    consumed: bool,
    dropped: bool,
    invalid: bool,
    failed: bool
  )

  type Lifecycles = map<FrameId, Lifecycle>

  function AcceptedReady(m: Lifecycles, id: FrameId): Lifecycles {
    m[id := Lifecycle(id, Ready, true, true, true, false, false, false, false, false)]
  }

  function RecordedInvalid(m: Lifecycles, id: FrameId): Lifecycles {
    if id == 0 || id in m then m
    else m[id := Lifecycle(id, Invalid, true, false, false, false, false, false, true, false)]
  }

  function MarkedDispatched(m: Lifecycles, id: FrameId): Lifecycles {
    if id in m then m[id := m[id].(state := Dispatched, dispatchedToConsumer := true)] else m
  }

  // An acknowledgement: consumed or failed.
  function MarkedDone(m: Lifecycles, id: FrameId, success: bool): Lifecycles {
    if id !in m then m
    else if success then m[id := m[id].(state := Consumed, dispatchedToConsumer := true, consumed := true)]
    else m[id := m[id].(state := Failed, dispatchedToConsumer := true, failed := true)]
  }

  function MarkedDropped(m: Lifecycles, id: FrameId): Lifecycles {
    if id in m then m[id := m[id].(state := Dropped, dropped := true)] else m
  }

  predicate ProtectedFromEviction(m: Lifecycles, id: FrameId) {
    id in m && (m[id].state == Ready || m[id].state == Dispatched)
  }

  class FrameLifecycleTracker {
    var lifecyclesById: Lifecycles

    constructor ()
      ensures lifecyclesById == map[]
    {
      lifecyclesById := map[];
    }

    method RecordAcceptedReady(id: FrameId)
      modifies this
      ensures lifecyclesById == AcceptedReady(old(lifecyclesById), id)
    {
      lifecyclesById := lifecyclesById[id := Lifecycle(id, Ready, true, true, true, false, false, false, false, false)];
    }

    method RecordInvalid(id: FrameId)
      modifies this
      ensures lifecyclesById == RecordedInvalid(old(lifecyclesById), id)
    {
      if id == 0 || id in lifecyclesById {
        return;
      }
      lifecyclesById := lifecyclesById[id := Lifecycle(id, Invalid, true, false, false, false, false, false, true, false)];
    }

    method MarkDispatched(id: FrameId)
      modifies this
      ensures lifecyclesById == MarkedDispatched(old(lifecyclesById), id)
    {
      if id in lifecyclesById {
        lifecyclesById := lifecyclesById[id := lifecyclesById[id].(state := Dispatched, dispatchedToConsumer := true)];
      }
    }

    method MarkConsumed(id: FrameId)
      modifies this
      ensures lifecyclesById == MarkedDone(old(lifecyclesById), id, true)
    {
      if id in lifecyclesById {
        lifecyclesById := lifecyclesById[id := lifecyclesById[id].(state := Consumed, dispatchedToConsumer := true, consumed := true)];
      }
    }

    method MarkFailed(id: FrameId)
      modifies this
      ensures lifecyclesById == MarkedDone(old(lifecyclesById), id, false)
    {
      if id in lifecyclesById {
        lifecyclesById := lifecyclesById[id := lifecyclesById[id].(state := Failed, dispatchedToConsumer := true, failed := true)];
      }
    }

    method MarkDropped(id: FrameId)
      modifies this
      ensures lifecyclesById == MarkedDropped(old(lifecyclesById), id)
    {
      if id in lifecyclesById {
        lifecyclesById := lifecyclesById[id := lifecyclesById[id].(state := Dropped, dropped := true)];
      }
    }
  }

  // -------------------------------------------------------------- ready queue

  datatype Queue = Queue(capacity: nat, fifo: seq<Frame>, readyIds: set<FrameId>, inFlightIds: set<FrameId>) {
    predicate Full() { |fifo| >= capacity }

    function Pushed(frame: Frame): Queue { this.(fifo := fifo + [frame]) }

    function Announced(id: FrameId): Queue { this.(readyIds := readyIds + {id}) }

    function Popped(): Queue
      requires fifo != []
    {
      this.(fifo := fifo[1..])
    }

    function InFlight(id: FrameId): Queue { this.(readyIds := readyIds - {id}, inFlightIds := inFlightIds + {id}) }

    function Completed(id: FrameId): Queue { this.(inFlightIds := inFlightIds - {id}) }
  }

  class ReadyFrameQueue {
    const capacity: nat
    var queue: seq<Frame>
    var readyFrameIds: set<FrameId>
    var inFlightFrameIds: set<FrameId>

    constructor (capacity: nat)
      ensures View() == Queue(Max(1, capacity), [], {}, {})
    {
      this.capacity := Max(1, capacity);
      queue, readyFrameIds, inFlightFrameIds := [], {}, {};
    }

    function View(): Queue
      reads this
    {
      Queue(capacity, queue, readyFrameIds, inFlightFrameIds)
    }

    method TryEnqueue(frame: Frame) returns (ok: bool)
      modifies this
      ensures ok <==> !old(View()).Full()
      ensures View() == if ok then old(View()).Pushed(frame).Announced(frame.frameId) else old(View())
    {
      if |queue| >= capacity {
        return false;
      }
      queue := queue + [frame];
      readyFrameIds := readyFrameIds + {frame.frameId};
      return true;
    }

    method TryDequeue() returns (frame: Option<Frame>)
      modifies this
      ensures frame.None? <==> old(queue) == []
      ensures frame.None? ==> View() == old(View())
      ensures frame.Some? ==> frame.value == old(queue)[0]
                              && View() == old(View()).Popped().InFlight(frame.value.frameId)
    {
      if queue == [] {
        return None;
      }
      var head := queue[0];
      queue := queue[1..];
      readyFrameIds := readyFrameIds - {head.frameId};
      inFlightFrameIds := inFlightFrameIds + {head.frameId};
      return Some(head);
    }

    method MarkCompleted(id: FrameId) returns (ok: bool)
      modifies this
      ensures ok <==> id in old(inFlightFrameIds)
      ensures View() == old(View()).Completed(id)
    {
      if id !in inFlightFrameIds {
        return false;
      }
      inFlightFrameIds := inFlightFrameIds - {id};
      return true;
    }
  }

  // -------------------------------------------------------------------- store

  datatype Store = Store(
    maxStored: nat,
    history: History,
    lifecycles: Lifecycles,
    queue: Queue,
    accepted: nat,
    rejected: nat,
    dropped: nat,
    evicted: nat,
    lastCode: SubmissionCode
  ) {
    function Context(): ValidationContext {
      ValidationContext(
        history.LatestId(),
        history.LatestTicks(),
        |history.frames| >= maxStored,
        FirstWith(history.frames, Unprotected(lifecycles)).Some?)
    }

    function Rejected(frame: Frame, code: SubmissionCode): Store {
      this.(lifecycles := RecordedInvalid(lifecycles, frame.frameId), rejected := rejected + 1, lastCode := code)
    }

    function Filed(frame: Frame): Store {
      this.(lifecycles := AcceptedReady(lifecycles, frame.frameId), history := history.Added(frame), accepted := accepted + 1)
    }

    // The part of submitFrame that follows a successful enqueue.
    function Committed(frame: Frame): Store {
      Filed(frame).EvictedOld().(lastCode := Accepted)
    }

    // What evictOldFramesLocked leaves.
    function EvictedOld(): Store
      decreases |history.frames|
    {
      if |history.frames| <= maxStored then this
      else
        var id := FirstWith(history.frames, Evictable(history.LatestId(), lifecycles));
        if id.None? then this
        else
          RemovalShrinks(history, Evictable(history.LatestId(), lifecycles));
          Evicted(id.value).EvictedOld()
    }

    function Evicted(id: FrameId): Store {
      this.(lifecycles := MarkedDropped(lifecycles, id), history := history.Removed(id),
            dropped := dropped + 1, evicted := evicted + 1)
    }

    function Acknowledged(id: FrameId, success: bool): Store {
      if id !in queue.inFlightIds then this
      else this.(queue := queue.Completed(id), lifecycles := MarkedDone(lifecycles, id, success)).EvictedOld()
    }

    // A whole submission with nothing interleaved.
    function Submitted(frame: Frame): (r: (Store, SubmissionCode)) {
      var code := Validate(frame, Context());
      if code != Accepted then (Rejected(frame, code), code)
      else if queue.Full() then (Rejected(frame, ReadyFrameQueueFull), ReadyFrameQueueFull)
      else (this.(queue := queue.Pushed(frame).Announced(frame.frameId)).Committed(frame), Accepted)
    }
  }

  function Unprotected(m: Lifecycles): FrameId -> bool {
    (id: FrameId) => !ProtectedFromEviction(m, id)
  }

  function Evictable(latestId: Option<FrameId>, m: Lifecycles): FrameId -> bool {
    (id: FrameId) => (latestId.None? || id != latestId.value) && !ProtectedFromEviction(m, id)
  }

  lemma RemovalShrinks(h: History, canEvict: FrameId -> bool)
    requires FirstWith(h.frames, canEvict).Some?
    ensures |h.Removed(FirstWith(h.frames, canEvict).value).frames| == |h.frames| - 1
  {
    var k := FirstWithAt(h.frames, canEvict);
    assert forall i :: 0 <= i < k ==> h.frames[i].frameId != h.frames[k].frameId;
    WithoutAt(h.frames, h.frames[k].frameId, k);
  }

  // One turn of the eviction loop.
  lemma EvictionStep(s: Store)
    requires |s.history.frames| > s.maxStored
    requires FirstWith(s.history.frames, Evictable(s.history.LatestId(), s.lifecycles)).Some?
    ensures s.EvictedOld()
            == s.Evicted(FirstWith(s.history.frames, Evictable(s.history.LatestId(), s.lifecycles)).value).EvictedOld()
  {
  }

  class FrameStore {
    const maxStoredFrames: nat
    const history: FrameHistory
    const lifecycleTracker: FrameLifecycleTracker
    const readyFrameQueue: ReadyFrameQueue
    var acceptedFrameCount: nat
    var rejectedFrameCount: nat
    var droppedFrameCount: nat
    var evictedFrameCount: nat
    var lastSubmissionCode: SubmissionCode

    constructor (maxStored: nat, maxReady: nat)
      ensures fresh(history) && fresh(lifecycleTracker) && fresh(readyFrameQueue)
      ensures View() == EmptyStore(maxStored, maxReady)
    {
      maxStoredFrames := Max(1, maxStored);
      history := new FrameHistory();
      lifecycleTracker := new FrameLifecycleTracker();
      readyFrameQueue := new ReadyFrameQueue(Max(1, maxReady));
      acceptedFrameCount, rejectedFrameCount, droppedFrameCount, evictedFrameCount := 0, 0, 0, 0;
      lastSubmissionCode := InvalidFrameId;
    }

    function View(): Store
      reads this, history, lifecycleTracker, readyFrameQueue
    {
      Store(maxStoredFrames, history.View(), lifecycleTracker.lifecyclesById, readyFrameQueue.View(),
            acceptedFrameCount, rejectedFrameCount, droppedFrameCount, evictedFrameCount, lastSubmissionCode)
    }

    method SubmitFrame(frame: Frame) returns (code: SubmissionCode)
      modifies this, history, lifecycleTracker, readyFrameQueue
      ensures (View(), code) == old(View()).Submitted(frame)
    {
      var evictable := history.FindOldestEvictable(Unprotected(lifecycleTracker.lifecyclesById));
      var context := ValidationContext(
        if history.latestFrame.Some? then Some(history.latestFrame.value.frameId) else None,
        if history.latestFrame.Some? then Some(history.latestFrame.value.ticks) else None,
        |history.history| >= maxStoredFrames,
        evictable.Some?);
      code := Validate(frame, context);
      if code != Accepted {
        RecordRejectedFrame(frame, code);
        return;
      }
      var enqueued := readyFrameQueue.TryEnqueue(frame);
      if !enqueued {
        code := ReadyFrameQueueFull;
        RecordRejectedFrame(frame, code);
        return;
      }
      lifecycleTracker.RecordAcceptedReady(frame.frameId);
      history.Add(frame);
      acceptedFrameCount := acceptedFrameCount + 1;
      EvictOldFrames();
      lastSubmissionCode := code;
    }

    method RecordRejectedFrame(frame: Frame, code: SubmissionCode)
      modifies this, lifecycleTracker
      ensures View() == old(View()).Rejected(frame, code)
    {
      lifecycleTracker.RecordInvalid(frame.frameId);
      rejectedFrameCount := rejectedFrameCount + 1;
      lastSubmissionCode := code;
    }

    method EvictOldFrames()
      modifies this, history, lifecycleTracker
      ensures View() == old(View()).EvictedOld()
    {
      while |history.history| > maxStoredFrames
        invariant View().EvictedOld() == old(View()).EvictedOld()
        decreases |history.history|
      {
        var latestId := history.View().LatestId();
        var canEvict := Evictable(latestId, lifecycleTracker.lifecyclesById);
        var id := history.FindOldestEvictable(canEvict);
        if id.None? {
          break;
        }
        ghost var before := View();
        EvictionStep(before);
        RemovalShrinks(history.View(), canEvict);
        lifecycleTracker.MarkDropped(id.value);
        history.Remove(id.value);
        droppedFrameCount := droppedFrameCount + 1;
        evictedFrameCount := evictedFrameCount + 1;
        assert View() == before.Evicted(id.value);
      }
    }

    method TryDequeueReadyFrame() returns (frame: Option<Frame>)
      modifies lifecycleTracker, readyFrameQueue
      ensures frame.None? <==> old(View()).queue.fifo == []
      ensures frame.None? ==> View() == old(View())
      ensures frame.Some? ==>
        var s := old(View()); var id := frame.value.frameId;
        && frame.value == s.queue.fifo[0]
        && View() == s.(queue := s.queue.Popped().InFlight(id), lifecycles := MarkedDispatched(s.lifecycles, id))
    {
      frame := readyFrameQueue.TryDequeue();
      if frame.Some? {
        lifecycleTracker.MarkDispatched(frame.value.frameId);
      }
    }

    method MarkFrameConsumed(id: FrameId) returns (ok: bool)
      modifies this, history, lifecycleTracker, readyFrameQueue
      ensures ok <==> id in old(View()).queue.inFlightIds
      ensures View() == old(View()).Acknowledged(id, true)
    {
      ok := readyFrameQueue.MarkCompleted(id);
      if ok {
        lifecycleTracker.MarkConsumed(id);
        EvictOldFrames();
      }
    }

    method MarkFrameFailed(id: FrameId) returns (ok: bool)
      modifies this, history, lifecycleTracker, readyFrameQueue
      ensures ok <==> id in old(View()).queue.inFlightIds
      ensures View() == old(View()).Acknowledged(id, false)
    {
      ok := readyFrameQueue.MarkCompleted(id);
      if ok {
        lifecycleTracker.MarkFailed(id);
        EvictOldFrames();
      }
    }
  }

  function EmptyStore(maxStored: nat, maxReady: nat): Store {
    Store(Max(1, maxStored), History([], map[], None), map[], Queue(Max(1, maxReady), [], {}, {}),
          0, 0, 0, 0, InvalidFrameId)
  }
}
