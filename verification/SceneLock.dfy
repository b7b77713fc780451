// The reader/writer lock of the shared scene: the guarded fields, the admission
// predicates, and the critical sections of SceneAccessLease and SharedScene.
//
// acquireRead and acquireWrite block on a condition variable, so each is split at
// its wait: Arrive* is the code before the wait, Admit* is one evaluation of the
// wait predicate together with the code that follows it when it is true.
module SceneLock {
  import opened Common

  datatype ReadPolicy = Greedy | Balanced

  datatype LockMode = Read | Write

  // size_t arithmetic: decrementing zero wraps.
  const SIZE_MAX: nat := 0xFFFF_FFFF_FFFF_FFFF

  function Decremented(n: nat): nat {
    if n == 0 then SIZE_MAX else n - 1
  }

  // The fields guarded by SharedSceneState::mutex, as a value.
  datatype LockFields = LockFields(
    readPolicy: ReadPolicy,
    activeReaderCount: nat,
    waitingWriterCount: nat,
    writerActive: bool,
    blockedPriorityReadPending: bool,
    sceneVersionId: nat
  ) {
    predicate CanAcquireRead() {
      match readPolicy
      case Greedy => !writerActive
      case Balanced => !writerActive && (waitingWriterCount == 0 || blockedPriorityReadPending)
    }

    predicate CanAcquireWrite() {
      !writerActive && activeReaderCount == 0 && !blockedPriorityReadPending
    }

    function ReadArrived(): LockFields {
      if writerActive then this.(blockedPriorityReadPending := true) else this
    }

    function ReadGranted(): LockFields {
      this.(activeReaderCount := activeReaderCount + 1, blockedPriorityReadPending := false)
    }

    function WriteArrived(): LockFields {
      this.(waitingWriterCount := waitingWriterCount + 1)
    }

    function WriteGranted(): LockFields {
      this.(waitingWriterCount := Decremented(waitingWriterCount), writerActive := true)
    }

    function Released(mode: LockMode): LockFields {
      if mode == Write then this.(writerActive := false)
      else if activeReaderCount > 0 then this.(activeReaderCount := activeReaderCount - 1)
      else this
    }

    function Published(): LockFields {
      this.(sceneVersionId := sceneVersionId + 1)
    }
  }

  function InitialFields(policy: ReadPolicy): LockFields {
    LockFields(policy, 0, 0, false, false, 0)
  }

  class SharedSceneState {
    const readPolicy: ReadPolicy
    var activeReaderCount: nat
    var waitingWriterCount: nat
    var writerActive: bool
    var blockedPriorityReadPending: bool
    var sceneVersionId: nat

    constructor (policy: ReadPolicy)
      ensures Fields() == InitialFields(policy)
    {
      readPolicy := policy;
      activeReaderCount, waitingWriterCount := 0, 0;
      writerActive, blockedPriorityReadPending := false, false;
      sceneVersionId := 0;
    }

    function Fields(): LockFields
      reads this
    {
      LockFields(readPolicy, activeReaderCount, waitingWriterCount, writerActive,
                 blockedPriorityReadPending, sceneVersionId)
    }

    method ArriveRead()
      modifies this
      ensures Fields() == old(Fields()).ReadArrived()
    {
      if writerActive {
        blockedPriorityReadPending := true;
      }
    }

    // The version seen by the new lease when the wait predicate holds.
    method AdmitRead() returns (version: Option<nat>)
      modifies this
      ensures version.Some? <==> old(Fields()).CanAcquireRead()
      ensures version.Some? ==> version.value == sceneVersionId
      ensures Fields() == if version.Some? then old(Fields()).ReadGranted() else old(Fields())
    {
      if !Fields().CanAcquireRead() {
        return None;
      }
      activeReaderCount := activeReaderCount + 1;
      version := Some(sceneVersionId);
      blockedPriorityReadPending := false;
    }

    method ArriveWrite()
      modifies this
      ensures Fields() == old(Fields()).WriteArrived()
    {
      waitingWriterCount := waitingWriterCount + 1;
    }

    method AdmitWrite() returns (version: Option<nat>)
      modifies this
      ensures version.Some? <==> old(Fields()).CanAcquireWrite()
      ensures version.Some? ==> version.value == sceneVersionId
      ensures Fields() == if version.Some? then old(Fields()).WriteGranted() else old(Fields())
    {
      if !Fields().CanAcquireWrite() {
        return None;
      }
      waitingWriterCount := Decremented(waitingWriterCount);
      writerActive := true;
      version := Some(sceneVersionId);
    }

    // The locked part of the lease destructor; notify_all happens after it.
    method Release(mode: LockMode)
      modifies this
      ensures Fields() == old(Fields()).Released(mode)
    {
      if mode == Read {
        if activeReaderCount > 0 {
          activeReaderCount := activeReaderCount - 1;
        }
      } else {
        writerActive := false;
      }
    }
  }

  class SceneAccessLease {
    const state: SharedSceneState
    const mode: LockMode
    var version: nat

    constructor (state: SharedSceneState, mode: LockMode, version: nat)
      ensures this.state == state && this.mode == mode && this.version == version
    {
      this.state, this.mode, this.version := state, mode, version;
    }
  }

  datatype PublishError = EmptyAccess | NotThisScenesWriteAccess

  class SharedScene {
    const state: SharedSceneState

    constructor (policy: ReadPolicy)
      ensures fresh(state) && state.Fields() == InitialFields(policy)
    {
      state := new SharedSceneState(policy);
    }

    // An access handle that was moved from holds no lease.
    method Publish(lease: SceneAccessLease?) returns (r: Result<nat, PublishError>)
      modifies state, if lease == null then {} else {lease}
      ensures r.Ok? <==> lease != null && lease.mode == Write && lease.state == state
      ensures r == Err(EmptyAccess) <==> lease == null
      ensures r.Ok? ==> state.Fields() == old(state.Fields()).Published()
                        && r.value == state.sceneVersionId == lease.version
      ensures r.Err? ==> state.Fields() == old(state.Fields())
                         && (lease != null ==> lease.version == old(lease.version))
    {
      if lease == null {
        return Err(EmptyAccess);
      }
      if lease.mode != Write || lease.state != state {
        return Err(NotThisScenesWriteAccess);
      }
      state.sceneVersionId := state.sceneVersionId + 1;
      lease.version := state.sceneVersionId;
      return Ok(state.sceneVersionId);
    }
  }
}
