// The bounded store of published scene versions.
module SceneVersions {
  import opened Common
  import opened FrameModel

  type SceneVersionId = nat

  // A row-major 4x4 camera-to-world matrix.
  type Pose4f = p: seq<real> | |p| == 16 witness seq(16, _ => 0.0)

  datatype TrackingStatus = NotRun | Tracked | Lost

  datatype IntegrationStatus = Skipped | Integrated | Failed

  datatype SceneVersion = SceneVersion(
    versionId: SceneVersionId,
    ticks: int,
    lastIntegratedFrameId: FrameId,
    cameraToWorld: Pose4f,
    trackingStatus: TrackingStatus,
    integrationStatus: IntegrationStatus
  )

  datatype Versions = Versions(history: seq<SceneVersion>, byId: map<SceneVersionId, SceneVersion>, latest: Option<SceneVersion>) {
    function Added(v: SceneVersion): Versions {
      Versions(history + [v], byId[v.versionId := v], Some(v))
    }

    function Removed(id: SceneVersionId): Versions {
      Versions(WithoutVersion(history, id), byId - {id}, latest)
    }

    function Get(id: SceneVersionId): Option<SceneVersion> {
      if id in byId then Some(byId[id]) else None
    }

    // Oldest versions removed until the history fits.
    function Trimmed(capacity: nat): Versions
      decreases |history|
    {
      if |history| <= capacity then this
      else Removed(history[0].versionId).Trimmed(capacity)
    }
  }

  const NO_VERSIONS := Versions([], map[], None)

  // Without the first version that has this id.
  function WithoutVersion(history: seq<SceneVersion>, id: SceneVersionId): (r: seq<SceneVersion>)
    ensures |r| <= |history|
    ensures history != [] && history[0].versionId == id ==> r == history[1..]
  {
    if history == [] then []
    else if history[0].versionId == id then history[1..]
    else [history[0]] + WithoutVersion(history[1..], id)
  }

  // Cutting out entry k, seen from the second entry on.
  lemma CutShifts(history: seq<SceneVersion>, k: nat)
    requires 0 < k <= |history|
    ensures k < |history| ==>
      [history[0]] + (history[1..][..k - 1] + history[1..][k..]) == history[..k] + history[k + 1..]
    ensures [history[0]] + history[1..] == history
  {
  }

  lemma {:induction false} WithoutVersionAt(history: seq<SceneVersion>, id: SceneVersionId, k: nat)
    requires k <= |history|
    requires forall i :: 0 <= i < k ==> history[i].versionId != id
    requires k < |history| ==> history[k].versionId == id
    ensures WithoutVersion(history, id) == if k < |history| then history[..k] + history[k + 1..] else history
  {
    if history != [] && k > 0 {
      WithoutVersionAt(history[1..], id, k - 1);
      CutShifts(history, k);
    }
  }

  class SceneVersionHistory {
    var history: seq<SceneVersion>
    var versionsById: map<SceneVersionId, SceneVersion>
    var latestVersion: Option<SceneVersion>

    constructor ()
      ensures View() == NO_VERSIONS
    {
      history, versionsById, latestVersion := [], map[], None;
    }

    function View(): Versions
      reads this
    {
      Versions(history, versionsById, latestVersion)
    }

    method Add(v: SceneVersion)
      modifies this
      ensures View() == old(View()).Added(v)
    {
      history := history + [v];
      versionsById := versionsById[v.versionId := v];
      latestVersion := Some(v);
    }

    method Remove(id: SceneVersionId)
      modifies this
      ensures View() == old(View()).Removed(id)
    {
      var k := 0;
      while k < |history| && history[k].versionId != id
        invariant k <= |history|
        invariant forall i :: 0 <= i < k ==> history[i].versionId != id
      {
        k := k + 1;
      }
      WithoutVersionAt(history, id, k);
      if k < |history| {
        history := history[..k] + history[k + 1..];
      }
      versionsById := versionsById - {id};
    }
  }

  class SceneVersionStore {
    const capacity: nat
    const history: SceneVersionHistory

    constructor (capacity: nat)
      ensures this.capacity == Max(1, capacity) && fresh(history) && history.View() == NO_VERSIONS
    {
      this.capacity := Max(1, capacity);
      history := new SceneVersionHistory();
    }

    method Add(v: SceneVersion)
      modifies history
      ensures history.View() == old(history.View()).Added(v).Trimmed(capacity)
    {
      history.Add(v);
      while |history.history| > capacity
        invariant history.View().Trimmed(capacity) == old(history.View()).Added(v).Trimmed(capacity)
        decreases |history.history|
      {
        history.Remove(history.history[0].versionId);
      }
    }

    method Get(id: SceneVersionId) returns (v: Option<SceneVersion>)
      ensures v == history.View().Get(id)
    {
      v := if id in history.versionsById then Some(history.versionsById[id]) else None;
    }

    method Latest() returns (v: Option<SceneVersion>)
      ensures v == history.View().latest
    {
      v := history.latestVersion;
    }
  }

  // ------------------------------------------- what the store answers over a log

  // Everything that was ever added, in order.
  function StoreOf(log: seq<SceneVersion>, capacity: nat): Versions {
    if log == [] then NO_VERSIONS
    else StoreOf(log[..|log| - 1], capacity).Added(log[|log| - 1]).Trimmed(capacity)
  }

  ghost predicate IdsIncrease(log: seq<SceneVersion>) {
    forall i, j :: 0 <= i < j < |log| ==> log[i].versionId < log[j].versionId
  }

  // The map is the index of the history.
  ghost predicate Indexed(v: Versions) {
    && (forall i :: 0 <= i < |v.history| ==> v.Get(v.history[i].versionId) == Some(v.history[i]))
    && (forall id :: id in v.byId ==> v.byId[id] in v.history && v.byId[id].versionId == id)
  }

  lemma AddKeepsIndex(v: Versions, x: SceneVersion)
    requires Indexed(v) && IdsIncrease(v.history + [x])
    ensures Indexed(v.Added(x))
  {
    var w := v.Added(x);
    assert w.history[|v.history|] == x;
    forall i | 0 <= i < |v.history| ensures v.history[i].versionId < x.versionId {
      assert w.history[i] == v.history[i];
    }
  }

  lemma TrimOnce(v: Versions, capacity: nat)
    requires Indexed(v) && IdsIncrease(v.history) && |v.history| == capacity + 1
    ensures v.Trimmed(capacity).history == v.history[1..] && Indexed(v.Trimmed(capacity))
    ensures v.Trimmed(capacity).latest == v.latest
  {
    var id := v.history[0].versionId;
    var w := v.Removed(id);
    assert w.history == v.history[1..];
    assert v.Trimmed(capacity) == w;
    forall i | 0 <= i < |w.history| ensures w.Get(w.history[i].versionId) == Some(w.history[i]) {
      assert w.history[i] == v.history[i + 1];
    }
    forall k | k in w.byId ensures w.byId[k] in w.history && w.byId[k].versionId == k {
      assert w.byId[k] in v.history;
      var i :| 0 <= i < |v.history| && v.history[i] == w.byId[k];
      assert i > 0 && w.history[i - 1] == w.byId[k];
    }
  }

  ghost predicate HoldsTheLast(s: Versions, log: seq<SceneVersion>, capacity: nat) {
    && s.history == LastOf(log, capacity) && Indexed(s)
    && s.latest == (if log == [] then None else Some(log[|log| - 1]))
  }

  lemma LastIncreases(log: seq<SceneVersion>, x: SceneVersion, capacity: nat)
    requires IdsIncrease(log + [x])
    ensures IdsIncrease(LastOf(log, capacity) + [x])
  {
    var more := LastOf(log, capacity) + [x];
    var shift := |log| + 1 - |more|;
    forall i, j | 0 <= i < j < |more| ensures more[i].versionId < more[j].versionId {
      assert more[i] == (log + [x])[shift + i] && more[j] == (log + [x])[shift + j];
    }
  }

  lemma AddHoldsTheLast(s: Versions, log: seq<SceneVersion>, x: SceneVersion, capacity: nat)
    requires HoldsTheLast(s, log, capacity) && IdsIncrease(log + [x]) && capacity >= 1
    ensures HoldsTheLast(s.Added(x).Trimmed(capacity), log + [x], capacity)
  {
    LastIncreases(log, x, capacity);
    LastOfMore(log, x, capacity);
    AddKeepsIndex(s, x);
    if |s.Added(x).history| > capacity {
      TrimOnce(s.Added(x), capacity);
    }
  }

  // However many versions were added, the history holds exactly the last ones.
  lemma {:induction false} StoreHoldsTheLast(log: seq<SceneVersion>, capacity: nat)
    requires IdsIncrease(log) && capacity >= 1
    ensures HoldsTheLast(StoreOf(log, capacity), log, capacity)
  {
    if log != [] {
      var before, x := log[..|log| - 1], log[|log| - 1];
      assert log == before + [x];
      assert IdsIncrease(before);
      StoreHoldsTheLast(before, capacity);
      AddHoldsTheLast(StoreOf(before, capacity), before, x, capacity);
      assert StoreOf(log, capacity) == StoreOf(before, capacity).Added(x).Trimmed(capacity);
    }
  }

  // A lookup succeeds exactly for the versions among the last ones that were added.
  lemma GetAnswersTheLast(log: seq<SceneVersion>, capacity: nat, id: SceneVersionId, v: SceneVersion)
    requires IdsIncrease(log) && capacity >= 1
    ensures StoreOf(log, capacity).Get(id) == Some(v) <==> v in LastOf(log, capacity) && v.versionId == id
  {
    StoreHoldsTheLast(log, capacity);
    var s := StoreOf(log, capacity);
    if v in s.history && v.versionId == id {
      var i :| 0 <= i < |s.history| && s.history[i] == v;
      assert s.Get(s.history[i].versionId) == Some(v);
    }
  }
}
