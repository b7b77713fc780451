// Every interleaving of the builder thread, the viewer thread, any other readers of
// the scene, and clients that move the viewer pose.
//
// The scene lock is the one of SceneLockRuns, step by step; the builder changes the
// scene only under its write lease, and the viewer renders, compares and publishes
// under its read lease.
module ViewerRuns {
  import opened Common
  import opened FrameModel
  import opened SceneVersions
  import opened SceneBuilding
  import opened SceneViewing
  import opened ViewerStores
  import SceneLock
  import L = SceneLockRuns

  const BUILDER: L.Access := 0
  const VIEWER: L.Access := 1

  datatype Config = Config(loop: LoopPolicy, readPolicy: SceneLock.ReadPolicy, render: Renderer)

  datatype Builder =
    | BuilderIdle
    | Requested(frame: Frame)  // waits for the write lease, or has just got it
    | Ensured(frame: Frame)    // pipeline ensured, scene perhaps reset
    | Tracking(frame: Frame)   // tracked, not lost
    | Changed(frame: Frame)    // integrated, not published
    | LeavingWrite             // published or lost, lease still held

  datatype Viewer =
    | ViewerIdle
    | Wanted(pose: ViewerPose)          // waits for the read lease, or has just got it
    | Drawn(output: RenderOutput)       // rendered, not published
    | LeavingRead(output: RenderOutput) // published, lease still held

  // An output with the number of the viewer run that published it.
  datatype Shown = Shown(output: RenderOutput, run: nat)

  datatype World = World(
    lock: L.System,
    content: Content,
    pipeline: Pipeline,
    builder: Builder,
    poses: Poses,
    viewer: Viewer,
    lastGeneration: Generation,
    run: nat,
    shown: seq<Shown>,                  // every published output
    contents: seq<Content>,             // contents[v] was published as version v
    requests: map<Generation, Request>  // every request that was ever filed
  )

  datatype Step =
    | OtherReader(step: L.Step)
    | WaitForLock(step: L.Step)
    | RequestWrite(frame: Frame)
    | Ensure
    | Track(lost: bool)
    | Integrate(cameraToWorld: Pose4f)
    | PublishScene
    | LeaveWrite
    | UpdatePose(pose: ViewerPose)
    | Rebase
    | MoveRelative(relative: Pose4f)
    | Poll
    | RequestRead
    | Draw
    | PublishOutput
    | LeaveRead
    | Restart

  function Initial(cfg: Config): World {
    World(L.Initial(cfg.readPolicy), [], NO_PIPELINE, BuilderIdle, NO_POSES, ViewerIdle, 0, 0, [], [[]], map[])
  }

  predicate Enabled(cfg: Config, w: World, step: Step) {
    match step
    case OtherReader(s) => s.a != BUILDER && s.a != VIEWER && !s.ArriveWrite? && !s.Publish? && L.Enabled(w.lock, s)
    case WaitForLock(s) => (s.Recheck? || s.NotifyAll? || s.SpuriousWake?) && (s.a == BUILDER || s.a == VIEWER) && L.Enabled(w.lock, s)
    case RequestWrite(_) => w.builder.BuilderIdle? && L.Enabled(w.lock, L.ArriveWrite(BUILDER))
    case Ensure => w.builder.Requested? && w.lock.PhaseOf(BUILDER).Writing?
    case Track(_) => w.builder.Ensured? && w.pipeline.trackingInitialised
    case Integrate(_) => w.builder.Tracking? || (w.builder.Ensured? && !w.pipeline.trackingInitialised)
    case PublishScene => w.builder.Changed? && L.Enabled(w.lock, L.Publish(BUILDER))
    case LeaveWrite => w.builder.LeavingWrite? && L.Enabled(w.lock, L.Release(BUILDER))
    case UpdatePose(_) => true
    case Rebase => true
    case MoveRelative(_) => true
    case Poll => w.viewer.ViewerIdle? && Found(cfg.loop, w.poses, w.lastGeneration).Some?
    case RequestRead => w.viewer.Wanted? && L.Enabled(w.lock, L.ArriveRead(VIEWER))
    case Draw => w.viewer.Wanted? && w.lock.PhaseOf(VIEWER).Reading?
    case PublishOutput => w.viewer.Drawn?
    case LeaveRead => w.viewer.LeavingRead? && L.Enabled(w.lock, L.Release(VIEWER))
    case Restart => w.viewer.ViewerIdle?
  }

  function LatestShown(shown: seq<Shown>): Option<RenderOutput> {
    if shown == [] then None else Some(shown[|shown| - 1].output)
  }

  // Files a pose if the store took a new one.
  function WithPoses(w: World, poses: Poses): World {
    if poses.next == w.poses.next || poses.latest.None? then w.(poses := poses)
    else w.(poses := poses, requests := w.requests[poses.latest.value.generation := poses.latest.value.request])
  }

  function Apply(cfg: Config, w: World, step: Step): World
    requires Enabled(cfg, w, step)
  {
    match step
    case OtherReader(s) => w.(lock := L.Apply(w.lock, s))
    case WaitForLock(s) => w.(lock := L.Apply(w.lock, s))
    case RequestWrite(frame) => w.(lock := L.Apply(w.lock, L.ArriveWrite(BUILDER)), builder := Requested(frame))
    case Ensure =>
      w.(content := w.pipeline.EnsuredContent(w.content), pipeline := w.pipeline.Ensured(w.builder.frame),
         builder := Ensured(w.builder.frame))
    case Track(lost) => w.(builder := if lost then LeavingWrite else Tracking(w.builder.frame))
    case Integrate(pose) =>
      w.(content := w.content + [FrameIntegrated(w.builder.frame, pose)], pipeline := w.pipeline.Integrated(),
         builder := Changed(w.builder.frame))
    case PublishScene =>
      w.(lock := L.Apply(w.lock, L.Publish(BUILDER)), contents := w.contents + [w.content], builder := LeavingWrite)
    case LeaveWrite => w.(lock := L.Apply(w.lock, L.Release(BUILDER)), builder := BuilderIdle)
    case UpdatePose(pose) => WithPoses(w, w.poses.Filed(pose))
    case Rebase => w.(poses := w.poses.Rebased())
    case MoveRelative(relative) => WithPoses(w, w.poses.Moved(relative))
    case Poll =>
      var pose := Found(cfg.loop, w.poses, w.lastGeneration).value;
      if Renderable(pose.request) then w.(viewer := Wanted(pose)) else w
    case RequestRead => w.(lock := L.Apply(w.lock, L.ArriveRead(VIEWER)))
    case Draw => w.(viewer := Drawn(Rendered(cfg.render, w.content, w.viewer.pose, w.lock.PhaseOf(VIEWER).version)))
    case PublishOutput =>
      var o := w.viewer.output.(cached := Repeats(LatestShown(w.shown), w.viewer.output));
      w.(shown := w.shown + [Shown(o, w.run)], viewer := LeavingRead(o))
    case LeaveRead =>
      w.(lock := L.Apply(w.lock, L.Release(VIEWER)), viewer := ViewerIdle, lastGeneration := w.viewer.output.poseGeneration)
    case Restart => w.(lastGeneration := 0, run := w.run + 1)
  }

  predicate Next(cfg: Config, w: World, step: Step, x: World) {
    Enabled(cfg, w, step) && x == Apply(cfg, w, step)
  }

  ghost predicate IsRun(cfg: Config, states: seq<World>, steps: seq<Step>) {
    && |states| == |steps| + 1
    && states[0] == Initial(cfg)
    && forall i :: 0 <= i < |steps| ==> Next(cfg, states[i], steps[i], states[i + 1])
  }

  // ------------------------------------------------------------------ invariant

  // Outside the window between a change and its publication, the scene's content is
  // what its version stands for. A reset alone leaves tracking uninitialised, so it
  // is always followed by an integration.
  ghost predicate ContentOk(b: Builder, p: Pipeline, content: Content, contents: seq<Content>) {
    contents != [] &&
    match b
    case Ensured(_) => p.trackingInitialised ==> content == contents[|contents| - 1]
    case Changed(_) => true
    case _ => content == contents[|contents| - 1]
  }

  ghost predicate LockOk(b: Builder, v: Viewer, lock: L.System, contents: seq<Content>) {
    && L.Inv(lock)
    && |contents| == lock.lock.sceneVersionId + 1
    && (b.Ensured? || b.Tracking? || b.Changed? || b.LeavingWrite? ==> lock.PhaseOf(BUILDER).Writing?)
    && (v.Drawn? || v.LeavingRead? ==> lock.PhaseOf(VIEWER).Reading?)
  }

  // A generation names one request for ever.
  ghost predicate PosesOk(poses: Poses, requests: map<Generation, Request>) {
    && (forall g :: g in requests ==> 1 <= g < poses.next)
    && 1 <= poses.next
    && (poses.latest.Some? ==> Names(requests, poses.latest.value) && poses.latest.value.generation == poses.next - 1)
  }

  ghost predicate Names(requests: map<Generation, Request>, pose: ViewerPose) {
    pose.generation in requests && requests[pose.generation] == pose.request
  }

  // An output shows what its version and its generation stand for.
  ghost predicate Faithful(cfg: Config, o: RenderOutput, contents: seq<Content>, requests: map<Generation, Request>) {
    && o.sceneVersionId < |contents| && o.poseGeneration in requests
    && o.rgb == cfg.render(contents[o.sceneVersionId], requests[o.poseGeneration])
    && o.imageSize == requests[o.poseGeneration].imageSize
  }

  ghost predicate ViewerOk(cfg: Config, v: Viewer, contents: seq<Content>, requests: map<Generation, Request>) {
    && (v.Wanted? ==> Names(requests, v.pose))
    && (v.Drawn? ==> Faithful(cfg, v.output, contents, requests))
    && (v.LeavingRead? ==> v.output.poseGeneration in requests)
  }

  ghost predicate ShownOk(cfg: Config, shown: seq<Shown>, contents: seq<Content>, requests: map<Generation, Request>) {
    forall i :: 0 <= i < |shown| ==>
      && Faithful(cfg, shown[i].output, contents, requests)
      && (shown[i].output.cached <==> Repeats(LatestShown(shown[..i]), shown[i].output))
  }

  // In Event mode the remembered generation is that of the last output of this run.
  ghost predicate EventOk(cfg: Config, v: Viewer, lastGeneration: Generation, run: nat, shown: seq<Shown>) {
    && (shown != [] ==> shown[|shown| - 1].run <= run)
    && (v.LeavingRead? ==> shown != [] && shown[|shown| - 1] == Shown(v.output, run))
    && (!v.LeavingRead? && shown != [] && shown[|shown| - 1].run == run ==>
          lastGeneration == shown[|shown| - 1].output.poseGeneration)
    && (cfg.loop == Event ==>
          && (v.Wanted? ==> v.pose.generation > lastGeneration)
          && (v.Drawn? ==> v.output.poseGeneration > lastGeneration)
          && forall i :: 0 < i < |shown| && shown[i].output.cached ==> shown[i - 1].run < shown[i].run)
  }

  ghost predicate Inv(cfg: Config, w: World) {
    && ContentOk(w.builder, w.pipeline, w.content, w.contents)
    && LockOk(w.builder, w.viewer, w.lock, w.contents)
    && PosesOk(w.poses, w.requests)
    && ViewerOk(cfg, w.viewer, w.contents, w.requests)
    && ShownOk(cfg, w.shown, w.contents, w.requests)
    && EventOk(cfg, w.viewer, w.lastGeneration, w.run, w.shown)
  }

  // -------------------------------------------------------------- step by step

  // A lease that is held survives every lock step but its own release.
  lemma LeaseSurvives(s: L.System, step: L.Step, a: L.Access)
    requires L.Enabled(s, step) && !(step.Release? && step.a == a)
    ensures s.PhaseOf(a).Reading? ==> L.Apply(s, step).PhaseOf(a).Reading?
    ensures s.PhaseOf(a).Writing? ==> L.Apply(s, step).PhaseOf(a).Writing?
  {
    if step.a != a {
      L.OthersOnlyWoken(s, step, a);
    }
  }

  lemma LockStepKeepsLock(b: Builder, v: Viewer, s: L.System, step: L.Step, contents: seq<Content>)
    requires LockOk(b, v, s, contents) && L.Enabled(s, step) && !step.Publish?
    requires step.Release? ==> step.a != BUILDER && step.a != VIEWER
    ensures LockOk(b, v, L.Apply(s, step), contents)
  {
    L.StepKeepsInv(s, step);
    LeaseSurvives(s, step, BUILDER);
    LeaseSurvives(s, step, VIEWER);
  }

  lemma ReleaseKeepsLock(b: Builder, v: Viewer, b': Builder, v': Viewer, s: L.System, a: L.Access, contents: seq<Content>)
    requires LockOk(b, v, s, contents) && L.Enabled(s, L.Release(a))
    requires if a == BUILDER then b' == BuilderIdle && v' == v else a == VIEWER && v' == ViewerIdle && b' == b
    ensures LockOk(b', v', L.Apply(s, L.Release(a)), contents)
  {
    L.StepKeepsInv(s, L.Release(a));
    LeaseSurvives(s, L.Release(a), if a == BUILDER then VIEWER else BUILDER);
  }

  lemma PublishKeepsLock(b: Builder, v: Viewer, s: L.System, contents: seq<Content>, content: Content)
    requires LockOk(b, v, s, contents) && b.Changed? && L.Enabled(s, L.Publish(BUILDER))
    ensures LockOk(LeavingWrite, v, L.Apply(s, L.Publish(BUILDER)), contents + [content])
  {
    L.StepKeepsInv(s, L.Publish(BUILDER));
    LeaseSurvives(s, L.Publish(BUILDER), BUILDER);
    LeaseSurvives(s, L.Publish(BUILDER), VIEWER);
  }

  // What an output shows does not change when versions and requests are added.
  lemma FaithfulStays(cfg: Config, o: RenderOutput, contents: seq<Content>, contents': seq<Content>,
                      requests: map<Generation, Request>, requests': map<Generation, Request>)
    requires Faithful(cfg, o, contents, requests) && contents <= contents'
    requires forall g :: g in requests ==> g in requests' && requests'[g] == requests[g]
    ensures Faithful(cfg, o, contents', requests')
  {
    assert contents'[o.sceneVersionId] == contents[o.sceneVersionId];
  }

  lemma LogsGrow(cfg: Config, v: Viewer, shown: seq<Shown>, contents: seq<Content>, contents': seq<Content>,
                 requests: map<Generation, Request>, requests': map<Generation, Request>)
    requires ViewerOk(cfg, v, contents, requests) && ShownOk(cfg, shown, contents, requests) && contents <= contents'
    requires forall g :: g in requests ==> g in requests' && requests'[g] == requests[g]
    ensures ViewerOk(cfg, v, contents', requests') && ShownOk(cfg, shown, contents', requests')
  {
    if v.Drawn? {
      FaithfulStays(cfg, v.output, contents, contents', requests, requests');
    }
    forall i | 0 <= i < |shown| ensures Faithful(cfg, shown[i].output, contents', requests') {
      FaithfulStays(cfg, shown[i].output, contents, contents', requests, requests');
    }
  }

  // ------------------------------------------------------- steps of the builder

  lemma BuilderKeepsInv(cfg: Config, w: World, step: Step)
    requires Inv(cfg, w) && Enabled(cfg, w, step)
    requires step.OtherReader? || step.WaitForLock? || step.RequestWrite? || step.Ensure? || step.Track? || step.Integrate?
    ensures Inv(cfg, Apply(cfg, w, step))
  {
    if step.OtherReader? || step.WaitForLock? {
      LockStepKeepsLock(w.builder, w.viewer, w.lock, step.step, w.contents);
    } else if step.RequestWrite? {
      LockStepKeepsLock(w.builder, w.viewer, w.lock, L.ArriveWrite(BUILDER), w.contents);
    }
  }

  lemma PublishSceneKeepsInv(cfg: Config, w: World)
    requires Inv(cfg, w) && Enabled(cfg, w, PublishScene)
    ensures Inv(cfg, Apply(cfg, w, PublishScene))
  {
    PublishKeepsLock(w.builder, w.viewer, w.lock, w.contents, w.content);
    LogsGrow(cfg, w.viewer, w.shown, w.contents, w.contents + [w.content], w.requests, w.requests);
  }

  lemma LeaveWriteKeepsInv(cfg: Config, w: World)
    requires Inv(cfg, w) && Enabled(cfg, w, LeaveWrite)
    ensures Inv(cfg, Apply(cfg, w, LeaveWrite))
  {
    ReleaseKeepsLock(w.builder, w.viewer, BuilderIdle, w.viewer, w.lock, BUILDER, w.contents);
  }

  // ---------------------------------------------------------- steps of clients

  lemma FiledKeepsPoses(poses: Poses, v: ViewerPose, requests: map<Generation, Request>)
    requires PosesOk(poses, requests)
    ensures var p := poses.Filed(v); var r := requests[p.latest.value.generation := p.latest.value.request];
      && PosesOk(p, r) && p.next > poses.next && p.latest.value.generation !in requests
  {
  }

  lemma PoseStepKeepsInv(cfg: Config, w: World, poses: Poses, v: ViewerPose)
    requires Inv(cfg, w)
    requires poses == w.poses || poses == w.poses.Filed(v)
    ensures Inv(cfg, WithPoses(w, poses))
  {
    if poses != w.poses {
      FiledKeepsPoses(w.poses, v, w.requests);
      LogsGrow(cfg, w.viewer, w.shown, w.contents, w.contents, w.requests, WithPoses(w, poses).requests);
    }
  }

  lemma ClientKeepsInv(cfg: Config, w: World, step: Step)
    requires Inv(cfg, w) && Enabled(cfg, w, step) && (step.UpdatePose? || step.Rebase? || step.MoveRelative?)
    ensures Inv(cfg, Apply(cfg, w, step))
  {
    if step.UpdatePose? {
      PoseStepKeepsInv(cfg, w, w.poses.Filed(step.pose), step.pose);
    } else if step.MoveRelative? {
      if w.poses.baseline.Some? {
        var v := ViewerPose(w.poses.Relative(step.relative), w.poses.baseline.value.generation);
        PoseStepKeepsInv(cfg, w, w.poses.Moved(step.relative), v);
      }
    }
  }

  // -------------------------------------------------------- steps of the viewer

  lemma PollKeepsInv(cfg: Config, w: World)
    requires Inv(cfg, w) && Enabled(cfg, w, Poll)
    ensures Inv(cfg, Apply(cfg, w, Poll))
  {
  }

  lemma RequestReadKeepsInv(cfg: Config, w: World)
    requires Inv(cfg, w) && Enabled(cfg, w, RequestRead)
    ensures Inv(cfg, Apply(cfg, w, RequestRead))
  {
    LockStepKeepsLock(w.builder, w.viewer, w.lock, L.ArriveRead(VIEWER), w.contents);
  }

  lemma RestartKeepsInv(cfg: Config, w: World)
    requires Inv(cfg, w) && Enabled(cfg, w, Restart)
    ensures Inv(cfg, Apply(cfg, w, Restart))
  {
  }

  // While the viewer holds its lease, the content is that of the lease's version.
  lemma ReaderSeesPublishedContent(b: Builder, v: Viewer, p: Pipeline, lock: L.System, content: Content, contents: seq<Content>)
    requires ContentOk(b, p, content, contents) && LockOk(b, v, lock, contents) && lock.PhaseOf(VIEWER).Reading?
    ensures var version := lock.PhaseOf(VIEWER).version;
      version < |contents| && content == contents[version]
  {
    L.InMembers(lock, VIEWER, L.Reader);
    L.InMembers(lock, BUILDER, L.Writer);
    assert !lock.PhaseOf(BUILDER).Writing?;
  }

  lemma DrawEffect(cfg: Config, w: World)
    requires Enabled(cfg, w, Draw)
    ensures var x := Apply(cfg, w, Draw);
      && x.viewer.Drawn? && x == w.(viewer := x.viewer)
      && x.viewer.output == Rendered(cfg.render, w.content, w.viewer.pose, w.lock.PhaseOf(VIEWER).version)
  {
  }

  lemma DrawKeepsInv(cfg: Config, w: World)
    requires Inv(cfg, w) && Enabled(cfg, w, Draw)
    ensures Inv(cfg, Apply(cfg, w, Draw))
  {
    DrawEffect(cfg, w);
    ReaderSeesPublishedContent(w.builder, w.viewer, w.pipeline, w.lock, w.content, w.contents);
  }

  lemma PublishKeepsShown(cfg: Config, shown: seq<Shown>, contents: seq<Content>, requests: map<Generation, Request>,
                          o: RenderOutput, run: nat)
    requires ShownOk(cfg, shown, contents, requests) && Faithful(cfg, o, contents, requests)
    ensures ShownOk(cfg, shown + [Shown(o.(cached := Repeats(LatestShown(shown), o)), run)], contents, requests)
  {
    var more := shown + [Shown(o.(cached := Repeats(LatestShown(shown), o)), run)];
    assert more[..|shown|] == shown;
    forall i | 0 <= i < |shown| ensures more[i] == shown[i] && more[..i] == shown[..i] {
    }
  }

  lemma PublishKeepsEvent(cfg: Config, v: Viewer, lastGeneration: Generation, run: nat, shown: seq<Shown>)
    requires EventOk(cfg, v, lastGeneration, run, shown) && v.Drawn?
    ensures var o := v.output.(cached := Repeats(LatestShown(shown), v.output));
      EventOk(cfg, LeavingRead(o), lastGeneration, run, shown + [Shown(o, run)])
  {
  }

  lemma PublishOutputKeepsInv(cfg: Config, w: World)
    requires Inv(cfg, w) && Enabled(cfg, w, PublishOutput)
    ensures Inv(cfg, Apply(cfg, w, PublishOutput))
  {
    PublishKeepsShown(cfg, w.shown, w.contents, w.requests, w.viewer.output, w.run);
    PublishKeepsEvent(cfg, w.viewer, w.lastGeneration, w.run, w.shown);
  }

  lemma LeaveReadKeepsInv(cfg: Config, w: World)
    requires Inv(cfg, w) && Enabled(cfg, w, LeaveRead)
    ensures Inv(cfg, Apply(cfg, w, LeaveRead))
  {
    ReleaseKeepsLock(w.builder, w.viewer, w.builder, ViewerIdle, w.lock, VIEWER, w.contents);
  }

  lemma StepKeepsInv(cfg: Config, w: World, step: Step)
    requires Inv(cfg, w) && Enabled(cfg, w, step)
    ensures Inv(cfg, Apply(cfg, w, step))
  {
    match step
    case PublishScene => PublishSceneKeepsInv(cfg, w);
    case LeaveWrite => LeaveWriteKeepsInv(cfg, w);
    case UpdatePose(_) => ClientKeepsInv(cfg, w, step);
    case Rebase => ClientKeepsInv(cfg, w, step);
    case MoveRelative(_) => ClientKeepsInv(cfg, w, step);
    case Poll => PollKeepsInv(cfg, w);
    case RequestRead => RequestReadKeepsInv(cfg, w);
    case Restart => RestartKeepsInv(cfg, w);
    case Draw => DrawKeepsInv(cfg, w);
    case PublishOutput => PublishOutputKeepsInv(cfg, w);
    case LeaveRead => LeaveReadKeepsInv(cfg, w);
    case _ => BuilderKeepsInv(cfg, w, step);
  }

  lemma {:induction false} RunInvariant(cfg: Config, states: seq<World>, steps: seq<Step>, i: nat)
    requires IsRun(cfg, states, steps) && i < |states|
    ensures Inv(cfg, states[i])
    decreases i
  {
    if i > 0 {
      RunInvariant(cfg, states, steps, i - 1);
      assert Next(cfg, states[i - 1], steps[i - 1], states[i]);
      StepKeepsInv(cfg, states[i - 1], steps[i - 1]);
    }
  }

  ghost predicate Reachable(cfg: Config, w: World) {
    exists states, steps :: IsRun(cfg, states, steps) && w == states[|steps|]
  }

  lemma ReachableInv(cfg: Config, w: World)
    requires Reachable(cfg, w)
    ensures Inv(cfg, w)
  {
    var states, steps :| IsRun(cfg, states, steps) && w == states[|steps|];
    RunInvariant(cfg, states, steps, |steps|);
  }

  // ------------------------------------------------------------- main theorems

  // An output is marked as cached exactly when pose generation and scene version
  // repeat, and then image and size really are those of the output before it.
  lemma CachedMeansIdentical(cfg: Config, w: World, i: nat)
    requires Reachable(cfg, w) && 0 < i < |w.shown|
    ensures var o, previous := w.shown[i].output, w.shown[i - 1].output;
      && (o.cached <==> o.poseGeneration == previous.poseGeneration && o.sceneVersionId == previous.sceneVersionId)
      && (o.cached ==> o.rgb == previous.rgb && o.imageSize == previous.imageSize)
  {
    ReachableInv(cfg, w);
    assert LatestShown(w.shown[..i]) == Some(w.shown[i - 1].output);
  }

  lemma FirstOutputIsFresh(cfg: Config, w: World)
    requires Reachable(cfg, w) && w.shown != []
    ensures !w.shown[0].output.cached
  {
    ReachableInv(cfg, w);
  }

  // Under the Event policy only the first output of a later run can be cached.
  lemma EventCachesOnlyAcrossRestarts(cfg: Config, w: World, i: nat)
    requires Reachable(cfg, w) && cfg.loop == Event && i < |w.shown| && w.shown[i].output.cached
    ensures i > 0 && w.shown[i - 1].run < w.shown[i].run
  {
    ReachableInv(cfg, w);
    FirstOutputIsFresh(cfg, w);
  }

  // ... so the first run, which starts from an empty store, caches nothing.
  lemma FirstEventRunNeverCaches(cfg: Config, w: World, i: nat)
    requires Reachable(cfg, w) && cfg.loop == Event && i < |w.shown| && w.run == 0
    ensures !w.shown[i].output.cached
  {
    var states, steps :| IsRun(cfg, states, steps) && w == states[|steps|];
    RunsAreBounded(cfg, states, steps, |steps|);
    if w.shown[i].output.cached {
      EventCachesOnlyAcrossRestarts(cfg, w, i);
    }
  }

  lemma {:induction false} RunsAreBounded(cfg: Config, states: seq<World>, steps: seq<Step>, k: nat)
    requires IsRun(cfg, states, steps) && k < |states|
    ensures forall i :: 0 <= i < |states[k].shown| ==> states[k].shown[i].run <= states[k].run
    decreases k
  {
    if k > 0 {
      RunsAreBounded(cfg, states, steps, k - 1);
      assert Next(cfg, states[k - 1], steps[k - 1], states[k]);
    }
  }

  // Every output shows the content that was published as its version, rendered for
  // the request that its generation names.
  lemma OutputsShowPublishedScenes(cfg: Config, w: World, i: nat)
    requires Reachable(cfg, w) && i < |w.shown|
    ensures Faithful(cfg, w.shown[i].output, w.contents, w.requests)
  {
    ReachableInv(cfg, w);
  }

  lemma OthersAddNoNames(cfg: Config, w: World, step: Step)
    requires Enabled(cfg, w, step) && !step.UpdatePose? && !step.MoveRelative?
    ensures w.contents <= Apply(cfg, w, step).contents && w.shown <= Apply(cfg, w, step).shown
    ensures Apply(cfg, w, step).requests == w.requests
  {
  }

  lemma NewNameIsFree(w: World, v: ViewerPose)
    requires PosesOk(w.poses, w.requests)
    ensures var x := WithPoses(w, w.poses.Filed(v));
      && x.contents == w.contents && x.shown == w.shown
      && forall g :: g in w.requests ==> g in x.requests && x.requests[g] == w.requests[g]
  {
    FiledKeepsPoses(w.poses, v, w.requests);
  }

  lemma ReachablePoses(cfg: Config, w: World)
    requires Reachable(cfg, w)
    ensures PosesOk(w.poses, w.requests)
  {
    ReachableInv(cfg, w);
  }

  // Versions and generations never change what they stand for.
  lemma NamesAreForEver(cfg: Config, w: World, step: Step, x: World)
    requires Reachable(cfg, w) && Next(cfg, w, step, x)
    ensures w.contents <= x.contents && w.shown <= x.shown
    ensures forall g :: g in w.requests ==> g in x.requests && x.requests[g] == w.requests[g]
  {
    ReachablePoses(cfg, w);
    if step.UpdatePose? {
      NewNameIsFree(w, step.pose);
    } else if step.MoveRelative? {
      if w.poses.baseline.Some? {
        NewNameIsFree(w, ViewerPose(w.poses.Relative(step.relative), w.poses.baseline.value.generation));
      }
    } else {
      OthersAddNoNames(cfg, w, step);
    }
  }

  // A frame that is given up for lost tracking leaves the published content in place.
  lemma LostFrameLeavesNoTrace(cfg: Config, w: World, x: World)
    requires Reachable(cfg, w) && Next(cfg, w, Track(true), x)
    ensures x.builder.LeavingWrite? && x.contents == w.contents
    ensures x.contents != [] && x.content == x.contents[|x.contents| - 1]
  {
    ReachableInv(cfg, w);
  }

  // Taken without interference, the builder's steps are one attempt.
  lemma BuildWithoutInterference(cfg: Config, w: World, lost: bool, pose: Pose4f)
    requires Enabled(cfg, w, Ensure)
    ensures var w1 := Apply(cfg, w, Ensure);
      var (p, version) := Attempt(w.pipeline, w.builder.frame, lost, pose, w.lock.lock.sceneVersionId + 1);
      if version.None? then Enabled(cfg, w1, Track(lost)) && Apply(cfg, w1, Track(lost)).pipeline == p
      else
        var w2 := if w1.pipeline.trackingInitialised then Apply(cfg, w1, Track(false)) else w1;
        && Enabled(cfg, w2, Integrate(pose))
        && var w3 := Apply(cfg, w2, Integrate(pose));
        && w3.pipeline == p && Enabled(cfg, w3, PublishScene)
        && Apply(cfg, w3, PublishScene).lock.lock.sceneVersionId == version.value.versionId
  {
  }

  // ------------------------------------------------- what cached says of the run

  // One iteration of the viewer's loop that publishes: polled at p, drawn at d,
  // published at q, whatever else happens in between.
  ghost predicate Iteration(states: seq<World>, steps: seq<Step>, p: nat, d: nat, q: nat)
    requires |states| == |steps| + 1
  {
    && p < d < q < |steps| && steps[p].Poll? && steps[d].Draw? && steps[q].PublishOutput?
    && (forall m :: p < m < d ==> !steps[m].Poll?)
    && (forall m :: d < m < q ==> !steps[m].Draw?)
  }

  // The pose that is drawn is the one that the last poll took.
  lemma {:induction false} WantedSincePoll(cfg: Config, states: seq<World>, steps: seq<Step>, p: nat, d: nat, m: nat)
    requires IsRun(cfg, states, steps) && p < m <= d < |states| && states[d].viewer.Wanted?
    requires steps[p].Poll? && forall k :: p < k < d ==> !steps[k].Poll?
    ensures states[m].viewer == states[d].viewer
    decreases d - m
  {
    if m < d {
      WantedSincePoll(cfg, states, steps, p, d, m + 1);
      assert Next(cfg, states[m], steps[m], states[m + 1]);
    }
  }

  lemma {:induction false} DrawnSinceDraw(cfg: Config, states: seq<World>, steps: seq<Step>, d: nat, q: nat, m: nat)
    requires IsRun(cfg, states, steps) && d < m <= q < |states| && states[q].viewer.Drawn?
    requires steps[d].Draw? && forall k :: d < k < q ==> !steps[k].Draw?
    ensures states[m].viewer == states[q].viewer
    decreases q - m
  {
    if m < q {
      DrawnSinceDraw(cfg, states, steps, d, q, m + 1);
      assert Next(cfg, states[m], steps[m], states[m + 1]);
    }
  }

  lemma PollNames(cfg: Config, w: World)
    requires PosesOk(w.poses, w.requests) && Enabled(cfg, w, Poll) && Apply(cfg, w, Poll).viewer.Wanted?
    ensures Apply(cfg, w, Poll).viewer.pose.generation == w.poses.next - 1
  {
  }

  lemma DrawNames(cfg: Config, w: World)
    requires LockOk(w.builder, w.viewer, w.lock, w.contents) && Enabled(cfg, w, Draw)
    ensures Apply(cfg, w, Draw).viewer.Drawn?
    ensures var o := Apply(cfg, w, Draw).viewer.output;
      o.poseGeneration == w.viewer.pose.generation && o.sceneVersionId == |w.contents| - 1
  {
  }

  // What an iteration publishes names the newest pose at its poll and the newest
  // version at its draw.
  lemma IterationNames(cfg: Config, states: seq<World>, steps: seq<Step>, p: nat, d: nat, q: nat)
    requires IsRun(cfg, states, steps) && Iteration(states, steps, p, d, q)
    ensures states[q].viewer.Drawn?
    ensures states[q].viewer.output.poseGeneration == states[p].poses.next - 1
    ensures states[q].viewer.output.sceneVersionId == |states[d].contents| - 1
    ensures LatestShown(states[q + 1].shown)
            == Some(states[q].viewer.output.(cached := Repeats(LatestShown(states[q].shown), states[q].viewer.output)))
  {
    assert Next(cfg, states[p], steps[p], states[p + 1]);
    assert Next(cfg, states[d], steps[d], states[d + 1]);
    assert Next(cfg, states[q], steps[q], states[q + 1]);
    WantedSincePoll(cfg, states, steps, p, d, p + 1);
    DrawnSinceDraw(cfg, states, steps, d, q, d + 1);
    PosesAt(cfg, states, steps, p);
    PollNames(cfg, states[p]);
    LockAt(cfg, states, steps, d);
    DrawNames(cfg, states[d]);
  }

  lemma PosesAt(cfg: Config, states: seq<World>, steps: seq<Step>, i: nat)
    requires IsRun(cfg, states, steps) && i < |states|
    ensures PosesOk(states[i].poses, states[i].requests)
  {
    RunInvariant(cfg, states, steps, i);
  }

  lemma LockAt(cfg: Config, states: seq<World>, steps: seq<Step>, i: nat)
    requires IsRun(cfg, states, steps) && i < |states|
    ensures LockOk(states[i].builder, states[i].viewer, states[i].lock, states[i].contents)
  {
    RunInvariant(cfg, states, steps, i);
  }

  lemma OutputsOnlyPublished(cfg: Config, w: World, step: Step)
    requires Enabled(cfg, w, step) && !step.PublishOutput?
    ensures Apply(cfg, w, step).shown == w.shown
  {
  }

  lemma {:induction false} ShownStays(cfg: Config, states: seq<World>, steps: seq<Step>, i: nat, j: nat)
    requires IsRun(cfg, states, steps) && i <= j < |states|
    requires forall m :: i <= m < j ==> !steps[m].PublishOutput?
    ensures states[j].shown == states[i].shown
    decreases j
  {
    if i < j {
      ShownStays(cfg, states, steps, i, j - 1);
      assert Next(cfg, states[j - 1], steps[j - 1], states[j]);
      OutputsOnlyPublished(cfg, states[j - 1], steps[j - 1]);
    }
  }

  // No step in the range hands out a generation.
  ghost predicate NothingFiled(states: seq<World>, i: nat, j: nat) {
    forall m :: i <= m < j && m + 1 < |states| ==> states[m + 1].poses.next == states[m].poses.next
  }

  lemma {:induction false} NextOnlyGrows(cfg: Config, states: seq<World>, steps: seq<Step>, i: nat, j: nat)
    requires IsRun(cfg, states, steps) && i <= j < |states|
    ensures states[i].poses.next <= states[j].poses.next
    ensures states[i].poses.next == states[j].poses.next <==> NothingFiled(states, i, j)
    decreases j
  {
    if i < j {
      NextOnlyGrows(cfg, states, steps, i, j - 1);
      assert Next(cfg, states[j - 1], steps[j - 1], states[j]);
      NextOrSame(cfg, states[j - 1], steps[j - 1]);
      assert NothingFiled(states, i, j) <==>
        NothingFiled(states, i, j - 1) && states[j - 1 + 1].poses.next == states[j - 1].poses.next;
    }
  }

  lemma NextOrSame(cfg: Config, w: World, step: Step)
    requires Enabled(cfg, w, step)
    ensures w.poses.next <= Apply(cfg, w, step).poses.next
    ensures step.PublishScene? ==> |Apply(cfg, w, step).contents| == |w.contents| + 1
    ensures !step.PublishScene? ==> Apply(cfg, w, step).contents == w.contents
  {
  }

  ghost predicate NothingPublished(steps: seq<Step>, i: nat, j: nat) {
    forall m :: i <= m < j && m < |steps| ==> !steps[m].PublishScene?
  }

  lemma {:induction false} VersionsOnlyGrow(cfg: Config, states: seq<World>, steps: seq<Step>, i: nat, j: nat)
    requires IsRun(cfg, states, steps) && i <= j < |states|
    ensures |states[i].contents| <= |states[j].contents|
    ensures |states[i].contents| == |states[j].contents| <==> NothingPublished(steps, i, j)
    decreases j
  {
    if i < j {
      VersionsOnlyGrow(cfg, states, steps, i, j - 1);
      assert Next(cfg, states[j - 1], steps[j - 1], states[j]);
      NextOrSame(cfg, states[j - 1], steps[j - 1]);
    }
  }

  // Under either policy, and across restarts, an output is marked as cached exactly
  // when no pose was filed between the polls of the two outputs and no version was
  // published between their draws.
  lemma CachedIffNothingHappened(cfg: Config, states: seq<World>, steps: seq<Step>,
                                 p: nat, d: nat, q: nat, p': nat, d': nat, q': nat)
    requires IsRun(cfg, states, steps)
    requires Iteration(states, steps, p, d, q) && Iteration(states, steps, p', d', q') && q < p'
    requires forall m :: q < m < q' ==> !steps[m].PublishOutput?
    ensures LatestShown(states[q' + 1].shown).Some?
    ensures LatestShown(states[q' + 1].shown).value.cached <==> NothingFiled(states, p, p') && NothingPublished(steps, d, d')
  {
    IterationNames(cfg, states, steps, p, d, q);
    IterationNames(cfg, states, steps, p', d', q');
    ShownStays(cfg, states, steps, q + 1, q');
    NextOnlyGrows(cfg, states, steps, p, p');
    VersionsOnlyGrow(cfg, states, steps, d, d');
  }

  // -------------------------------------------------- a restarted run may cache

  lemma Taken(cfg: Config, w: World, step: Step) returns (x: World)
    requires Reachable(cfg, w) && Enabled(cfg, w, step)
    ensures x == Apply(cfg, w, step) && Reachable(cfg, x)
  {
    x := Apply(cfg, w, step);
    var states, steps :| IsRun(cfg, states, steps) && w == states[|steps|];
    var states', steps' := states + [x], steps + [step];
    forall i | 0 <= i < |steps'| ensures Next(cfg, states'[i], steps'[i], states'[i + 1]) {
      if i < |steps| {
        assert Next(cfg, states[i], steps[i], states[i + 1]);
      }
    }
    assert IsRun(cfg, states', steps') && x == states'[|steps'|];
  }

  lemma InitialReachable(cfg: Config)
    ensures Reachable(cfg, Initial(cfg))
  {
    var w := Initial(cfg);
    var none: seq<Step> := [];
    assert IsRun(cfg, [w], none) && w == [w][|none|];
  }

  // Nobody writes or waits to write, and the viewer has no access of its own.
  predicate Quiet(lock: L.System) {
    && !lock.lock.writerActive && lock.lock.waitingWriterCount == 0
    && lock.PhaseOf(VIEWER).Idle?
  }

  lemma QuietReadIsGranted(lock: L.System)
    requires Quiet(lock)
    ensures L.Enabled(lock, L.ArriveRead(VIEWER))
    ensures var after := L.Apply(lock, L.ArriveRead(VIEWER));
      && after.PhaseOf(VIEWER) == L.Reading(lock.lock.sceneVersionId) && L.Enabled(after, L.Release(VIEWER))
      && var left := L.Apply(after, L.Release(VIEWER));
      && L.Enabled(left, L.NotifyAll(VIEWER)) && Quiet(L.Apply(left, L.NotifyAll(VIEWER)))
      && L.Apply(left, L.NotifyAll(VIEWER)).lock.sceneVersionId == lock.lock.sceneVersionId
  {
  }

  // One undisturbed iteration of the viewer's loop.
  lemma RenderOnce(cfg: Config, w: World, v: ViewerPose) returns (x: World)
    requires Reachable(cfg, w) && w.viewer.ViewerIdle? && Quiet(w.lock)
    requires Found(cfg.loop, w.poses, w.lastGeneration) == Some(v) && Renderable(v.request)
    ensures Reachable(cfg, x) && x.viewer.ViewerIdle? && Quiet(x.lock)
    ensures x.lock.lock.sceneVersionId == w.lock.lock.sceneVersionId && x.poses == w.poses && x.run == w.run
    ensures var o := Rendered(cfg.render, w.content, v, w.lock.lock.sceneVersionId);
      x.shown == w.shown + [Shown(o.(cached := Repeats(LatestShown(w.shown), o)), w.run)]
  {
    QuietReadIsGranted(w.lock);
    x := Taken(cfg, w, Poll);
    x := Taken(cfg, x, RequestRead);
    x := Taken(cfg, x, Draw);
    x := Taken(cfg, x, PublishOutput);
    x := Taken(cfg, x, LeaveRead);
    x := Taken(cfg, x, WaitForLock(L.NotifyAll(VIEWER)));
  }

  // A new run forgets the last generation, so it may repeat the output before it:
  // the exception in EventCachesOnlyAcrossRestarts does happen.
  lemma RestartMayCache(cfg: Config, request: Request) returns (w: World)
    requires cfg.loop == Event && Renderable(request)
    ensures Reachable(cfg, w) && |w.shown| == 2 && w.shown[1].output.cached
  {
    w := Initial(cfg);
    InitialReachable(cfg);
    w := Taken(cfg, w, UpdatePose(ViewerPose(request, 0)));
    var v := w.poses.latest.value;
    w := RenderOnce(cfg, w, v);
    w := Taken(cfg, w, Restart);
    w := RenderOnce(cfg, w, v);
  }

  // ... and a HotLoop caches within a run: nothing happened between two iterations.
  lemma HotLoopCaches(cfg: Config, request: Request) returns (w: World)
    requires cfg.loop == HotLoop && Renderable(request)
    ensures Reachable(cfg, w) && w.run == 0 && |w.shown| == 2 && w.shown[1].output.cached
  {
    w := Initial(cfg);
    InitialReachable(cfg);
    w := Taken(cfg, w, UpdatePose(ViewerPose(request, 0)));
    var v := w.poses.latest.value;
    w := RenderOnce(cfg, w, v);
    w := RenderOnce(cfg, w, v);
  }

  // ------------------------------------------------------------ what is rendered

  // Only requests that can be rendered get past the poll.
  ghost predicate OnlyRenderable(v: Viewer, shown: seq<Shown>, requests: map<Generation, Request>) {
    && (v.Wanted? ==> Renderable(v.pose.request))
    && (v.Drawn? ==> v.output.poseGeneration in requests && Renderable(requests[v.output.poseGeneration]))
    && forall i :: 0 <= i < |shown| ==>
         shown[i].output.poseGeneration in requests && Renderable(requests[shown[i].output.poseGeneration])
  }

  lemma StepKeepsRenderable(cfg: Config, w: World, step: Step)
    requires PosesOk(w.poses, w.requests) && ViewerOk(cfg, w.viewer, w.contents, w.requests) && Enabled(cfg, w, step)
    requires OnlyRenderable(w.viewer, w.shown, w.requests)
    ensures OnlyRenderable(Apply(cfg, w, step).viewer, Apply(cfg, w, step).shown, Apply(cfg, w, step).requests)
  {
    if step.UpdatePose? {
      NewNameIsFree(w, step.pose);
    } else if step.MoveRelative? && w.poses.baseline.Some? {
      NewNameIsFree(w, ViewerPose(w.poses.Relative(step.relative), w.poses.baseline.value.generation));
    }
  }

  lemma {:induction false} RunRenderable(cfg: Config, states: seq<World>, steps: seq<Step>, i: nat)
    requires IsRun(cfg, states, steps) && i < |states|
    ensures OnlyRenderable(states[i].viewer, states[i].shown, states[i].requests)
    decreases i
  {
    if i > 0 {
      RunRenderable(cfg, states, steps, i - 1);
      RunInvariant(cfg, states, steps, i - 1);
      assert Next(cfg, states[i - 1], steps[i - 1], states[i]);
      StepKeepsRenderable(cfg, states[i - 1], steps[i - 1]);
    }
  }

  // Every image that was ever published has a size of 1 to 16384 either way and was
  // asked for with finite intrinsics, focal lengths positive.
  lemma OutputsAreSane(cfg: Config, w: World, i: nat)
    requires Reachable(cfg, w) && i < |w.shown|
    ensures var o := w.shown[i].output;
      && 1 <= o.imageSize.width <= 16384 && 1 <= o.imageSize.height <= 16384
      && o.poseGeneration in w.requests
      && var k := w.requests[o.poseGeneration].intrinsics;
      && k.fx.Finite? && k.fy.Finite? && k.cx.Finite? && k.cy.Finite?
      && k.fx.value > 0.0 && k.fy.value > 0.0 && k.cx.value >= 0.0 && k.cy.value >= 0.0
  {
    ReachableInv(cfg, w);
    var states, steps :| IsRun(cfg, states, steps) && w == states[|steps|];
    RunRenderable(cfg, states, steps, |steps|);
    RenderableInWords(w.requests[w.shown[i].output.poseGeneration]);
  }
}
