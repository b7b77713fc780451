// Everything but the streamer together: the submitter, the builder with its frame
// store and version store, the scene lock, the viewer, other readers and clients.
//
// A state is a state of BuilderRuns beside one of ViewerRuns. They share the builder
// thread: what BuilderRuns does in one step, building a frame, is here the sequence
// of steps that ViewerRuns takes under the write lease.
module SystemRuns {
  import opened Common
  import opened FrameModel
  import opened SceneVersions
  import opened SceneBuilding
  import opened ViewConversion
  import opened ViewerStores
  import B = BuilderRuns
  import V = ViewerRuns

  datatype World = World(b: B.World, v: V.World)

  datatype Limits = Limits(maxStored: nat, maxReady: nat, capacity: nat)

  datatype Step =
    | Frames(bstep: B.Step)   // submit, dequeue, record, acknowledge
    | Refuse                  // the view conversion fails
    | Viewing(vstep: V.Step)  // anybody but the builder
    | RequestWrite
    | Ensure
    | Track(lost: bool)
    | Integrate(cameraToWorld: Pose4f)
    | Publish
    | LeaveWrite

  function Initial(cfg: V.Config, l: Limits): World {
    World(B.Initial(l.maxStored, l.maxReady, l.capacity), V.Initial(cfg))
  }

  predicate ByBuilder(step: V.Step) {
    || step.RequestWrite? || step.Ensure? || step.Track? || step.Integrate? || step.PublishScene? || step.LeaveWrite?
  }

  // The pose that the change made last found.
  function LastPose(content: Content): Pose4f {
    if content != [] && content[|content| - 1].FrameIntegrated? then content[|content| - 1].cameraToWorld else IDENTITY
  }

  predicate Enabled(cfg: V.Config, w: World, step: Step) {
    match step
    case Frames(s) =>
      && !s.Build? && B.Enabled(w.b, s)
      && (s.Record? || s.Acknowledge? ==> w.v.builder.BuilderIdle?)
    case Refuse => w.b.builder.Building? && !Convertible(w.b.builder.frame) && w.v.builder.BuilderIdle?
    case Viewing(s) => !ByBuilder(s) && V.Enabled(cfg, w.v, s)
    case RequestWrite =>
      && w.b.builder.Building? && Convertible(w.b.builder.frame)
      && V.Enabled(cfg, w.v, V.RequestWrite(w.b.builder.frame))
    case Ensure => V.Enabled(cfg, w.v, V.Ensure)
    case Track(lost) => w.b.builder.Building? && V.Enabled(cfg, w.v, V.Track(lost))
    case Integrate(pose) => V.Enabled(cfg, w.v, V.Integrate(pose))
    case Publish => w.b.builder.Building? && V.Enabled(cfg, w.v, V.PublishScene)
    case LeaveWrite => V.Enabled(cfg, w.v, V.LeaveWrite)
  }

  function Apply(cfg: V.Config, w: World, step: Step): World
    requires Enabled(cfg, w, step)
  {
    match step
    case Frames(s) => w.(b := B.Apply(w.b, s))
    case Refuse => w.(b := B.Apply(w.b, B.Build(false, IDENTITY)))
    case Viewing(s) => w.(v := V.Apply(cfg, w.v, s))
    case RequestWrite => w.(v := V.Apply(cfg, w.v, V.RequestWrite(w.b.builder.frame)))
    case Ensure => w.(v := V.Apply(cfg, w.v, V.Ensure))
    case Track(lost) =>
      World(if lost then B.Apply(w.b, B.Build(true, IDENTITY)) else w.b, V.Apply(cfg, w.v, V.Track(lost)))
    case Integrate(pose) => w.(v := V.Apply(cfg, w.v, V.Integrate(pose)))
    case Publish => World(B.Apply(w.b, B.Build(false, LastPose(w.v.content))), V.Apply(cfg, w.v, V.PublishScene))
    case LeaveWrite => w.(v := V.Apply(cfg, w.v, V.LeaveWrite))
  }

  predicate Next(cfg: V.Config, w: World, step: Step, x: World) {
    Enabled(cfg, w, step) && x == Apply(cfg, w, step)
  }

  ghost predicate IsRun(cfg: V.Config, l: Limits, states: seq<World>, steps: seq<Step>) {
    && |states| == |steps| + 1
    && states[0] == Initial(cfg, l)
    && forall i :: 0 <= i < |steps| ==> Next(cfg, states[i], steps[i], states[i + 1])
  }

  // ------------------------------------------------------------------ invariant

  // The two views of the builder agree on the frame and on the pipeline.
  ghost predicate InStep(b: B.Builder, bp: Pipeline, vb: V.Builder, vp: Pipeline, content: Content) {
    match vb
    case BuilderIdle => vp == bp
    case Requested(f) => b == B.Building(f) && Convertible(f) && vp == bp
    case Ensured(f) => b == B.Building(f) && Convertible(f) && vp == bp.Ensured(f)
    case Tracking(f) => b == B.Building(f) && Convertible(f) && vp == bp.Ensured(f)
    case Changed(f) =>
      && b == B.Building(f) && Convertible(f) && vp == bp.Ensured(f).Integrated()
      && content != [] && content[|content| - 1] == FrameIntegrated(f, LastPose(content))
    case LeavingWrite => (b.Published? || b.Built?) && vp == bp
  }

  // Published versions, the one not recorded yet included.
  function AllVersions(b: B.Builder, recorded: seq<SceneVersion>): seq<SceneVersion> {
    if b.Published? then recorded + [b.version] else recorded
  }

  // The frame that was integrated last, read from the content.
  function LastFrame(content: Content): Option<Frame> {
    if content != [] && content[|content| - 1].FrameIntegrated? then Some(content[|content| - 1].frame) else None
  }

  // There was a last frame, and this one has its colour size and its depth size.
  predicate SameSizesAsLast(content: Content, f: Frame) {
    && LastFrame(content).Some?
    && f.rgb.size.width == LastFrame(content).value.rgb.size.width
    && f.rgb.size.height == LastFrame(content).value.rgb.size.height
    && f.depth.size.width == LastFrame(content).value.depth.size.width
    && f.depth.size.height == LastFrame(content).value.depth.size.height
  }

  // The change that a published content was published with is what the version names,
  // and the version says whether that frame could be tracked against the one before.
  predicate ShowsVersion(before: Content, content: Content, v: SceneVersion) {
    && content != [] && content[|content| - 1].FrameIntegrated?
    && content[|content| - 1].frame.frameId == v.lastIntegratedFrameId
    && content[|content| - 1].frame.ticks == v.ticks
    && content[|content| - 1].cameraToWorld == v.cameraToWorld
    && v.trackingStatus == (if SameSizesAsLast(before, content[|content| - 1].frame) then Tracked else NotRun)
    && v.integrationStatus == IntegrationStatus.Integrated
  }

  ghost predicate VersionsShown(contents: seq<Content>, versions: seq<SceneVersion>) {
    && |contents| == |versions| + 1
    && forall k :: 0 <= k < |versions| ==> ShowsVersion(contents[k], contents[k + 1], versions[k])
  }

  // At rest the pipeline is that of the frame integrated last.
  ghost predicate Fits(p: Pipeline, content: Content) {
    if content == [] then !p.hasPipeline && !p.trackingInitialised
    else
      && p.hasPipeline && p.trackingInitialised && LastFrame(content).Some?
      && p.rgbSize == LastFrame(content).value.rgb.size && p.depthSize == LastFrame(content).value.depth.size
  }

  // The scene as an integration finds it: reset once, before the first of all.
  function Base(content: Content): Content {
    if content == [] then [SceneReset] else content
  }

  // Each version adds one integration to the version before it.
  ghost predicate Grown(contents: seq<Content>) {
    && contents != [] && contents[0] == []
    && forall k :: 0 < k < |contents| ==>
         && LastFrame(contents[k]).Some?
         && contents[k] == Base(contents[k - 1]) + [contents[k][|contents[k]| - 1]]
  }

  // The scene under the builder's hands, against what was published last.
  ghost predicate SceneOk(vb: V.Builder, bp: Pipeline, content: Content, contents: seq<Content>) {
    && Grown(contents)
    && var last := contents[|contents| - 1];
    && Fits(bp, last)
    && match vb
       case Ensured(_) => content == Base(last)
       case Tracking(_) => content == Base(last)
       case Changed(f) => content == Base(last) + [FrameIntegrated(f, LastPose(content))]
       case _ => content == last
  }

  ghost predicate Inv(cfg: V.Config, l: Limits, w: World) {
    && B.Reachable(l.maxStored, l.maxReady, l.capacity, w.b) && V.Reachable(cfg, w.v)
    && InStep(w.b.builder, w.b.pipeline, w.v.builder, w.v.pipeline, w.v.content)
    && SceneOk(w.v.builder, w.b.pipeline, w.v.content, w.v.contents)
    && VersionsShown(w.v.contents, AllVersions(w.b.builder, w.b.recorded))
    && w.b.sceneVersionId == |w.v.contents| - 1
  }

  // -------------------------------------------------------------- step by step

  lemma FramesEffect(b: B.World, step: B.Step)
    requires B.Enabled(b, step) && !step.Build?
    ensures var x := B.Apply(b, step);
      && x.pipeline == b.pipeline && x.sceneVersionId == b.sceneVersionId
      && AllVersions(x.builder, x.recorded) == AllVersions(b.builder, b.recorded)
      && (step.Produce? ==> x.builder == b.builder)
      && (step.Dequeue? ==> b.builder.Waiting?)
  {
  }

  lemma FramesKeepsInv(cfg: V.Config, l: Limits, w: World, step: Step)
    requires Inv(cfg, l, w) && Enabled(cfg, w, step) && step.Frames?
    ensures Inv(cfg, l, Apply(cfg, w, step))
  {
    FramesEffect(w.b, step.bstep);
    B.ReachableNext(l.maxStored, l.maxReady, l.capacity, w.b, step.bstep, B.Apply(w.b, step.bstep));
  }

  lemma OthersLeaveScene(cfg: V.Config, v: V.World, step: V.Step)
    requires V.Enabled(cfg, v, step) && !ByBuilder(step)
    ensures var x := V.Apply(cfg, v, step);
      x.builder == v.builder && x.pipeline == v.pipeline && x.content == v.content && x.contents == v.contents
  {
  }

  lemma ViewingKeepsInv(cfg: V.Config, l: Limits, w: World, step: Step)
    requires Inv(cfg, l, w) && Enabled(cfg, w, step) && step.Viewing?
    ensures Inv(cfg, l, Apply(cfg, w, step))
  {
    OthersLeaveScene(cfg, w.v, step.vstep);
    var x := V.Taken(cfg, w.v, step.vstep);
  }

  // A build that ends without a version.
  lemma FailedBuild(b: B.World, lost: bool)
    requires b.builder.Building? && (!Convertible(b.builder.frame) || b.pipeline.LosesTrack(b.builder.frame, lost))
    ensures var x := B.Apply(b, B.Build(lost, IDENTITY));
      && x == b.(builder := B.Built(b.builder.frame, false), pipeline := x.pipeline)
      && x.pipeline == if Convertible(b.builder.frame) then b.pipeline.Ensured(b.builder.frame) else b.pipeline
  {
  }

  lemma RefuseKeepsInv(cfg: V.Config, l: Limits, w: World)
    requires Inv(cfg, l, w) && Enabled(cfg, w, Refuse)
    ensures Inv(cfg, l, Apply(cfg, w, Refuse))
  {
    FailedBuild(w.b, false);
    var step := B.Build(false, IDENTITY);
    B.ReachableNext(l.maxStored, l.maxReady, l.capacity, w.b, step, B.Apply(w.b, step));
  }

  // The builder's steps before and after the outcome is known.
  lemma WriteKeepsInv(cfg: V.Config, l: Limits, w: World, step: Step, vstep: V.Step)
    requires Inv(cfg, l, w) && Enabled(cfg, w, step)
    requires
      || (step.RequestWrite? && vstep == V.RequestWrite(w.b.builder.frame))
      || (step.Ensure? && vstep == V.Ensure)
      || (step == Track(false) && vstep == V.Track(false))
      || (step.Integrate? && vstep == V.Integrate(step.cameraToWorld))
      || (step.LeaveWrite? && vstep == V.LeaveWrite)
    ensures Inv(cfg, l, Apply(cfg, w, step))
  {
    var x := V.Taken(cfg, w.v, vstep);
    BuilderStaysInStep(cfg, w.b.builder, w.b.pipeline, w.v, vstep);
    BuilderKeepsScene(cfg, w.b.builder, w.b.pipeline, w.v, vstep);
  }

  lemma BuilderKeepsScene(cfg: V.Config, b: B.Builder, bp: Pipeline, v: V.World, step: V.Step)
    requires SceneOk(v.builder, bp, v.content, v.contents) && InStep(b, bp, v.builder, v.pipeline, v.content)
    requires V.Enabled(cfg, v, step) && ByBuilder(step) && step != V.Track(true) && step != V.PublishScene
    ensures var x := V.Apply(cfg, v, step); SceneOk(x.builder, bp, x.content, x.contents)
  {
  }

  // With the write lease and the pipeline ensured: the oracle is asked about tracking
  // exactly if the frame has the sizes of the frame integrated last.
  lemma TrackedIffSameSizes(bp: Pipeline, content: Content, f: Frame)
    requires Fits(bp, content)
    ensures bp.Ensured(f).trackingInitialised <==> SameSizesAsLast(content, f)
    ensures bp.Ensured(f).rgbSize == f.rgb.size && bp.Ensured(f).depthSize == f.depth.size && bp.Ensured(f).hasPipeline
    ensures SameSizesAsLast(content, f) ==> bp.Ensured(f) == bp && content != []
  {
  }

  lemma BuilderStaysInStep(cfg: V.Config, b: B.Builder, bp: Pipeline, v: V.World, step: V.Step)
    requires InStep(b, bp, v.builder, v.pipeline, v.content) && V.Enabled(cfg, v, step) && ByBuilder(step)
    requires step.RequestWrite? ==> b == B.Building(step.frame) && Convertible(step.frame)
    requires step != V.Track(true) && step != V.PublishScene
    ensures var x := V.Apply(cfg, v, step);
      InStep(b, bp, x.builder, x.pipeline, x.content) && x.contents == v.contents
  {
  }

  lemma LostKeepsInv(cfg: V.Config, l: Limits, w: World)
    requires Inv(cfg, l, w) && Enabled(cfg, w, Track(true))
    ensures Inv(cfg, l, Apply(cfg, w, Track(true)))
  {
    var x := V.Taken(cfg, w.v, V.Track(true));
    TrackedIffSameSizes(w.b.pipeline, w.v.contents[|w.v.contents| - 1], w.b.builder.frame);
    FailedBuild(w.b, true);
    var step := B.Build(true, IDENTITY);
    B.ReachableNext(l.maxStored, l.maxReady, l.capacity, w.b, step, B.Apply(w.b, step));
  }

  lemma SuccessfulBuild(b: B.World, pose: Pose4f)
    requires b.builder.Building? && Convertible(b.builder.frame)
    ensures var x := B.Apply(b, B.Build(false, pose)); var f := b.builder.frame;
      && x.builder.Published? && x.recorded == b.recorded && x.sceneVersionId == b.sceneVersionId + 1
      && x.pipeline == b.pipeline.Ensured(f).Integrated()
      && x.builder.version.lastIntegratedFrameId == f.frameId && x.builder.version.ticks == f.ticks
      && x.builder.version.cameraToWorld == pose
      && x.builder.version.trackingStatus == (if b.pipeline.Ensured(f).trackingInitialised then Tracked else NotRun)
      && x.builder.version.integrationStatus == IntegrationStatus.Integrated
  {
  }

  lemma PublishGrows(bp: Pipeline, content: Content, contents: seq<Content>, f: Frame)
    requires SceneOk(V.Changed(f), bp, content, contents)
    ensures SceneOk(V.LeavingWrite, bp.Ensured(f).Integrated(), content, contents + [content])
    ensures LastFrame(content) == Some(f)
  {
    TrackedIffSameSizes(bp, contents[|contents| - 1], f);
    var more := contents + [content];
    forall k | 0 < k < |more|
      ensures LastFrame(more[k]).Some? && more[k] == Base(more[k - 1]) + [more[k][|more[k]| - 1]]
    {
      if k < |contents| {
        assert more[k] == contents[k] && more[k - 1] == contents[k - 1];
      }
    }
  }

  lemma PublishEffect(cfg: V.Config, v: V.World)
    requires V.Enabled(cfg, v, V.PublishScene)
    ensures var x := V.Apply(cfg, v, V.PublishScene);
      && x.builder == V.LeavingWrite && x.pipeline == v.pipeline && x.content == v.content
      && x.contents == v.contents + [v.content]
  {
  }

  lemma OneMoreShown(contents: seq<Content>, content: Content, versions: seq<SceneVersion>, v: SceneVersion)
    requires VersionsShown(contents, versions) && ShowsVersion(contents[|contents| - 1], content, v)
    ensures VersionsShown(contents + [content], versions + [v])
  {
    var more := contents + [content];
    forall k | 0 <= k < |versions| + 1 ensures ShowsVersion(more[k], more[k + 1], (versions + [v])[k]) {
      if k < |versions| {
        assert more[k] == contents[k] && more[k + 1] == contents[k + 1];
      }
    }
  }

  // The four parts of the invariant that publication has to keep.
  lemma PublishKeepsParts(cfg: V.Config, b: B.World, v: V.World)
    requires b.builder.Building? && V.Enabled(cfg, v, V.PublishScene)
    requires InStep(b.builder, b.pipeline, v.builder, v.pipeline, v.content)
    requires SceneOk(v.builder, b.pipeline, v.content, v.contents)
    requires VersionsShown(v.contents, AllVersions(b.builder, b.recorded)) && b.sceneVersionId == |v.contents| - 1
    ensures var y, x := B.Apply(b, B.Build(false, LastPose(v.content))), V.Apply(cfg, v, V.PublishScene);
      && InStep(y.builder, y.pipeline, x.builder, x.pipeline, x.content)
      && SceneOk(x.builder, y.pipeline, x.content, x.contents)
      && VersionsShown(x.contents, AllVersions(y.builder, y.recorded)) && y.sceneVersionId == |x.contents| - 1
  {
    PublishEffect(cfg, v);
    TrackedIffSameSizes(b.pipeline, v.contents[|v.contents| - 1], b.builder.frame);
    PublishGrows(b.pipeline, v.content, v.contents, b.builder.frame);
    SuccessfulBuild(b, LastPose(v.content));
    var y := B.Apply(b, B.Build(false, LastPose(v.content)));
    OneMoreShown(v.contents, v.content, b.recorded, y.builder.version);
  }

  lemma PublishKeepsInv(cfg: V.Config, l: Limits, w: World)
    requires Inv(cfg, l, w) && Enabled(cfg, w, Publish)
    ensures Inv(cfg, l, Apply(cfg, w, Publish))
  {
    PublishKeepsParts(cfg, w.b, w.v);
    var x := V.Taken(cfg, w.v, V.PublishScene);
    var step := B.Build(false, LastPose(w.v.content));
    B.ReachableNext(l.maxStored, l.maxReady, l.capacity, w.b, step, B.Apply(w.b, step));
  }

  lemma StepKeepsInv(cfg: V.Config, l: Limits, w: World, step: Step)
    requires Inv(cfg, l, w) && Enabled(cfg, w, step)
    ensures Inv(cfg, l, Apply(cfg, w, step))
  {
    match step
    case Frames(_) => FramesKeepsInv(cfg, l, w, step);
    case Refuse => RefuseKeepsInv(cfg, l, w);
    case Viewing(_) => ViewingKeepsInv(cfg, l, w, step);
    case Publish => PublishKeepsInv(cfg, l, w);
    case Track(lost) =>
      if lost {
        LostKeepsInv(cfg, l, w);
      } else {
        WriteKeepsInv(cfg, l, w, step, V.Track(false));
      }
    case RequestWrite => WriteKeepsInv(cfg, l, w, step, V.RequestWrite(w.b.builder.frame));
    case Ensure => WriteKeepsInv(cfg, l, w, step, V.Ensure);
    case Integrate(pose) => WriteKeepsInv(cfg, l, w, step, V.Integrate(pose));
    case LeaveWrite => WriteKeepsInv(cfg, l, w, step, V.LeaveWrite);
  }

  lemma {:induction false} RunInvariant(cfg: V.Config, l: Limits, states: seq<World>, steps: seq<Step>, i: nat)
    requires IsRun(cfg, l, states, steps) && i < |states|
    ensures Inv(cfg, l, states[i])
    decreases i
  {
    if i == 0 {
      B.InitialReachable(l.maxStored, l.maxReady, l.capacity);
      V.InitialReachable(cfg);
    } else {
      RunInvariant(cfg, l, states, steps, i - 1);
      assert Next(cfg, states[i - 1], steps[i - 1], states[i]);
      StepKeepsInv(cfg, l, states[i - 1], steps[i - 1]);
    }
  }

  ghost predicate Reachable(cfg: V.Config, l: Limits, w: World) {
    exists states, steps :: IsRun(cfg, l, states, steps) && w == states[|steps|]
  }

  lemma ReachableInv(cfg: V.Config, l: Limits, w: World)
    requires Reachable(cfg, l, w)
    ensures Inv(cfg, l, w)
  {
    var states, steps :| IsRun(cfg, l, states, steps) && w == states[|steps|];
    RunInvariant(cfg, l, states, steps, |steps|);
  }

  // ------------------------------------------------------------- main theorems

  // The content published as version k was changed last by integrating exactly the
  // frame that version k names, at the pose that it records; and the version says
  // that the frame was tracked exactly if the one before had the same sizes.
  lemma VersionNamesItsFrame(cfg: V.Config, l: Limits, w: World, k: nat)
    requires Reachable(cfg, l, w) && 1 <= k <= |w.b.recorded|
    ensures k < |w.v.contents| && ShowsVersion(w.v.contents[k - 1], w.v.contents[k], w.b.recorded[k - 1])
    ensures w.b.recorded[k - 1].versionId == k
  {
    ReachableInv(cfg, l, w);
    B.ReachableInv(l.maxStored, l.maxReady, l.capacity, w.b);
    assert AllVersions(w.b.builder, w.b.recorded)[k - 1] == w.b.recorded[k - 1];
  }

  lemma {:induction false} GrownAt(contents: seq<Content>, k: nat, j: nat)
    requires Grown(contents) && 1 <= j <= k < |contents|
    ensures |contents[k]| == k + 1 && contents[k][0] == SceneReset
    ensures |contents[j]| == j + 1 && contents[k][j] == contents[j][j]
  {
    if k > 1 {
      GrownAt(contents, k - 1, if j < k then j else k - 1);
    }
  }

  // A scene is what was integrated into it: the content of version k is one reset,
  // followed by the frames that versions 1 to k name, each once and in order.
  lemma ScenesAreTheirFrames(cfg: V.Config, l: Limits, w: World, k: nat, j: nat)
    requires Reachable(cfg, l, w) && 1 <= j <= k <= |w.b.recorded|
    ensures k < |w.v.contents| && |w.v.contents[k]| == k + 1 && w.v.contents[k][0] == SceneReset
    ensures w.v.contents[k][j].FrameIntegrated?
    ensures w.v.contents[k][j].frame.frameId == w.b.recorded[j - 1].lastIntegratedFrameId
    ensures w.v.contents[k][j].cameraToWorld == w.b.recorded[j - 1].cameraToWorld
  {
    VersionNamesItsFrame(cfg, l, w, k);
    VersionNamesItsFrame(cfg, l, w, j);
    ReachableInv(cfg, l, w);
    GrownAt(w.v.contents, k, j);
  }

  // The content that was published last.
  function Newest(contents: seq<Content>): Content {
    if contents == [] then [] else contents[|contents| - 1]
  }

  // What is checked of a frame before the write lease is asked for.
  predicate LayoutFits(f: Frame) {
    && f.rgb.size.width == f.depth.size.width && f.rgb.size.height == f.depth.size.height
    && f.rgb.strideBytes as int >= (f.rgb.size.width as int) * 4
    && f.depth.strideBytes as int >= (f.depth.size.width as int) * 2
  }

  // The builder lets go of a frame in one of three ways.
  lemma BuildingEnds(cfg: V.Config, w: World, step: Step)
    requires Enabled(cfg, w, step) && w.b.builder.Building? && Apply(cfg, w, step).b.builder != w.b.builder
    ensures step == Refuse || step == Track(true) || step == Publish
  {
    if step.Frames? {
      FramesEffect(w.b, step.bstep);
      FramesNeedNoBuilding(w.b, step.bstep);
    }
  }

  lemma FramesNeedNoBuilding(b: B.World, step: B.Step)
    requires b.builder.Building? && B.Enabled(b, step) && !step.Build?
    ensures step.Produce?
  {
  }

  lemma WriteStepsEnabled(cfg: V.Config, v: V.World, pose: Pose4f)
    requires v.builder.Ensured?
    ensures v.pipeline.trackingInitialised <==> V.Enabled(cfg, v, V.Track(true))
    ensures v.pipeline.trackingInitialised <==> V.Enabled(cfg, v, V.Track(false))
    ensures !v.pipeline.trackingInitialised <==> V.Enabled(cfg, v, V.Integrate(pose))
  {
  }

  lemma PublishShowsFrame(cfg: V.Config, w: World)
    requires Enabled(cfg, w, Publish)
    requires SceneOk(w.v.builder, w.b.pipeline, w.v.content, w.v.contents)
    requires InStep(w.b.builder, w.b.pipeline, w.v.builder, w.v.pipeline, w.v.content)
    ensures var x := Apply(cfg, w, Publish); var f := w.b.builder.frame;
      && Convertible(f) && LastFrame(Newest(x.v.contents)) == Some(f)
      && x.b.builder.Published? && x.b.builder.frame == f
  {
    SuccessfulBuild(w.b, LastPose(w.v.content));
    PublishEffect(cfg, w.v);
    PublishGrows(w.b.pipeline, w.v.content, w.v.contents, w.b.builder.frame);
  }

  lemma LostGivesUp(cfg: V.Config, w: World)
    requires Enabled(cfg, w, Track(true))
    requires SceneOk(w.v.builder, w.b.pipeline, w.v.content, w.v.contents)
    requires InStep(w.b.builder, w.b.pipeline, w.v.builder, w.v.pipeline, w.v.content)
    ensures var x := Apply(cfg, w, Track(true)); var f, last := w.b.builder.frame, Newest(w.v.contents);
      && Convertible(f) && SameSizesAsLast(last, f) && x.v.content == last && x.b.builder == B.Built(f, false)
  {
    TrackedIffSameSizes(w.b.pipeline, w.v.contents[|w.v.contents| - 1], w.b.builder.frame);
    FailedBuild(w.b, true);
  }

  // A frame is given up exactly in two cases: its layout does not fit, or the tracker
  // says lost and the frame integrated last had the same colour and depth sizes. In
  // every other case it is integrated and published.
  lemma GivenUpExactly(cfg: V.Config, l: Limits, w: World, step: Step, x: World)
    requires Reachable(cfg, l, w) && Next(cfg, w, step, x)
    requires w.b.builder.Building? && x.b.builder != w.b.builder
    ensures var f, last := w.b.builder.frame, Newest(w.v.contents);
      && (x.b.builder == B.Built(f, false) || (x.b.builder.Published? && x.b.builder.frame == f))
      && (x.b.builder.Built? <==> step == Refuse || step == Track(true))
      && (step == Refuse ==> !LayoutFits(f))
      && (step == Track(true) ==> LayoutFits(f) && SameSizesAsLast(last, f) && x.v.content == last)
      && (x.b.builder.Published? ==> LayoutFits(f) && LastFrame(Newest(x.v.contents)) == Some(f))
  {
    ReachableInv(cfg, l, w);
    B.BuilderSeesWellFormedFrames(l.maxStored, l.maxReady, l.capacity, w.b);
    RefusalsInWords(w.b.builder.frame);
    BuildingEnds(cfg, w, step);
    if step == Publish {
      PublishShowsFrame(cfg, w);
    } else if step == Refuse {
      FailedBuild(w.b, false);
    } else {
      LostGivesUp(cfg, w);
    }
  }

  // The other half: what is possible while the builder has the frame. A frame whose
  // layout does not fit can only be refused; once the lease is held, the tracker is
  // asked, and may end the attempt, exactly for a frame of the last one's sizes.
  lemma AskedExactly(cfg: V.Config, l: Limits, w: World, pose: Pose4f)
    requires Reachable(cfg, l, w) && w.b.builder.Building?
    ensures var f, last := w.b.builder.frame, Newest(w.v.contents);
      && (Enabled(cfg, w, Refuse) ==> !LayoutFits(f))
      && (Enabled(cfg, w, RequestWrite) ==> LayoutFits(f))
      && (w.v.builder.BuilderIdle? && !LayoutFits(f) ==> Enabled(cfg, w, Refuse))
      && (w.v.builder.Ensured? ==>
            && (Enabled(cfg, w, Track(true)) <==> SameSizesAsLast(last, f))
            && (Enabled(cfg, w, Track(false)) <==> SameSizesAsLast(last, f))
            && (Enabled(cfg, w, Integrate(pose)) <==> !SameSizesAsLast(last, f)))
  {
    ReachableInv(cfg, l, w);
    B.BuilderSeesWellFormedFrames(l.maxStored, l.maxReady, l.capacity, w.b);
    RefusalsInWords(w.b.builder.frame);
    TrackedIffSameSizes(w.b.pipeline, w.v.contents[|w.v.contents| - 1], w.b.builder.frame);
    if w.v.builder.Ensured? {
      WriteStepsEnabled(cfg, w.v, pose);
    }
  }

  lemma IntegrationFits(cfg: V.Config, w: World, pose: Pose4f)
    requires Enabled(cfg, w, Integrate(pose)) && InStep(w.b.builder, w.b.pipeline, w.v.builder, w.v.pipeline, w.v.content)
    requires SceneOk(w.v.builder, w.b.pipeline, w.v.content, w.v.contents)
    ensures var x := Apply(cfg, w, Integrate(pose)); var f := w.v.builder.frame;
      && x.b.builder == B.Building(f) && LastFrame(x.v.content) == Some(f)
      && x.v.pipeline == Pipeline(true, f.rgb.size, f.depth.size, true)
  {
    TrackedIffSameSizes(w.b.pipeline, w.v.contents[|w.v.contents| - 1], w.v.builder.frame);
  }

  // After every integration the pipeline is set up for that frame's sizes.
  lemma IntegrationFixesSizes(cfg: V.Config, l: Limits, w: World, pose: Pose4f, x: World)
    requires Reachable(cfg, l, w) && Next(cfg, w, Integrate(pose), x)
    ensures LastFrame(x.v.content).Some? && x.b.builder == B.Building(LastFrame(x.v.content).value)
    ensures x.v.pipeline.hasPipeline && x.v.pipeline.trackingInitialised
    ensures x.v.pipeline.rgbSize == LastFrame(x.v.content).value.rgb.size
    ensures x.v.pipeline.depthSize == LastFrame(x.v.content).value.depth.size
  {
    ReachableInv(cfg, l, w);
    IntegrationFits(cfg, w, pose);
  }

  // From the viewer's side: whatever version an output names, if the store still
  // has it, the output is a rendering of a scene whose last frame is that version's.
  lemma OutputsShowTheRecordedFrame(cfg: V.Config, l: Limits, w: World, i: nat)
    requires Reachable(cfg, l, w) && i < |w.v.shown|
    requires w.b.versions.Get(w.v.shown[i].output.sceneVersionId).Some?
    ensures var o := w.v.shown[i].output; var v := w.b.versions.Get(o.sceneVersionId).value;
      && o.sceneVersionId < |w.v.contents| && o.poseGeneration in w.v.requests
      && o.rgb == cfg.render(w.v.contents[o.sceneVersionId], w.v.requests[o.poseGeneration])
      && LastFrame(w.v.contents[o.sceneVersionId]).Some?
      && LastFrame(w.v.contents[o.sceneVersionId]).value.frameId == v.lastIntegratedFrameId
      && LastPose(w.v.contents[o.sceneVersionId]) == v.cameraToWorld
  {
    ReachableInv(cfg, l, w);
    V.OutputsShowPublishedScenes(cfg, w.v, i);
    var id := w.v.shown[i].output.sceneVersionId;
    B.LookupsFindTheNewest(l.maxStored, l.maxReady, l.capacity, w.b, id);
    VersionNamesItsFrame(cfg, l, w, id);
  }

  // The scene version and the version store never drift apart: a version is either
  // recorded or in the builder's hands.
  lemma VersionsAreRecordedInTurn(cfg: V.Config, l: Limits, w: World)
    requires Reachable(cfg, l, w)
    ensures w.v.lock.lock.sceneVersionId == |w.b.recorded| + if w.b.builder.Published? then 1 else 0
    ensures w.b.builder.Published? ==>
      && |w.v.contents| >= 2
      && ShowsVersion(w.v.contents[|w.v.contents| - 2], w.v.contents[|w.v.contents| - 1], w.b.builder.version)
  {
    ReachableInv(cfg, l, w);
    V.ReachableInv(cfg, w.v);
    if w.b.builder.Published? {
      assert AllVersions(w.b.builder, w.b.recorded)[|w.b.recorded|] == w.b.builder.version;
    }
  }
}
