// Rendering one requested pose, and one iteration of the viewer's loop.
//
// Rendering is a parameter: any function of the scene's content and the request.
// The content and version are those that the read lease shows.
module SceneViewing {
  import opened Common
  import opened FrameModel
  import opened SceneBuilding
  import opened SceneVersions
  import opened ViewerStores

  type Renderer = (Content, Request) -> Image

  datatype LoopPolicy = Event | HotLoop

  predicate Renderable(r: Request) {
    r.imageSize.Valid() && r.intrinsics.Valid()
  }

  function Rendered(render: Renderer, content: Content, pose: ViewerPose, version: SceneVersionId): RenderOutput {
    RenderOutput(render(content, pose.request), pose.request.imageSize, pose.generation, version, false)
  }

  function LatestOf(log: seq<RenderOutput>): Option<RenderOutput> {
    if log == [] then None else Some(log[|log| - 1])
  }

  // The same pose generation on the same scene version as the output before.
  predicate Repeats(latest: Option<RenderOutput>, o: RenderOutput) {
    latest.Some? && latest.value.poseGeneration == o.poseGeneration && latest.value.sceneVersionId == o.sceneVersionId
  }

  // The pose that an iteration finds: Event takes only a newer one.
  function Found(loop: LoopPolicy, poses: Poses, lastGeneration: Generation): Option<ViewerPose> {
    if loop == HotLoop || poses.NewerThan(lastGeneration) then poses.latest else None
  }

  // Which requests are rendered.
  lemma RenderableInWords(r: Request)
    ensures Renderable(r) <==>
      && 1 <= r.imageSize.width <= 16384 && 1 <= r.imageSize.height <= 16384
      && r.intrinsics.fx.Finite? && r.intrinsics.fy.Finite? && r.intrinsics.cx.Finite? && r.intrinsics.cy.Finite?
      && r.intrinsics.fx.value > 0.0 && r.intrinsics.fy.value > 0.0
      && r.intrinsics.cx.value >= 0.0 && r.intrinsics.cy.value >= 0.0
  {
  }

  // HotLoop takes whatever is there, Event only a pose newer than the last rendered.
  lemma FoundInWords(loop: LoopPolicy, poses: Poses, lastGeneration: Generation)
    ensures loop == HotLoop ==> Found(loop, poses, lastGeneration) == poses.latest
    ensures loop == Event ==>
      Found(loop, poses, lastGeneration)
      == if poses.latest.Some? && poses.latest.value.generation > lastGeneration then poses.latest else None
  {
  }

  class SceneViewer {
    const renderOutputStore: RenderOutputStore

    constructor (store: RenderOutputStore)
      ensures renderOutputStore == store
    {
      renderOutputStore := store;
    }

    method RenderPose(render: Renderer, content: Content, version: SceneVersionId, pose: ViewerPose)
      returns (r: Option<RenderOutput>)
      requires renderOutputStore.Valid()
      modifies renderOutputStore
      ensures renderOutputStore.Valid()
      ensures r.Some? <==> Renderable(pose.request)
      ensures r.None? ==> renderOutputStore.log == old(renderOutputStore.log)
      ensures r.Some? ==>
        var o := Rendered(render, content, pose, version);
        && r.value == o.(cached := Repeats(LatestOf(old(renderOutputStore.log)), o))
        && renderOutputStore.log == old(renderOutputStore.log) + [r.value]
    {
      if !Renderable(pose.request) {
        return None;
      }
      var output := Rendered(render, content, pose, version);
      var latestOutput := renderOutputStore.Latest();
      output := output.(cached :=
        latestOutput.Some? && latestOutput.value.poseGeneration == output.poseGeneration
        && latestOutput.value.sceneVersionId == output.sceneVersionId);
      renderOutputStore.Publish(output);
      return Some(output);
    }
  }

  datatype Status = Status(idle: nat, attempts: nat, published: nat, cached: nat)

  class SceneViewerRunner {
    const loop: LoopPolicy
    const viewer: SceneViewer
    const viewerPoseStore: ViewerPoseStore
    var lastPoseGeneration: Generation
    var idleIterationCount: nat
    var renderAttemptCount: nat
    var publishedOutputCount: nat
    var cachedOutputCount: nat

    constructor (loop: LoopPolicy, viewer: SceneViewer, store: ViewerPoseStore)
      ensures this.loop == loop && this.viewer == viewer && viewerPoseStore == store
      ensures lastPoseGeneration == 0 && View() == Status(0, 0, 0, 0)
    {
      this.loop, this.viewer, viewerPoseStore := loop, viewer, store;
      lastPoseGeneration := 0;
      idleIterationCount, renderAttemptCount, publishedOutputCount, cachedOutputCount := 0, 0, 0, 0;
    }

    function View(): Status
      reads this
    {
      Status(idleIterationCount, renderAttemptCount, publishedOutputCount, cachedOutputCount)
    }

    // One iteration; the wait of the Event loop has ended, with a newer pose or not.
    method Iterate(render: Renderer, content: Content, version: SceneVersionId) returns (r: Option<RenderOutput>)
      requires viewer.renderOutputStore.Valid()
      modifies this, viewer.renderOutputStore
      ensures viewer.renderOutputStore.Valid()
      ensures var found := Found(loop, viewerPoseStore.View(), old(lastPoseGeneration));
        && (r.Some? <==> found.Some? && Renderable(found.value.request))
        && (r.Some? ==> r.value.poseGeneration == found.value.generation)
      ensures viewer.renderOutputStore.log == old(viewer.renderOutputStore.log) + if r.Some? then [r.value] else []
      ensures lastPoseGeneration == if r.Some? then r.value.poseGeneration else old(lastPoseGeneration)
      ensures var s := old(View());
        var found := Found(loop, viewerPoseStore.View(), old(lastPoseGeneration));
        View() == Status(
          if r.Some? then s.idle else s.idle + 1,
          if found.Some? then s.attempts + 1 else s.attempts,
          if r.Some? then s.published + 1 else s.published,
          if r.Some? && r.value.cached then s.cached + 1 else s.cached)
    {
      assert old(viewer.renderOutputStore.log) + [] == old(viewer.renderOutputStore.log);
      var viewerPose := viewerPoseStore.latestPose;
      if loop == Event && !viewerPoseStore.View().NewerThan(lastPoseGeneration) {
        viewerPose := None;
      }
      if viewerPose.None? {
        idleIterationCount := idleIterationCount + 1;
        return None;
      }
      renderAttemptCount := renderAttemptCount + 1;
      r := viewer.RenderPose(render, content, version, viewerPose.value);
      if r.None? {
        idleIterationCount := idleIterationCount + 1;
        return;
      }
      lastPoseGeneration := r.value.poseGeneration;
      publishedOutputCount := publishedOutputCount + 1;
      if r.value.cached {
        cachedOutputCount := cachedOutputCount + 1;
      }
    }
  }
}
