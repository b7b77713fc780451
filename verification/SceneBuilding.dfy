// Building one frame into the scene: the view, the tracking pipeline, the write
// lease under which the scene changes, and the record of the published version.
//
// The reconstruction library is an oracle: it says whether tracking was lost and
// which pose it found. The scene's content is the log of the changes made to it.
module SceneBuilding {
  import opened Common
  import opened FrameModel
  import opened SceneLock
  import opened SceneVersions
  import opened ViewConversion

  datatype Mutation =
    | SceneReset
    | FrameIntegrated(frame: Frame, cameraToWorld: Pose4f)

  type Content = seq<Mutation>

  // The part of the pipeline that decides about resets and tracking.
  datatype Pipeline = Pipeline(hasPipeline: bool, rgbSize: ImageSize, depthSize: ImageSize, trackingInitialised: bool) {
    predicate NeedsReset(frame: Frame) {
      !hasPipeline || frame.rgb.size != rgbSize || frame.depth.size != depthSize
    }

    function Ensured(frame: Frame): Pipeline {
      if NeedsReset(frame) then Pipeline(true, frame.rgb.size, frame.depth.size, false) else this
    }

    function EnsuredContent(content: Content): Content {
      if hasPipeline then content else content + [SceneReset]
    }

    predicate LosesTrack(frame: Frame, lost: bool) {
      Ensured(frame).trackingInitialised && lost
    }

    function Integrated(): Pipeline {
      this.(trackingInitialised := true)
    }
  }

  const NO_PIPELINE := Pipeline(false, ImageSize(0, 0), ImageSize(0, 0), false)

  // The exit for lost tracking never follows a reset of pipeline or scene.
  lemma LostTrackingChangesNothing(p: Pipeline, content: Content, frame: Frame, lost: bool)
    requires p.LosesTrack(frame, lost)
    ensures p.Ensured(frame) == p && p.EnsuredContent(content) == content
  {
  }

  function VersionOf(frame: Frame, id: SceneVersionId, tracking: TrackingStatus, pose: Pose4f): SceneVersion {
    SceneVersion(id, frame.ticks, frame.frameId, pose, tracking, IntegrationStatus.Integrated)
  }

  // One attempt under the write lease: the pipeline after it, and the version that
  // is published unless tracking was lost.
  function Attempt(p: Pipeline, frame: Frame, lost: bool, pose: Pose4f, nextId: SceneVersionId): (Pipeline, Option<SceneVersion>) {
    var q := p.Ensured(frame);
    if p.LosesTrack(frame, lost) then (q, None)
    else (q.Integrated(), Some(VersionOf(frame, nextId, if q.trackingInitialised then Tracked else NotRun, pose)))
  }

  class InfiniTamPipeline {
    var view: View?
    var hasViewLayout: bool
    var viewRgbSize: ImageSize
    var viewDepthSize: ImageSize
    var viewIntrinsics: CameraIntrinsics
    var hasPipeline: bool
    var pipelineRgbSize: ImageSize
    var pipelineDepthSize: ImageSize
    var trackingInitialised: bool

    constructor ()
      ensures Valid() && view == null && Tracking() == NO_PIPELINE
    {
      view, hasViewLayout := null, false;
      viewRgbSize, viewDepthSize := ImageSize(0, 0), ImageSize(0, 0);
      viewIntrinsics := CameraIntrinsics(NotFinite, NotFinite, NotFinite, NotFinite);
      hasPipeline, trackingInitialised := false, false;
      pipelineRgbSize, pipelineDepthSize := ImageSize(0, 0), ImageSize(0, 0);
    }

    // The view has exactly the size that the layout fields remember.
    ghost predicate Valid()
      reads this
    {
      hasViewLayout ==>
        && view != null && viewRgbSize.Valid() && viewDepthSize.Valid()
        && view.rgb.Length == 4 * Pixels(viewRgbSize) && view.depth.Length == Pixels(viewDepthSize)
    }

    function Tracking(): Pipeline
      reads this
    {
      Pipeline(hasPipeline, pipelineRgbSize, pipelineDepthSize, trackingInitialised)
    }

    predicate NeedsViewReset(frame: Frame)
      reads this
    {
      || !hasViewLayout || frame.rgb.size != viewRgbSize || frame.depth.size != viewDepthSize
      || frame.intrinsics != viewIntrinsics
    }

    method ResetView(frame: Frame)
      requires frame.rgb.size.Valid() && frame.depth.size.Valid()
      modifies this
      ensures Valid() && hasViewLayout && fresh(view) && fresh(view.rgb) && fresh(view.depth)
      ensures viewRgbSize == frame.rgb.size && viewDepthSize == frame.depth.size && viewIntrinsics == frame.intrinsics
      ensures Tracking() == old(Tracking())
    {
      view := new View(frame.rgb.size, frame.depth.size);
      viewRgbSize, viewDepthSize, viewIntrinsics := frame.rgb.size, frame.depth.size, frame.intrinsics;
      hasViewLayout := true;
    }

    // The view after a success holds the converted frame and nothing else.
    method PrepareView(neon: bool, frame: Frame) returns (failure: Option<ViewConversionFailure>)
      requires Valid() && frame.rgb.SaneBytes() && frame.depth.SaneBytes()
      modifies this, if view == null then {} else {view.rgb, view.depth}
      ensures Valid() && hasViewLayout
      ensures viewRgbSize == frame.rgb.size && viewDepthSize == frame.depth.size && viewIntrinsics == frame.intrinsics
      ensures failure == ConversionFailure(frame)
      ensures failure.None? ==> view.rgb[..] == RgbOf(frame) && view.depth[..] == DepthOf(frame)
      ensures !old(NeedsViewReset(frame)) ==> view == old(view)
      ensures failure.Some? && !old(NeedsViewReset(frame)) ==>
        view.rgb[..] == old(view.rgb[..]) && view.depth[..] == old(view.depth[..])
      ensures Tracking() == old(Tracking())
    {
      if NeedsViewReset(frame) {
        ResetView(frame);
      }
      failure := CopyFrameToView(neon, view, frame);
    }

    // Says whether the scene is to be reset as well.
    method EnsurePipelineForScene(frame: Frame) returns (shouldResetScene: bool)
      modifies this`hasPipeline, this`pipelineRgbSize, this`pipelineDepthSize, this`trackingInitialised
      ensures shouldResetScene <==> !old(hasPipeline)
      ensures Tracking() == old(Tracking()).Ensured(frame)
    {
      if hasPipeline && frame.rgb.size == pipelineRgbSize && frame.depth.size == pipelineDepthSize {
        return false;
      }
      shouldResetScene := !hasPipeline;
      pipelineRgbSize, pipelineDepthSize := frame.rgb.size, frame.depth.size;
      trackingInitialised, hasPipeline := false, true;
    }
  }

  class SceneBuilder {
    const scene: SharedScene
    const pipeline: InfiniTamPipeline
    const versionStore: SceneVersionStore
    var content: Content  // of the shared scene

    constructor (scene: SharedScene, versionStore: SceneVersionStore)
      ensures this.scene == scene && this.versionStore == versionStore && fresh(pipeline)
      ensures pipeline.Valid() && pipeline.Tracking() == NO_PIPELINE && content == []
    {
      this.scene, this.versionStore := scene, versionStore;
      pipeline := new InfiniTamPipeline();
      content := [];
    }

    // What buildFrame does once its write lease is granted. A frame whose tracking
    // is lost leaves no trace; any other is integrated, published and recorded.
    method BuildUnderLease(lease: SceneAccessLease, frame: Frame, lost: bool, pose: Pose4f)
      returns (version: Option<SceneVersion>)
      requires lease.mode == Write && lease.state == scene.state
      modifies this, pipeline`hasPipeline, pipeline`pipelineRgbSize, pipeline`pipelineDepthSize, pipeline`trackingInitialised
      modifies scene.state, lease, versionStore.history
      ensures (pipeline.Tracking(), version)
              == Attempt(old(pipeline.Tracking()), frame, lost, pose, old(scene.state.sceneVersionId) + 1)
      ensures version.None? ==>
        && content == old(content) && pipeline.Tracking() == old(pipeline.Tracking())
        && scene.state.Fields() == old(scene.state.Fields()).Released(Write)
        && versionStore.history.View() == old(versionStore.history.View())
      ensures version.Some? ==>
        && content == old(pipeline.Tracking()).EnsuredContent(old(content)) + [FrameIntegrated(frame, pose)]
        && scene.state.Fields() == old(scene.state.Fields()).Published().Released(Write)
        && versionStore.history.View()
           == old(versionStore.history.View()).Added(version.value).Trimmed(versionStore.capacity)
    {
      var trackingStatus := NotRun;
      var shouldResetScene := pipeline.EnsurePipelineForScene(frame);
      if shouldResetScene {
        content := content + [SceneReset];
      }
      if pipeline.trackingInitialised {
        trackingStatus := if lost then Lost else Tracked;
        if trackingStatus == Lost {
          LostTrackingChangesNothing(old(pipeline.Tracking()), old(content), frame, lost);
          lease.state.Release(lease.mode);
          return None;
        }
      }
      content := content + [FrameIntegrated(frame, pose)];
      pipeline.trackingInitialised := true;
      var published := scene.Publish(lease);
      lease.state.Release(lease.mode);
      var v := VersionOf(frame, published.value, trackingStatus, pose);
      versionStore.Add(v);
      return Some(v);
    }
  }
}
