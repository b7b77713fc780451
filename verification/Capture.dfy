// Turning a camera capture into a frame and submitting it: capture-side checks,
// depth alignment, assembly, and the ingestor that numbers and stamps frames.
//
// Camera calls are oracles: a shot says what each of them returns.
module Capture {
  import opened Common
  import opened FrameModel
  import opened FrameStorage
  import ViewConversion

  datatype ImageFormat = ColorBgra32 | Depth16 | OtherFormat

  // What the image getters report about one image handle.
  datatype K4aImage = K4aImage(
    format: ImageFormat,
    width: int32,
    height: int32,
    strideBytes: int32,
    byteCount: nat,
    data: Option<seq<byte>>  // None is a null buffer
  ) {
    // The reported byte count is the size of the buffer.
    predicate Backed() {
      data.Some? ==> |data.value| == byteCount
    }

    function Size(): ImageSize {
      ImageSize(width, height)
    }

    predicate SaneShape(bytesPerPixel: nat) {
      && Size().Valid() && strideBytes > 0 && byteCount != 0 && data.Some?
      && strideBytes as int >= (width as int) * bytesPerPixel
      && (strideBytes as int) * (height as int) <= byteCount
    }
  }

  datatype BuildCode =
    | InvalidFrameId
    | InvalidTimestamp
    | MissingColorImage
    | MissingDepthImage
    | UnsupportedColorFormat
    | UnsupportedDepthFormat
    | InvalidColorImage
    | InvalidDepthImage
    | TransformationCreateFailed
    | TransformedDepthImageCreateFailed
    | DepthAlignmentFailed
    | InvalidIntrinsics

  // A capture handle with the images that can be got from it.
  datatype Camera = Camera(color: Option<K4aImage>, depth: Option<K4aImage>)

  // What the transformation calls return; `aligned` is the created image once filled.
  datatype Alignment = Alignment(transformation: bool, createOk: bool, created: bool, alignOk: bool, aligned: K4aImage) {
    // imageCreate and the transformation respect the shape that was asked for.
    predicate Faithful(color: K4aImage) {
      && aligned.Backed() && aligned.format == Depth16
      && aligned.width == color.width && aligned.height == color.height
    }
  }

  // ------------------------------------------------------------------- checks

  function ValidateRequest(capture: Option<Camera>, frameId: FrameId, ticks: int): Option<BuildCode> {
    if frameId == 0 then Some(BuildCode.InvalidFrameId)
    else if ticks <= 0 then Some(BuildCode.InvalidTimestamp)
    else if capture.None? then Some(MissingColorImage)
    else None
  }

  function ValidateColorImage(image: Option<K4aImage>): Option<BuildCode> {
    if image.None? then Some(MissingColorImage)
    else if image.value.format != ColorBgra32 then Some(UnsupportedColorFormat)
    else if !image.value.SaneShape(4) then Some(InvalidColorImage)
    else None
  }

  function ValidateDepthImage(image: Option<K4aImage>): Option<BuildCode> {
    if image.None? then Some(MissingDepthImage)
    else if image.value.format != Depth16 then Some(UnsupportedDepthFormat)
    else if !image.value.SaneShape(2) then Some(InvalidDepthImage)
    else None
  }

  function AlignmentFailure(a: Alignment): Option<BuildCode> {
    if !a.transformation then Some(TransformationCreateFailed)
    else if !a.createOk || !a.created then Some(TransformedDepthImageCreateFailed)
    else if !a.alignOk then Some(DepthAlignmentFailed)
    else None
  }

  // What imageCreate is asked for: a depth image of the colour image's size.
  datatype ImageRequest = ImageRequest(format: ImageFormat, width: int32, height: int32, strideBytes: int32)

  method AlignDepthToColor(color: K4aImage, a: Alignment) returns (r: Result<K4aImage, BuildCode>, request: Option<ImageRequest>)
    requires color.Size().Valid()
    ensures r == if AlignmentFailure(a).Some? then Err(AlignmentFailure(a).value) else Ok(a.aligned)
    ensures request.Some? <==> a.transformation
    ensures request.Some? ==>
      && request.value.format == Depth16 && ImageSize(request.value.width, request.value.height) == color.Size()
      && request.value.strideBytes as int == 2 * (color.width as int)
  {
    if !a.transformation {
      return Err(TransformationCreateFailed), None;
    }
    var width, height := color.width, color.height;
    var strideBytes := width * 2;
    request := Some(ImageRequest(Depth16, width, height, strideBytes));
    if !a.createOk || !a.created {
      return Err(TransformedDepthImageCreateFailed), request;
    }
    if !a.alignOk {
      return Err(DepthAlignmentFailed), request;
    }
    return Ok(a.aligned), request;
  }

  // ----------------------------------------------------------------- assembly

  function MakeFrameImage(image: K4aImage): FrameImage
    requires image.Backed() && image.data.Some?
  {
    FrameImage(image.Size(), image.strideBytes, FrameBuffer(Some(image.data.value[..image.byteCount]), true))
  }

  // The chain of checks before a frame is assembled; the first failure decides.
  function BuildFailure(capture: Option<Camera>, intrinsics: CameraIntrinsics, a: Alignment, frameId: FrameId, ticks: int): Option<BuildCode> {
    if ValidateRequest(capture, frameId, ticks).Some? then ValidateRequest(capture, frameId, ticks)
    else if ValidateColorImage(capture.value.color).Some? then ValidateColorImage(capture.value.color)
    else if ValidateDepthImage(capture.value.depth).Some? then ValidateDepthImage(capture.value.depth)
    else if AlignmentFailure(a).Some? then AlignmentFailure(a)
    else if ValidateDepthImage(Some(a.aligned)).Some? then ValidateDepthImage(Some(a.aligned))
    else if !intrinsics.Valid() then Some(BuildCode.InvalidIntrinsics)
    else None
  }

  predicate AllBacked(capture: Option<Camera>, a: Alignment) {
    && (capture.Some? && capture.value.color.Some? ==> capture.value.color.value.Backed())
    && a.aligned.Backed()
  }

  function Build(capture: Option<Camera>, intrinsics: CameraIntrinsics, a: Alignment, frameId: FrameId, ticks: int): Result<Frame, BuildCode>
    requires AllBacked(capture, a)
  {
    var failure := BuildFailure(capture, intrinsics, a, frameId, ticks);
    if failure.Some? then Err(failure.value)
    else Ok(Frame(frameId, ticks, MakeFrameImage(capture.value.color.value), MakeFrameImage(a.aligned), intrinsics))
  }

  // Sane capture images make sane frame images: the capture-side check is stricter.
  lemma SaneShapeMakesSaneBytes(image: K4aImage, bytesPerPixel: nat)
    requires image.Backed() && image.SaneShape(bytesPerPixel) && bytesPerPixel >= 1
    ensures MakeFrameImage(image).SaneBytes()
    ensures MakeFrameImage(image).buffer.data == image.data
  {
    assert image.data.value[..image.byteCount] == image.data.value;
    assert (image.width as int) * bytesPerPixel >= image.width as int;
  }

  // A frame that was built passes every check of the frame store that looks at the
  // frame alone, and its row layouts suit the view conversion: only a different
  // size of the aligned depth image could make that fail.
  lemma BuiltFrames(capture: Option<Camera>, intrinsics: CameraIntrinsics, a: Alignment, frameId: FrameId, ticks: int)
    requires AllBacked(capture, a) && Build(capture, intrinsics, a, frameId, ticks).Ok?
    ensures var frame := Build(capture, intrinsics, a, frameId, ticks).value;
      && WellFormed(frame) && frame.frameId == frameId && frame.ticks == ticks
      && (ViewConversion.Convertible(frame) <==> a.aligned.Size() == capture.value.color.value.Size())
      && (a.Faithful(capture.value.color.value) ==> ViewConversion.Convertible(frame))
  {
    var color := capture.value.color.value;
    SaneShapeMakesSaneBytes(color, 4);
    SaneShapeMakesSaneBytes(a.aligned, 2);
  }

  // The frame, field by field: the colour image of the capture, the aligned depth
  // image rather than the captured one, and the calibration it was given.
  lemma BuiltInWords(capture: Option<Camera>, intrinsics: CameraIntrinsics, a: Alignment, frameId: FrameId, ticks: int)
    requires AllBacked(capture, a) && Build(capture, intrinsics, a, frameId, ticks).Ok?
    ensures var frame := Build(capture, intrinsics, a, frameId, ticks).value; var color := capture.value.color.value;
      && frame.frameId == frameId && frame.ticks == ticks && frame.intrinsics == intrinsics
      && frame.rgb == FrameImage(ImageSize(color.width, color.height), color.strideBytes, FrameBuffer(color.data, true))
      && frame.depth ==
         FrameImage(ImageSize(a.aligned.width, a.aligned.height), a.aligned.strideBytes, FrameBuffer(a.aligned.data, true))
  {
    SaneShapeMakesSaneBytes(capture.value.color.value, 4);
    SaneShapeMakesSaneBytes(a.aligned, 2);
  }

  // Rows of whole pixels, and every row of the height inside the bytes.
  predicate HoldsItsPixels(image: K4aImage, bytesPerPixel: nat) {
    && 1 <= image.width <= 16384 && 1 <= image.height <= 16384
    && (image.width as int) * bytesPerPixel <= image.strideBytes as int
    && image.data.Some?
    && (image.strideBytes as int) * (image.height as int) <= image.byteCount
  }

  // Every complaint the chain may raise, in its order, and whether there is cause.
  type Complaints = seq<(BuildCode, bool)>

  function ColorComplaints(image: Option<K4aImage>): Complaints {
    [
      (MissingColorImage, image == None),
      (UnsupportedColorFormat, image.Some? && image.value.format != ColorBgra32),
      (InvalidColorImage, image.Some? && !HoldsItsPixels(image.value, 4))
    ]
  }

  function DepthComplaints(image: Option<K4aImage>): Complaints {
    [
      (MissingDepthImage, image == None),
      (UnsupportedDepthFormat, image.Some? && image.value.format != Depth16),
      (InvalidDepthImage, image.Some? && !HoldsItsPixels(image.value, 2))
    ]
  }

  function AlignmentComplaints(a: Alignment): Complaints {
    [
      (TransformationCreateFailed, !a.transformation),
      (TransformedDepthImageCreateFailed, !a.createOk || !a.created),
      (DepthAlignmentFailed, !a.alignOk)
    ]
  }

  function AllComplaints(capture: Option<Camera>, intrinsics: CameraIntrinsics, a: Alignment, frameId: FrameId, ticks: int): Complaints {
    var color := if capture.Some? then capture.value.color else None;
    var depth := if capture.Some? then capture.value.depth else None;
    [(BuildCode.InvalidFrameId, frameId == 0), (BuildCode.InvalidTimestamp, ticks <= 0)]
    + ColorComplaints(color) + DepthComplaints(depth)
    + AlignmentComplaints(a) + DepthComplaints(Some(a.aligned))
    + [(BuildCode.InvalidIntrinsics, !intrinsics.Valid())]
  }

  // The first of the complaints that has cause.
  function FirstCause(complaints: Complaints): (code: Option<BuildCode>)
    ensures code == None <==> forall i :: 0 <= i < |complaints| ==> !complaints[i].1
    ensures code.Some? ==> exists k :: 0 <= k < |complaints| && complaints[k].1 && code.value == complaints[k].0
                                       && forall i :: 0 <= i < k ==> !complaints[i].1
  {
    if complaints == [] then None
    else if complaints[0].1 then Some(complaints[0].0)
    else FirstCause(complaints[1..])
  }

  lemma {:induction false} FirstCauseOfBoth(a: Complaints, b: Complaints)
    ensures FirstCause(a + b) == if FirstCause(a).Some? then FirstCause(a) else FirstCause(b)
  {
    if a == [] {
      assert a + b == b;
    } else {
      assert (a + b)[1..] == a[1..] + b;
      FirstCauseOfBoth(a[1..], b);
    }
  }

  lemma FirstCauseOfThree(x: (BuildCode, bool), y: (BuildCode, bool), z: (BuildCode, bool))
    ensures FirstCause([x, y, z]) == if x.1 then Some(x.0) else if y.1 then Some(y.0) else if z.1 then Some(z.0) else None
  {
    assert [x, y, z] == [x] + [y] + [z];
    FirstCauseOfBoth([x] + [y], [z]);
    FirstCauseOfBoth([x], [y]);
  }

  lemma ColorInWords(image: Option<K4aImage>)
    ensures FirstCause(ColorComplaints(image)) == ValidateColorImage(image)
  {
    if image.Some? { ShapeInWords(image.value, 4); }
    var c := ColorComplaints(image);
    assert c == [c[0], c[1], c[2]];
    FirstCauseOfThree(c[0], c[1], c[2]);
  }

  lemma DepthInWords(image: Option<K4aImage>)
    ensures FirstCause(DepthComplaints(image)) == ValidateDepthImage(image)
  {
    if image.Some? { ShapeInWords(image.value, 2); }
    var c := DepthComplaints(image);
    assert c == [c[0], c[1], c[2]];
    FirstCauseOfThree(c[0], c[1], c[2]);
  }

  lemma AlignmentInWords(a: Alignment)
    ensures FirstCause(AlignmentComplaints(a)) == AlignmentFailure(a)
  {
    var c := AlignmentComplaints(a);
    assert c == [c[0], c[1], c[2]];
    FirstCauseOfThree(c[0], c[1], c[2]);
  }

  lemma ShapeInWords(image: K4aImage, bytesPerPixel: nat)
    requires bytesPerPixel >= 1
    ensures image.SaneShape(bytesPerPixel) <==> HoldsItsPixels(image, bytesPerPixel)
  {
    if 1 <= image.width && 1 <= image.height {
      ProductAtLeast(bytesPerPixel, image.width as int);
      if image.strideBytes >= 1 {
        ProductAtLeast(image.strideBytes as int, image.height as int);
      }
    }
  }

  lemma ProductAtLeast(a: int, b: int)
    requires a >= 1 && b >= 1
    ensures a * b >= a && a * b >= b && b * a == a * b
  {
  }

  // Building fails with the first complaint that has cause, and succeeds without any.
  lemma FirstComplaintDecides(capture: Option<Camera>, intrinsics: CameraIntrinsics, a: Alignment, frameId: FrameId, ticks: int)
    requires AllBacked(capture, a)
    ensures var cause := FirstCause(AllComplaints(capture, intrinsics, a, frameId, ticks));
      if cause.Some? then Build(capture, intrinsics, a, frameId, ticks) == Err(cause.value)
      else Build(capture, intrinsics, a, frameId, ticks).Ok?
  {
    var color := if capture.Some? then capture.value.color else None;
    var depth := if capture.Some? then capture.value.depth else None;
    ColorInWords(color);
    DepthInWords(depth);
    AlignmentInWords(a);
    DepthInWords(Some(a.aligned));
    var request := [(BuildCode.InvalidFrameId, frameId == 0), (BuildCode.InvalidTimestamp, ticks <= 0)];
    FirstCauseOfBoth(request, ColorComplaints(color));
    FirstCauseOfBoth(request + ColorComplaints(color), DepthComplaints(depth));
    FirstCauseOfBoth(request + ColorComplaints(color) + DepthComplaints(depth), AlignmentComplaints(a));
    FirstCauseOfBoth(request + ColorComplaints(color) + DepthComplaints(depth) + AlignmentComplaints(a),
                     DepthComplaints(Some(a.aligned)));
    FirstCauseOfBoth(request + ColorComplaints(color) + DepthComplaints(depth) + AlignmentComplaints(a)
                     + DepthComplaints(Some(a.aligned)), [(BuildCode.InvalidIntrinsics, !intrinsics.Valid())]);
  }

  // ----------------------------------------------------------------- timestamps

  // The least tick that is positive, not before now, and after the last one.
  function NextTicks(now: int, last: int): (ticks: int)
    ensures ticks >= now && ticks >= 1 && ticks > last
    ensures ticks == now || ticks == 1 || ticks == last + 1
  {
    Max(Max(now, 1), last + 1)
  }

  method NextMonotonicTimestamp(now: int, lastTimestampTicks: int) returns (ticks: int)
    ensures ticks == NextTicks(now, lastTimestampTicks)
  {
    ticks := now;
    if ticks <= 0 {
      ticks := 1;
    }
    if ticks <= lastTimestampTicks {
      ticks := lastTimestampTicks + 1;
    }
  }

  // ------------------------------------------------------------------ ingestor

  // Everything the outside world answers during one captureAndSubmit.
  datatype Shot = Shot(captured: bool, capture: Option<Camera>, calibration: Option<CameraIntrinsics>, alignment: Alignment, now: int) {
    predicate Backed() {
      AllBacked(capture, alignment)
    }

    predicate Faithful() {
      Backed() && (capture.Some? && capture.value.color.Some? ==> alignment.Faithful(capture.value.color.value))
    }
  }

  datatype IngestResult =
    | CaptureUnavailable
    | CalibrationUnavailable
    | BuildFailed(frameId: FrameId, buildCode: BuildCode)
    | ModelRejected(frameId: FrameId, code: SubmissionCode)
    | Submitted(frameId: FrameId)

  datatype Counters = Counters(nextFrameId: FrameId, lastTicks: int)

  // Up to the submission: the counters move once capture and calibration are there.
  function Prepared(c: Counters, shot: Shot): (Counters, Result<Frame, IngestResult>)
    requires shot.Backed()
  {
    if !shot.captured || shot.capture.None? then (c, Err(CaptureUnavailable))
    else if shot.calibration.None? then (c, Err(CalibrationUnavailable))
    else
      var ticks := NextTicks(shot.now, c.lastTicks);
      var built := Build(shot.capture, shot.calibration.value, shot.alignment, c.nextFrameId, ticks);
      (Counters(c.nextFrameId + 1, ticks),
       if built.Ok? then Ok(built.value) else Err(BuildFailed(c.nextFrameId, built.error)))
  }

  // An id and a timestamp are used up exactly when a capture and a calibration are
  // there, whatever becomes of the frame; the frame that is built carries both.
  lemma PreparedInWords(c: Counters, shot: Shot)
    requires shot.Backed()
    ensures var (after, r) := Prepared(c, shot);
      && (after.nextFrameId == c.nextFrameId + 1 && after.lastTicks > c.lastTicks && after.lastTicks >= shot.now
          <==> shot.captured && shot.capture.Some? && shot.calibration.Some?)
      && (after == c <==> r == Err(CaptureUnavailable) || r == Err(CalibrationUnavailable))
      && (r == Err(CaptureUnavailable) <==> !shot.captured || shot.capture == None)
      && (r == Err(CalibrationUnavailable) <==> shot.captured && shot.capture.Some? && shot.calibration == None)
      && (r.Ok? ==> r.value.frameId == c.nextFrameId && r.value.ticks == after.lastTicks
                    && Some(r.value.intrinsics) == shot.calibration)
      && (r.Err? && r.error.BuildFailed? ==> r.error.frameId == c.nextFrameId)
  {
    if shot.captured && shot.capture.Some? && shot.calibration.Some? {
      var ticks := NextTicks(shot.now, c.lastTicks);
      var built := Build(shot.capture, shot.calibration.value, shot.alignment, c.nextFrameId, ticks);
      if built.Ok? {
        BuiltInWords(shot.capture, shot.calibration.value, shot.alignment, c.nextFrameId, ticks);
      }
    }
  }

  class FrameIngestor {
    const frameStore: FrameStore
    var nextFrameId: FrameId
    var lastTimestampTicks: int

    constructor (store: FrameStore)
      ensures frameStore == store && View() == Counters(1, 0)
    {
      frameStore := store;
      nextFrameId, lastTimestampTicks := 1, 0;
    }

    function View(): Counters
      reads this
    {
      Counters(nextFrameId, lastTimestampTicks)
    }

    method CaptureAndSubmit(shot: Shot) returns (r: IngestResult)
      requires shot.Backed()
      modifies this, frameStore, frameStore.history, frameStore.lifecycleTracker, frameStore.readyFrameQueue
      ensures View() == Prepared(old(View()), shot).0
      ensures var prepared := Prepared(old(View()), shot).1; var before := old(frameStore.View());
        if prepared.Err? then r == prepared.error && frameStore.View() == before
        else
          var (after, code) := before.Submitted(prepared.value);
          && frameStore.View() == after
          && r == if code == Accepted then Submitted(prepared.value.frameId) else ModelRejected(prepared.value.frameId, code)
    {
      if !shot.captured || shot.capture.None? {
        return CaptureUnavailable;
      }
      if shot.calibration.None? {
        return CalibrationUnavailable;
      }
      var frameId := nextFrameId;
      nextFrameId := nextFrameId + 1;
      lastTimestampTicks := NextMonotonicTimestamp(shot.now, lastTimestampTicks);
      var built := Build(shot.capture, shot.calibration.value, shot.alignment, frameId, lastTimestampTicks);
      if built.Err? {
        return BuildFailed(frameId, built.error);
      }
      var code := frameStore.SubmitFrame(built.value);
      if code != Accepted {
        return ModelRejected(frameId, code);
      }
      return Submitted(frameId);
    }
  }
}
