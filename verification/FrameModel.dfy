// Frames, images and the admission decision of the frame store.
module FrameModel {
  import opened Common

  newtype int32 = x: int | -0x8000_0000 <= x < 0x8000_0000

  type byte = x: int | 0 <= x < 256

  type FrameId = nat

  const MAX_SANE_IMAGE_DIMENSION: int32 := 16384

  // A float, up to rounding: finite values are reals.
  datatype Float = Finite(value: real) | NotFinite

  datatype CameraIntrinsics = CameraIntrinsics(fx: Float, fy: Float, cx: Float, cy: Float) {
    predicate Valid() {
      && fx.Finite? && fy.Finite? && cx.Finite? && cy.Finite?
      && fx.value > 0.0 && fy.value > 0.0 && cx.value >= 0.0 && cy.value >= 0.0
    }
  }

  datatype ImageSize = ImageSize(width: int32, height: int32) {
    predicate Valid() {
      && 0 < width <= MAX_SANE_IMAGE_DIMENSION
      && 0 < height <= MAX_SANE_IMAGE_DIMENSION
    }
  }

  // The bytes behind a buffer pointer; None is a null pointer.
  datatype FrameBuffer = FrameBuffer(data: Option<seq<byte>>, hasOwner: bool) {
    function ByteCount(): nat {
      if data.Some? then |data.value| else 0
    }

    predicate Empty() {
      data.None? || ByteCount() == 0 || !hasOwner
    }
  }

  datatype FrameImage = FrameImage(size: ImageSize, strideBytes: int32, buffer: FrameBuffer) {
    predicate SaneBytes() {
      && size.Valid() && strideBytes > 0 && !buffer.Empty()
      && strideBytes >= size.width
      && (strideBytes as int) * (size.height as int) <= buffer.ByteCount()
    }
  }

  datatype Frame = Frame(
    frameId: FrameId,
    ticks: int,
    rgb: FrameImage,
    depth: FrameImage,
    intrinsics: CameraIntrinsics
  )

  datatype SubmissionCode =
    | Accepted
    | InvalidFrameId
    | InvalidTimestamp
    | FrameIdNotNewer
    | TimestampNotNewer
    | MissingRgbBuffer
    | MissingDepthBuffer
    | InvalidRgbDimensions
    | InvalidDepthDimensions
    | InvalidIntrinsics
    | ReadyFrameQueueFull
    | HistoryFull

  datatype ValidationContext = ValidationContext(
    latestFrameId: Option<FrameId>,
    latestTicks: Option<int>,
    historyFull: bool,
    hasEvictableFrame: bool
  )

  // What a frame must satisfy by itself.
  predicate WellFormed(frame: Frame) {
    && frame.frameId != 0 && frame.ticks > 0
    && frame.rgb.SaneBytes() && frame.depth.SaneBytes()
    && frame.intrinsics.Valid()
  }

  // What it must satisfy against the frame accepted last.
  predicate NewerThan(frame: Frame, latestFrameId: Option<FrameId>, latestTicks: Option<int>) {
    && (latestFrameId.Some? ==> frame.frameId > latestFrameId.value)
    && (latestTicks.Some? ==> frame.ticks > latestTicks.value)
  }

  function Validate(frame: Frame, context: ValidationContext): (code: SubmissionCode)
    ensures code == Accepted <==>
      && WellFormed(frame) && NewerThan(frame, context.latestFrameId, context.latestTicks)
      && (context.historyFull ==> context.hasEvictableFrame)
    ensures code == HistoryFull <==>
      && WellFormed(frame) && NewerThan(frame, context.latestFrameId, context.latestTicks)
      && context.historyFull && !context.hasEvictableFrame
    ensures code != ReadyFrameQueueFull
  {
    if frame.frameId == 0 then InvalidFrameId
    else if frame.ticks <= 0 then InvalidTimestamp
    else if context.latestFrameId.Some? && frame.frameId <= context.latestFrameId.value then FrameIdNotNewer
    else if context.latestTicks.Some? && frame.ticks <= context.latestTicks.value then TimestampNotNewer
    else if frame.rgb.buffer.Empty() then MissingRgbBuffer
    else if frame.depth.buffer.Empty() then MissingDepthBuffer
    else if !frame.rgb.SaneBytes() then InvalidRgbDimensions
    else if !frame.depth.SaneBytes() then InvalidDepthDimensions
    else if !frame.intrinsics.Valid() then InvalidIntrinsics
    else if context.historyFull && !context.hasEvictableFrame then HistoryFull
    else Accepted
  }

  // ------------------------------------------------------ the verdict in words

  predicate NoBytes(image: FrameImage) {
    image.buffer.data == None || image.buffer.data == Some([]) || !image.buffer.hasOwner
  }

  // Rows of the stated stride for the stated height lie inside the bytes.
  predicate FitsItsBytes(image: FrameImage) {
    && 1 <= image.size.width <= 16384 && 1 <= image.size.height <= 16384
    && image.size.width <= image.strideBytes
    && image.buffer.data.Some?
    && (image.strideBytes as int) * (image.size.height as int) <= |image.buffer.data.value|
  }

  ghost predicate UsableIntrinsics(i: CameraIntrinsics) {
    exists fx, fy, cx, cy: real ::
      i == CameraIntrinsics(Finite(fx), Finite(fy), Finite(cx), Finite(cy)) && fx > 0.0 && fy > 0.0 && cx >= 0.0 && cy >= 0.0
  }

  // The complaint that each rejection makes, on its own.
  ghost predicate Complaint(code: SubmissionCode, frame: Frame, context: ValidationContext) {
    match code
    case InvalidFrameId => frame.frameId == 0
    case InvalidTimestamp => frame.ticks <= 0
    case FrameIdNotNewer => exists id :: context.latestFrameId == Some(id) && frame.frameId <= id
    case TimestampNotNewer => exists ticks :: context.latestTicks == Some(ticks) && frame.ticks <= ticks
    case MissingRgbBuffer => NoBytes(frame.rgb)
    case MissingDepthBuffer => NoBytes(frame.depth)
    case InvalidRgbDimensions => !FitsItsBytes(frame.rgb)
    case InvalidDepthDimensions => !FitsItsBytes(frame.depth)
    case InvalidIntrinsics => !UsableIntrinsics(frame.intrinsics)
    case HistoryFull => context.historyFull && !context.hasEvictableFrame
    case Accepted => false
    case ReadyFrameQueueFull => false
  }

  const COMPLAINTS := [
    InvalidFrameId, InvalidTimestamp, FrameIdNotNewer, TimestampNotNewer, MissingRgbBuffer,
    MissingDepthBuffer, InvalidRgbDimensions, InvalidDepthDimensions, InvalidIntrinsics, HistoryFull
  ]

  // The verdict is the first complaint there is, and acceptance when there is none.
  lemma VerdictInWords(frame: Frame, context: ValidationContext)
    ensures Validate(frame, context) == Accepted <==>
              forall k :: 0 <= k < |COMPLAINTS| ==> !Complaint(COMPLAINTS[k], frame, context)
    ensures forall k :: 0 <= k < |COMPLAINTS| ==>
              (Validate(frame, context) == COMPLAINTS[k] <==>
                 && Complaint(COMPLAINTS[k], frame, context)
                 && forall i :: 0 <= i < k ==> !Complaint(COMPLAINTS[i], frame, context))
  {
    ImageInWords(frame.rgb);
    ImageInWords(frame.depth);
    IntrinsicsInWords(frame.intrinsics);
    var code := Validate(frame, context);
    assert code != Accepted ==> Complaint(code, frame, context);
    assert code == Accepted || code in COMPLAINTS;
  }

  lemma ImageInWords(image: FrameImage)
    ensures image.buffer.Empty() <==> NoBytes(image)
    ensures image.SaneBytes() <==> !NoBytes(image) && FitsItsBytes(image)
  {
  }

  lemma IntrinsicsInWords(i: CameraIntrinsics)
    ensures i.Valid() <==> UsableIntrinsics(i)
  {
    if i.Valid() {
      assert i == CameraIntrinsics(Finite(i.fx.value), Finite(i.fy.value), Finite(i.cx.value), Finite(i.cy.value));
    }
  }
}
