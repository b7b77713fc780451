// Copying a frame into the reconstruction view: a strided BGRA image becomes a
// packed opaque RGBA one, in batches of 16 pixels and a scalar tail, and 16-bit
// millimetre depths become metres.
//
// Sizes, strides and column counters are 32-bit integers, so every product that
// the code forms is proved to fit; every access is proved to be in bounds.
module ViewConversion {
  import opened Common
  import opened FrameModel

  const RGB_BYTES_PER_PIXEL: int32 := 4
  const DEPTH_BYTES_PER_PIXEL: int32 := 2
  const NEON_PIXELS_PER_BATCH: int32 := 16
  const MILLIMETRES_TO_METRES: real := 0.001
  const OPAQUE: byte := 0xFF

  // ----------------------------------------------------------- layout checks

  predicate MatchingImageSizes(frame: Frame) {
    frame.rgb.size == frame.depth.size
  }

  predicate ValidRgbLayout(frame: Frame)
    requires frame.rgb.size.Valid()
  {
    frame.rgb.strideBytes >= frame.rgb.size.width * RGB_BYTES_PER_PIXEL
  }

  predicate ValidDepthLayout(frame: Frame)
    requires frame.depth.size.Valid()
  {
    frame.depth.strideBytes >= frame.depth.size.width * DEPTH_BYTES_PER_PIXEL
  }

  datatype ViewConversionFailure = MismatchedImageSizes | InvalidRgbLayout | InvalidDepthLayout

  // What the conversion reports, by the first check that fails.
  function ConversionFailure(frame: Frame): Option<ViewConversionFailure>
    requires frame.rgb.size.Valid() && frame.depth.size.Valid()
  {
    if !MatchingImageSizes(frame) then Some(MismatchedImageSizes)
    else if !ValidRgbLayout(frame) then Some(InvalidRgbLayout)
    else if !ValidDepthLayout(frame) then Some(InvalidDepthLayout)
    else None
  }

  // ---------------------------------------------------------------- colour rows

  // The first pixels of the row at `base`, with red and blue traded and opaque.
  function SwizzledRow(source: seq<byte>, base: nat, width: nat): (r: seq<byte>)
    requires base + 4 * width <= |source|
    ensures |r| == 4 * width
  {
    if width == 0 then []
    else
      var from := base + 4 * (width - 1);
      SwizzledRow(source, base, width - 1) + [source[from + 2], source[from + 1], source[from], OPAQUE]
  }

  // vld4q_u8: 16 pixels, one lane for each of the four channels.
  function LoadInterleaved(source: seq<byte>, from: nat): (lanes: seq<seq<byte>>)
    requires from + 64 <= |source|
    ensures FourLanes(lanes)
  {
    [Lane(source, from, 0), Lane(source, from, 1), Lane(source, from, 2), Lane(source, from, 3)]
  }

  predicate FourLanes(lanes: seq<seq<byte>>) {
    |lanes| == 4 && |lanes[0]| == |lanes[1]| == |lanes[2]| == |lanes[3]| == 16
  }

  function Lane(source: seq<byte>, from: nat, channel: nat): (lane: seq<byte>)
    requires from + 64 <= |source| && channel < 4
    ensures |lane| == 16
  {
    seq(16, l requires 0 <= l < 16 => source[from + 4 * l + channel])
  }

  // vst4q_u8: the first pixels of four lanes, in memory order.
  function Interleaved(lanes: seq<seq<byte>>, pixels: nat): (r: seq<byte>)
    requires FourLanes(lanes) && pixels <= 16
    ensures |r| == 4 * pixels
  {
    if pixels == 0 then []
    else
      var l := pixels - 1;
      Interleaved(lanes, l) + [lanes[0][l], lanes[1][l], lanes[2][l], lanes[3][l]]
  }

  // The vector batch: two lanes traded, the fourth one opaque.
  function SwizzledLanes(bgra: seq<seq<byte>>): (rgba: seq<seq<byte>>)
    requires FourLanes(bgra)
    ensures FourLanes(rgba)
  {
    [bgra[2], bgra[1], bgra[0], seq(16, _ => OPAQUE)]
  }

  // A batch is 16 more pixels of the row.
  lemma {:induction false} BatchExtendsRow(source: seq<byte>, base: nat, column: nat, pixels: nat)
    requires base + 4 * column + 64 <= |source| && pixels <= 16
    ensures SwizzledRow(source, base, column + pixels)
            == SwizzledRow(source, base, column)
               + Interleaved(SwizzledLanes(LoadInterleaved(source, base + 4 * column)), pixels)
  {
    if pixels > 0 {
      BatchExtendsRow(source, base, column, pixels - 1);
    }
  }

  lemma Associative<T>(a: seq<T>, b: seq<T>, c: seq<T>)
    ensures (a + b) + c == a + (b + c)
  {
  }

  // Overwrites part of an array.
  method Store(destination: array<byte>, at: nat, bytes: seq<byte>)
    requires at + |bytes| <= destination.Length
    modifies destination
    ensures destination[..at + |bytes|] == old(destination[..at]) + bytes
  {
    forall i | 0 <= i < |bytes| {
      destination[at + i] := bytes[i];
    }
  }

  lemma BatchExtends(before: seq<byte>, source: seq<byte>, base: nat, column: nat, batch: seq<byte>)
    requires base + 4 * column + 64 <= |source|
    requires batch == Interleaved(SwizzledLanes(LoadInterleaved(source, base + 4 * column)), 16)
    ensures before + SwizzledRow(source, base, column + 16) == (before + SwizzledRow(source, base, column)) + batch
  {
    BatchExtendsRow(source, base, column, 16);
    Associative(before, SwizzledRow(source, base, column), batch);
  }

  method StoreBatch(source: seq<byte>, base: nat, destination: array<byte>, to: nat, column: nat, ghost before: seq<byte>)
    requires base + 4 * column + 64 <= |source| && to + 4 * column + 64 <= destination.Length
    requires destination[..to + 4 * column] == before + SwizzledRow(source, base, column)
    modifies destination
    ensures destination[..to + 4 * (column + 16)] == before + SwizzledRow(source, base, column + 16)
  {
    var batch := Interleaved(SwizzledLanes(LoadInterleaved(source, base + 4 * column)), 16);
    BatchExtends(before, source, base, column, batch);
    Store(destination, to + 4 * column, batch);
  }

  method StorePixel(source: seq<byte>, base: nat, destination: array<byte>, to: nat, column: nat, ghost before: seq<byte>)
    requires base + 4 * column + 4 <= |source| && to + 4 * column + 4 <= destination.Length
    requires destination[..to + 4 * column] == before + SwizzledRow(source, base, column)
    modifies destination
    ensures destination[..to + 4 * (column + 1)] == before + SwizzledRow(source, base, column + 1)
  {
    var at := base + 4 * column;
    var pixel := [source[at + 2], source[at + 1], source[at], OPAQUE];
    Associative(before, SwizzledRow(source, base, column), pixel);
    Store(destination, to + 4 * column, pixel);
  }

  // The vector loop: whole batches only.
  method SwizzleBatches(source: seq<byte>, base: nat, destination: array<byte>, to: nat, width: int32) returns (column: int32)
    requires 0 <= width && base + 4 * (width as int) <= |source| && to + 4 * (width as int) <= destination.Length
    modifies destination
    ensures 0 <= column <= width && width - column < NEON_PIXELS_PER_BATCH
    ensures destination[..to + 4 * (column as int)] == old(destination[..to]) + SwizzledRow(source, base, column as int)
  {
    column := 0;
    ghost var before := destination[..to];
    while column <= width - NEON_PIXELS_PER_BATCH
      invariant 0 <= column <= width
      invariant destination[..to + 4 * (column as int)] == before + SwizzledRow(source, base, column as int)
    {
      StoreBatch(source, base, destination, to, column as int, before);
      column := column + NEON_PIXELS_PER_BATCH;
    }
  }

  // The scalar loop: one pixel at a time to the end of the row.
  method SwizzleTail(source: seq<byte>, base: nat, destination: array<byte>, to: nat, start: int32, width: int32, ghost before: seq<byte>)
    requires 0 <= start <= width && base + 4 * (width as int) <= |source| && to + 4 * (width as int) <= destination.Length
    requires destination[..to + 4 * (start as int)] == before + SwizzledRow(source, base, start as int)
    modifies destination
    ensures destination[..to + 4 * (width as int)] == before + SwizzledRow(source, base, width as int)
  {
    var column := start;
    while column < width
      invariant start <= column <= width
      invariant destination[..to + 4 * (column as int)] == before + SwizzledRow(source, base, column as int)
    {
      StorePixel(source, base, destination, to, column as int, before);
      column := column + 1;
    }
  }

  // The scalar loop starts where the vector loop stopped, or at the first pixel.
  method SwizzleBgraRowToRgba(neon: bool, source: seq<byte>, base: nat, destination: array<byte>, to: nat, width: int32)
    requires 0 <= width && base + 4 * (width as int) <= |source| && to + 4 * (width as int) <= destination.Length
    modifies destination
    ensures destination[..to + 4 * (width as int)] == old(destination[..to]) + SwizzledRow(source, base, width as int)
  {
    var column: int32 := 0;
    ghost var before := destination[..to];
    if neon {
      column := SwizzleBatches(source, base, destination, to, width);
    }
    SwizzleTail(source, base, destination, to, column, width, before);
  }

  // ------------------------------------------------------------ whole images

  // Where a row starts, in units of its length: row * length, added up.
  function RowStart(length: nat, row: nat): nat {
    if row == 0 then 0 else RowStart(length, row - 1) + length
  }

  lemma {:induction false} RowStartIsProduct(length: nat, row: nat)
    ensures RowStart(length, row) == row * length
  {
    if row > 0 {
      RowStartIsProduct(length, row - 1);
      assert row * length == (row - 1) * length + length;
    }
  }

  lemma {:induction false} RowStartMono(length: nat, row: nat, rows: nat)
    requires row <= rows
    ensures RowStart(length, row) <= RowStart(length, rows)
    ensures row < rows ==> RowStart(length, row) + length <= RowStart(length, rows)
  {
    if row < rows {
      RowStartMono(length, row, rows - 1);
    }
  }

  // The first rows of a strided image, each mapped to `width` packed pixels.
  function PackedRgb(source: seq<byte>, stride: nat, width: nat, rows: nat): (r: seq<byte>)
    requires RowStart(stride, rows) <= |source| && 4 * width <= stride
    ensures |r| == 4 * RowStart(width, rows)
  {
    if rows == 0 then []
    else
      PackedRgb(source, stride, width, rows - 1) + SwizzledRow(source, RowStart(stride, rows - 1), width)
  }

  // A little-endian 16-bit depth sample, in metres.
  function Metres(low: byte, high: byte): real {
    (low + 256 * high) as real * MILLIMETRES_TO_METRES
  }

  // The samples of one row that starts at a byte offset.
  function DepthSamples(source: seq<byte>, from: nat, width: nat): (r: seq<real>)
    requires from + 2 * width <= |source|
    ensures |r| == width
  {
    seq(width, c requires 0 <= c < width => Metres(source[from + 2 * c], source[from + 2 * c + 1]))
  }

  function PackedDepth(source: seq<byte>, stride: nat, width: nat, rows: nat): (r: seq<real>)
    requires RowStart(stride, rows) <= |source| && 2 * width <= stride
    ensures |r| == RowStart(width, rows)
  {
    if rows == 0 then []
    else PackedDepth(source, stride, width, rows - 1) + DepthSamples(source, RowStart(stride, rows - 1), width)
  }

  // The BGRA pixel of a column was read from the row at `base`, and stored opaque
  // as RGBA in the row at `start`.
  ghost predicate PixelSwizzled(source: seq<byte>, base: int, image: seq<byte>, start: int, column: int) {
    var from, to := base + 4 * column, start + 4 * column;
    && 0 <= from <= |source| - 4 && 0 <= to <= |image| - 4
    && image[to] == source[from + 2] && image[to + 1] == source[from + 1]
    && image[to + 2] == source[from] && image[to + 3] == 0xFF
  }

  // The little-endian millimetres at `from` are stored in metres at `to`.
  ghost predicate DepthInMetres(source: seq<byte>, from: int, depth: seq<real>, to: int) {
    && 0 <= from <= |source| - 2 && 0 <= to < |depth|
    && depth[to] == (source[from] as int + 256 * (source[from + 1] as int)) as real / 1000.0
  }

  lemma {:induction false} PixelOfRow(source: seq<byte>, base: nat, width: nat, column: nat)
    requires base + 4 * width <= |source| && column < width
    ensures PixelSwizzled(source, base, SwizzledRow(source, base, width), 0, column)
  {
    if column < width - 1 {
      PixelOfRow(source, base, width - 1, column);
    }
  }

  // Every pixel of every row: where it was read and where it is stored.
  lemma {:induction false} RgbPixel(source: seq<byte>, stride: nat, width: nat, rows: nat, row: nat, column: nat)
    returns (base: nat, start: nat)
    requires RowStart(stride, rows) <= |source| && 4 * width <= stride && row < rows && column < width
    ensures base == row * stride && start == 4 * (row * width)
    ensures PixelSwizzled(source, base, PackedRgb(source, stride, width, rows), start, column)
  {
    if row + 1 < rows {
      base, start := RgbPixel(source, stride, width, rows - 1, row, column);
    } else {
      base, start := RowStart(stride, row), 4 * RowStart(width, row);
      PixelOfRow(source, base, width, column);
      RowStartIsProduct(stride, row);
      RowStartIsProduct(width, row);
    }
  }

  // The same for depth samples.
  lemma {:induction false} DepthPixel(source: seq<byte>, stride: nat, width: nat, rows: nat, row: nat, column: nat)
    returns (base: nat, start: nat)
    requires RowStart(stride, rows) <= |source| && 2 * width <= stride && row < rows && column < width
    ensures base == row * stride && start == row * width
    ensures DepthInMetres(source, base + 2 * column, PackedDepth(source, stride, width, rows), start + column)
  {
    if row + 1 < rows {
      base, start := DepthPixel(source, stride, width, rows - 1, row, column);
    } else {
      base, start := RowStart(stride, row), RowStart(width, row);
      RowStartIsProduct(stride, row);
      RowStartIsProduct(width, row);
    }
  }

  lemma MulMono(a: int, b: int, c: int, d: int)
    requires 0 <= a <= c && 0 <= b <= d
    ensures 0 <= a * b <= c * d
  {
    assert a * b <= c * b <= c * d;
  }

  // The 32-bit product of a row number and a width.
  function RowTimesWidth(row: int32, width: int32): (pixel: int32)
    requires 0 <= row <= MAX_SANE_IMAGE_DIMENSION && 0 <= width <= MAX_SANE_IMAGE_DIMENSION
    ensures 0 <= pixel <= 0x1000_0000 && pixel as int == RowStart(width as int, row as int)
  {
    MulMono(row as int, width as int, 16384, 16384);
    RowStartIsProduct(width as int, row as int);
    row * width
  }

  // The 64-bit product of a row number and a stride.
  function RowTimesStride(row: int32, stride: int32): (offset: nat)
    requires 0 <= row && 0 <= stride
    ensures offset == RowStart(stride as int, row as int)
  {
    RowStartIsProduct(stride as int, row as int);
    (row as int) * (stride as int)
  }

  // ------------------------------------------------------------ the whole view

  function Pixels(size: ImageSize): (n: nat)
    requires size.Valid()
  {
    RowTimesWidth(size.height, size.width) as int
  }

  predicate Convertible(frame: Frame) {
    frame.rgb.SaneBytes() && frame.depth.SaneBytes() && ConversionFailure(frame).None?
  }

  // What the checks give the copy loops, for frames that the frame store accepts:
  // every row that is read lies inside its buffer.
  lemma ImageInsideBuffer(image: FrameImage)
    requires image.SaneBytes()
    ensures RowStart(image.strideBytes as int, image.size.height as int) <= |image.buffer.data.value|
  {
    RowStartIsProduct(image.strideBytes as int, image.size.height as int);
  }

  function RgbOf(frame: Frame): (r: seq<byte>)
    requires Convertible(frame)
  {
    ImageInsideBuffer(frame.rgb);
    PackedRgb(frame.rgb.buffer.data.value, frame.rgb.strideBytes as int, frame.rgb.size.width as int, frame.rgb.size.height as int)
  }

  function DepthOf(frame: Frame): (r: seq<real>)
    requires Convertible(frame)
  {
    ImageInsideBuffer(frame.depth);
    PackedDepth(frame.depth.buffer.data.value, frame.depth.strideBytes as int, frame.depth.size.width as int, frame.depth.size.height as int)
  }

  // The finished view, pixel by pixel: colour channels trade places and become
  // opaque, little-endian millimetres become metres, and both come from the frame's
  // own pixel.
  lemma ViewPixel(frame: Frame, row: nat, column: nat) returns (rgbRow: nat, depthRow: nat, first: nat)
    requires Convertible(frame) && row < frame.rgb.size.height as int && column < frame.rgb.size.width as int
    ensures rgbRow == row * (frame.rgb.strideBytes as int) && depthRow == row * (frame.depth.strideBytes as int)
    ensures first == row * (frame.rgb.size.width as int)
    ensures PixelSwizzled(frame.rgb.buffer.data.value, rgbRow, RgbOf(frame), 4 * first, column)
    ensures DepthInMetres(frame.depth.buffer.data.value, depthRow + 2 * column, DepthOf(frame), first + column)
  {
    ImageInsideBuffer(frame.rgb);
    ImageInsideBuffer(frame.depth);
    var width, height := frame.rgb.size.width as int, frame.rgb.size.height as int;
    var start: nat;
    rgbRow, start := RgbPixel(frame.rgb.buffer.data.value, frame.rgb.strideBytes as int, width, height, row, column);
    depthRow, first := DepthPixel(frame.depth.buffer.data.value, frame.depth.strideBytes as int, width, height, row, column);
  }

  // Which check fails, in terms of the frame: sizes first, then four bytes for each
  // colour pixel of a row, then two for each depth.
  lemma RefusalsInWords(frame: Frame)
    requires frame.rgb.size.Valid() && frame.depth.size.Valid()
    ensures var rgb, depth := frame.rgb, frame.depth; var failure := ConversionFailure(frame);
      var sameSize := rgb.size.width == depth.size.width && rgb.size.height == depth.size.height;
      var rgbFits := rgb.strideBytes as int >= (rgb.size.width as int) * 4;
      var depthFits := depth.strideBytes as int >= (depth.size.width as int) * 2;
      && (failure == Some(MismatchedImageSizes) <==> !sameSize)
      && (failure == Some(InvalidRgbLayout) <==> sameSize && !rgbFits)
      && (failure == Some(InvalidDepthLayout) <==> sameSize && rgbFits && !depthFits)
      && (failure == None <==> sameSize && rgbFits && depthFits)
  {
  }

  class View {
    const rgb: array<byte>
    const depth: array<real>

    constructor (rgbSize: ImageSize, depthSize: ImageSize)
      requires rgbSize.Valid() && depthSize.Valid()
      ensures fresh(rgb) && fresh(depth)
      ensures rgb.Length == 4 * Pixels(rgbSize) && depth.Length == Pixels(depthSize)
    {
      rgb := new byte[4 * Pixels(rgbSize)];
      depth := new real[Pixels(depthSize)];
    }
  }

  method CopyRgb(neon: bool, source: seq<byte>, stride: int32, width: int32, height: int32, destination: array<byte>)
    requires 0 < height <= MAX_SANE_IMAGE_DIMENSION && 0 < width <= MAX_SANE_IMAGE_DIMENSION
    requires 4 * width <= stride && RowStart(stride as int, height as int) <= |source|
    requires destination.Length == 4 * RowStart(width as int, height as int)
    modifies destination
    ensures destination[..] == PackedRgb(source, stride as int, width as int, height as int)
  {
    var row: int32 := 0;
    while row < height
      invariant 0 <= row <= height
      invariant RowStart(stride as int, row as int) <= |source|
      invariant 4 * RowStart(width as int, row as int) <= destination.Length
      invariant destination[..4 * RowStart(width as int, row as int)]
                == PackedRgb(source, stride as int, width as int, row as int)
    {
      RowStartMono(stride as int, row as int, height as int);
      RowStartMono(width as int, row as int, height as int);
      SwizzleBgraRowToRgba(neon, source, RowTimesStride(row, stride), destination, 4 * (RowTimesWidth(row, width) as int), width);
      row := row + 1;
    }
    assert destination[..] == destination[..destination.Length];
  }

  method CopyDepthSamples(source: seq<byte>, from: nat, destination: array<real>, to: int32, width: int32)
    requires 0 <= width <= MAX_SANE_IMAGE_DIMENSION && 0 <= to <= 0x1000_0000
    requires from + 2 * (width as int) <= |source| && (to as int) + (width as int) <= destination.Length
    modifies destination
    ensures destination[..to + width] == old(destination[..to]) + DepthSamples(source, from, width as int)
  {
    var column: int32 := 0;
    while column < width
      invariant 0 <= column <= width
      invariant destination[..to + column] == old(destination[..to]) + DepthSamples(source, from, column as int)
    {
      var at := from + 2 * (column as int);
      ghost var done := DepthSamples(source, from, column as int);
      destination[to + column] := Metres(source[at], source[at + 1]);
      column := column + 1;
      assert DepthSamples(source, from, column as int) == done + [Metres(source[at], source[at + 1])];
    }
  }

  method CopyDepth(source: seq<byte>, stride: int32, width: int32, height: int32, destination: array<real>)
    requires 0 < height <= MAX_SANE_IMAGE_DIMENSION && 0 < width <= MAX_SANE_IMAGE_DIMENSION
    requires 2 * width <= stride && RowStart(stride as int, height as int) <= |source|
    requires destination.Length == RowStart(width as int, height as int)
    modifies destination
    ensures destination[..] == PackedDepth(source, stride as int, width as int, height as int)
  {
    var row: int32 := 0;
    while row < height
      invariant 0 <= row <= height
      invariant RowStart(stride as int, row as int) <= |source|
      invariant RowStart(width as int, row as int) <= destination.Length
      invariant destination[..RowStart(width as int, row as int)] == PackedDepth(source, stride as int, width as int, row as int)
    {
      RowStartMono(stride as int, row as int, height as int);
      RowStartMono(width as int, row as int, height as int);
      CopyDepthSamples(source, RowTimesStride(row, stride), destination, RowTimesWidth(row, width), width);
      row := row + 1;
    }
    assert destination[..] == destination[..destination.Length];
  }

  // Reports the first layout check that fails, or fills the whole view.
  method CopyFrameToView(neon: bool, view: View, frame: Frame) returns (failure: Option<ViewConversionFailure>)
    requires frame.rgb.SaneBytes() && frame.depth.SaneBytes()
    requires view.rgb.Length == 4 * Pixels(frame.rgb.size) && view.depth.Length == Pixels(frame.depth.size)
    modifies view.rgb, view.depth
    ensures failure == ConversionFailure(frame)
    ensures failure.None? ==> view.rgb[..] == RgbOf(frame) && view.depth[..] == DepthOf(frame)
    ensures failure.Some? ==> view.rgb[..] == old(view.rgb[..]) && view.depth[..] == old(view.depth[..])
  {
    if !MatchingImageSizes(frame) {
      return Some(MismatchedImageSizes);
    }
    if !ValidRgbLayout(frame) {
      return Some(InvalidRgbLayout);
    }
    if !ValidDepthLayout(frame) {
      return Some(InvalidDepthLayout);
    }
    ImageInsideBuffer(frame.rgb);
    ImageInsideBuffer(frame.depth);
    CopyRgb(neon, frame.rgb.buffer.data.value, frame.rgb.strideBytes, frame.rgb.size.width, frame.rgb.size.height, view.rgb);
    CopyDepth(frame.depth.buffer.data.value, frame.depth.strideBytes, frame.depth.size.width, frame.depth.size.height, view.depth);
    return None;
  }
}
