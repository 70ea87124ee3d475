/**
 * `VideoToFrames.getDataFromImage`: copying the three planes of a decoded
 * YUV 4:2:0 image, each with its own row and pixel stride, out of the crop
 * rectangle into one tightly packed I420 or NV21 byte array.
 */
module ImagePacking {
  import opened Common

  /** The colour formats `getDataFromImage` accepts. */
  const COLOR_FORMAT_I420: int := 1
  const COLOR_FORMAT_NV21: int := 2

  /** `android.graphics.ImageFormat` codes of the image formats it accepts. */
  const YUV_420_888: int := 0x23
  const NV21: int := 0x11
  const YV12: int := 0x3231_5659

  /** One plane: the bytes its `ByteBuffer` holds (position 0 to limit) and its strides. */
  datatype Plane = Plane(buffer: seq<byte>, rowStride: int, pixelStride: int)

  datatype Rect = Rect(left: int, top: int, right: int, bottom: int)

  datatype Image = Image(format: int, cropRect: Rect, planes: seq<Plane>)

  /** The two exceptions the method throws itself. */
  datatype ConvertError =
    | IllegalArgument              // IllegalArgumentException: colour format other than I420 or NV21
    | UnsupportedFormat(format: int) // RuntimeException: image format it cannot read

  predicate IsColorFormatAccepted(colorFormat: int) {
    colorFormat == COLOR_FORMAT_I420 || colorFormat == COLOR_FORMAT_NV21
  }

  /** `isImageFormatSupported`. */
  predicate IsImageFormatSupported(format: int) {
    format == YUV_420_888 || format == NV21 || format == YV12
  }

  /** `ImageFormat.getBitsPerPixel` on the accepted formats: all three are 12-bit 4:2:0 layouts. */
  function BitsPerPixel(format: int): int
    requires IsImageFormatSupported(format)
  {
    12
  }

  function CropWidth(image: Image): int {
    image.cropRect.right - image.cropRect.left
  }

  function CropHeight(image: Image): int {
    image.cropRect.bottom - image.cropRect.top
  }

  // ---------------------------------------------------------------------------
  // Per-plane geometry, as the loop over planes computes it.

  /** `x >> shift` with shift 0 for the luma plane and 1 for the chroma planes. */
  function Shifted(x: int, plane: int): int {
    if plane == 0 then x else x / 2
  }

  /** `channelOffset` as the switch sets it; `(int) (width * height * 1.25)` is written `5 * width * height / 4`. */
  function ChannelOffset(width: int, height: int, plane: int, colorFormat: int): int {
    var x := width * height;
    if plane == 0 then 0
    else if plane == 1 then (if colorFormat == COLOR_FORMAT_I420 then x else x + 1)
    else if colorFormat == COLOR_FORMAT_I420 then 5 * x / 4
    else x
  }

  /** `outputStride` as the switch sets it. */
  function OutputStride(plane: int, colorFormat: int): int {
    if plane == 0 then 1 else if colorFormat == COLOR_FORMAT_NV21 then 2 else 1
  }

  /** How many bytes a row read takes from the plane's buffer. */
  function RowLength(w: int, pixelStride: int, outputStride: int): int {
    if pixelStride == 1 && outputStride == 1 then w else (w - 1) * pixelStride + 1
  }

  /** Where the buffer stands when row `r` of the cropped plane is read. */
  function RowStart(p: Plane, top: int, left: int, r: int): int {
    p.rowStride * (top + r) + p.pixelStride * left
  }

  /** The buffer index of sample (`r`, `c`) of the cropped plane. */
  function SampleIndex(p: Plane, top: int, left: int, r: int, c: int): int {
    p.rowStride * (top + r) + p.pixelStride * (left + c)
  }

  /** The `k`-th of a run of slots that starts at `base` and steps by `stride`. */
  function Slot(base: int, stride: int, k: int): int {
    base + k * stride
  }

  /** The output index of sample (`r`, `c`) of a `w`-wide plane. */
  function OutIndex(offset: int, stride: int, w: int, r: int, c: int): int {
    offset + (r * w + c) * stride
  }

  /** Index `k` is one of the first `n` slots of the run at `base` stepping by `stride`. */
  predicate Strided(k: int, base: int, stride: int, n: int)
    requires stride == 1 || stride == 2
  {
    base <= k < base + n * stride && (stride == 1 || (k - base) % 2 == 0)
  }

  /** `after` agrees with `before` everywhere except possibly on the first `n` slots of the run at `base`. */
  ghost predicate UnchangedOutside(after: seq<byte>, before: seq<byte>, base: int, stride: int, n: int)
    requires stride == 1 || stride == 2
  {
    |after| == |before| && forall k :: 0 <= k < |after| && !Strided(k, base, stride, n) ==> after[k] == before[k]
  }

  /**
   * The buffer of the plane holds every byte the copy of a `w` x `h` region
   * reads, and each row read fits the scratch row. The row conditions bind
   * only when there is a row to read: a plane with no rows is positioned
   * and left.
   */
  ghost predicate PlaneFits(p: Plane, w: int, h: int, top: int, left: int, outputStride: int, rowDataLength: int) {
    && w >= 0 && h >= 0 && top >= 0 && left >= 0
    && p.pixelStride >= 1 && p.rowStride >= 0
    && (h > 0 ==> RowLength(w, p.pixelStride, outputStride) >= 0)
    && (h > 0 && !(p.pixelStride == 1 && outputStride == 1) ==>
          RowLength(w, p.pixelStride, outputStride) <= rowDataLength)
    && RowStart(p, top, left, 0) <= |p.buffer|
    && forall r :: 0 <= r < h ==> RowStart(p, top, left, r) + RowLength(w, p.pixelStride, outputStride) <= |p.buffer|
  }

  /**
   * The layout guarantee of a decoded `android.media.Image`: a crop rectangle
   * with non-negative corners, one to three planes, and plane buffers large
   * enough for every read the copy makes.
   */
  ghost predicate ImageFits(image: Image, colorFormat: int) {
    var crop := image.cropRect;
    && 0 <= crop.left <= crop.right && 0 <= crop.top <= crop.bottom
    && 1 <= |image.planes| <= 3
    && image.planes[0].rowStride >= 0
    && forall i :: 0 <= i < |image.planes| ==>
         PlaneFits(image.planes[i], Shifted(CropWidth(image), i), Shifted(CropHeight(image), i),
                   Shifted(crop.top, i), Shifted(crop.left, i), OutputStride(i, colorFormat),
                   image.planes[0].rowStride)
  }

  /** Sample (`r`, `c`) of the cropped region of `p` sits at `OutIndex(offset, stride, w, r, c)` of `out`. */
  ghost predicate PlaneCopied(out: seq<byte>, p: Plane, w: int, h: int, top: int, left: int, stride: int, offset: int) {
    forall r, c :: 0 <= r < h && 0 <= c < w ==>
      0 <= OutIndex(offset, stride, w, r, c) < |out| &&
      0 <= SampleIndex(p, top, left, r, c) < |p.buffer| &&
      out[OutIndex(offset, stride, w, r, c)] == p.buffer[SampleIndex(p, top, left, r, c)]
  }

  /** Plane `i` of the image is laid out in `out` as the colour format prescribes. */
  ghost predicate PlanePlaced(out: seq<byte>, image: Image, colorFormat: int, i: int)
    requires 0 <= i < |image.planes|
  {
    var crop := image.cropRect;
    PlaneCopied(out, image.planes[i], Shifted(CropWidth(image), i), Shifted(CropHeight(image), i),
                Shifted(crop.top, i), Shifted(crop.left, i), OutputStride(i, colorFormat),
                ChannelOffset(CropWidth(image), CropHeight(image), i, colorFormat))
  }

  ghost predicate Packed(out: seq<byte>, image: Image, colorFormat: int) {
    forall i :: 0 <= i < |image.planes| ==> PlanePlaced(out, image, colorFormat, i)
  }

  /** Output byte `k` is one of the slots plane `i` is copied to. */
  predicate InPlane(k: int, width: int, height: int, colorFormat: int, i: int) {
    Strided(k, ChannelOffset(width, height, i, colorFormat), OutputStride(i, colorFormat),
            Shifted(width, i) * Shifted(height, i))
  }

  /** Output byte `k` is a slot of one of the first `n` planes. */
  predicate Covered(k: int, width: int, height: int, colorFormat: int, n: int) {
    || (n > 0 && InPlane(k, width, height, colorFormat, 0))
    || (n > 1 && InPlane(k, width, height, colorFormat, 1))
    || (n > 2 && InPlane(k, width, height, colorFormat, 2))
  }

  /** Every output byte that no plane is copied to keeps the 0 of the new array. */
  ghost predicate ZeroOutside(out: seq<byte>, image: Image, colorFormat: int) {
    forall k :: 0 <= k < |out| && !Covered(k, CropWidth(image), CropHeight(image), colorFormat, |image.planes|) ==>
      out[k] == 0
  }

  // ---------------------------------------------------------------------------
  // Arithmetic facts the layout rests on.

  /** Sample (`r`, `c`) of an `h`-row, `w`-column grid lies inside the first `h * w` cells, in row `r`. */
  lemma CellBounds(r: int, c: int, w: int, h: int)
    requires 0 <= r < h && 0 <= c < w
    ensures 0 <= r * w + c < h * w
    ensures r * w + c < (r + 1) * w
  {
    MulMonotone(r + 1, h, w);
  }

  /** A 4:2:0 chroma plane holds at most a quarter as many samples as the luma plane. */
  lemma QuarterBound(width: int, height: int)
    requires width >= 0 && height >= 0
    ensures 0 <= (width / 2) * (height / 2) <= width * height / 4
  {
    var a, b := width / 2, height / 2;
    MulMonotone(2 * a, width, 2 * b);
    MulMonotone(2 * b, height, width);
    assert 4 * (a * b) <= width * height;
  }

  lemma NextRow(row: int, w: int, stride: int)
    ensures (row + 1) * w * stride == row * w * stride + w * stride
    ensures (row + 1) * w == row * w + w
  {
  }

  /** Leaving `n` slots and then the next `m` slots alone is leaving the first `n + m` alone. */
  lemma FrameGrows(after: seq<byte>, middle: seq<byte>, before: seq<byte>, base: int, stride: int, n: int, m: int)
    requires stride == 1 || stride == 2
    requires n >= 0 && m >= 0
    requires UnchangedOutside(middle, before, base, stride, n)
    requires UnchangedOutside(after, middle, base + n * stride, stride, m)
    ensures UnchangedOutside(after, before, base, stride, n + m)
  {
    forall k | 0 <= k < |after| && !Strided(k, base, stride, n + m)
      ensures after[k] == before[k]
    {
      StridedGrow(k, base, stride, n, n + m);
      StridedSplit(k, base, stride, n, m);
    }
  }

  lemma StridedGrow(k: int, base: int, stride: int, n: int, m: int)
    requires stride == 1 || stride == 2
    requires 0 <= n <= m
    ensures Strided(k, base, stride, n) ==> Strided(k, base, stride, m)
  {
  }

  /** Slot `c` of a run is one of its first `n` slots when `c < n`. */
  lemma SlotStrided(base: int, stride: int, c: int, n: int)
    requires stride == 1 || stride == 2
    requires 0 <= c < n
    ensures Strided(Slot(base, stride, c), base, stride, n)
  {
    MulMonotone(c + 1, n, stride);
    if stride == 2 {
      assert Slot(base, stride, c) - base == 2 * c;
    }
  }

  /** Every one of the first `n` slots of a run is among its first `n + 1`. */
  lemma StridedWider(base: int, stride: int, n: int)
    requires stride == 1 || stride == 2
    requires n >= 0
    ensures forall k :: Strided(k, base, stride, n) ==> Strided(k, base, stride, n + 1)
  {
  }

  /** With step 1 the first `n` slots of a run are exactly the `n` indices from `base` on. */
  lemma UnitStrided(base: int, n: int)
    ensures forall k :: Strided(k, base, 1, n) <==> base <= k < base + n
  {
  }

  lemma StridedSplit(k: int, base: int, stride: int, n: int, m: int)
    requires stride == 1 || stride == 2
    requires n >= 0 && m >= 0
    ensures Strided(k, base + n * stride, stride, m) ==> Strided(k, base, stride, n + m)
  {
  }

  // ---------------------------------------------------------------------------
  // The copy.

  /**
   * One row of the inner loop: `w` samples that start at buffer index `pos`
   * and lie `pixelStride` apart go to the output slots that start at
   * `channelOffset` and lie `outputStride` apart. Both branches — the bulk
   * `get` taken when both strides are 1 and the per-sample scatter through
   * `rowData` — meet the same contract, so they write the same bytes.
   */
  method CopyRow(data: array<byte>, rowData: array<byte>, buffer: seq<byte>, pos: int, w: int,
                 pixelStride: int, outputStride: int, channelOffset: int)
    returns (length: int, nextOffset: int)
    requires data != rowData
    requires w >= 0 && pixelStride >= 1 && (outputStride == 1 || outputStride == 2)
    requires RowLength(w, pixelStride, outputStride) >= 0
    requires 0 <= pos && pos + RowLength(w, pixelStride, outputStride) <= |buffer|
    requires !(pixelStride == 1 && outputStride == 1) ==> RowLength(w, pixelStride, outputStride) <= rowData.Length
    requires 0 <= channelOffset && (w > 0 ==> channelOffset + (w - 1) * outputStride < data.Length)
    modifies data, rowData
    ensures length == RowLength(w, pixelStride, outputStride)
    ensures nextOffset == channelOffset + w * outputStride
    ensures forall c :: 0 <= c < w ==>
      0 <= Slot(channelOffset, outputStride, c) < data.Length && 0 <= Slot(pos, pixelStride, c) < |buffer| &&
      data[Slot(channelOffset, outputStride, c)] == buffer[Slot(pos, pixelStride, c)]
    ensures UnchangedOutside(data[..], old(data[..]), channelOffset, outputStride, w)
  {
    length := RowLength(w, pixelStride, outputStride);
    if pixelStride == 1 && outputStride == 1 {
      BulkRow(data, buffer, pos, w, channelOffset);
      BulkAsSlots(data[..], old(data[..]), buffer, pos, w, channelOffset);
      nextOffset := channelOffset + length;
    } else {
      ReadRow(rowData, buffer, pos, length);
      nextOffset := ScatterRow(data, rowData, buffer, pos, w, pixelStride, outputStride, channelOffset, length);
    }
  }

  /** The bulk branch: `get(data, channelOffset, w)` copies `w` consecutive bytes from `pos` on. */
  method BulkRow(data: array<byte>, buffer: seq<byte>, pos: int, w: int, channelOffset: int)
    requires w >= 0 && 0 <= pos && pos + w <= |buffer|
    requires 0 <= channelOffset && (w > 0 ==> channelOffset + w <= data.Length)
    modifies data
    ensures forall j :: 0 <= j < data.Length ==>
      data[j] == if channelOffset <= j < channelOffset + w then buffer[pos + (j - channelOffset)] else old(data[j])
  {
    forall j | channelOffset <= j < channelOffset + w {
      data[j] := buffer[pos + (j - channelOffset)];
    }
  }

  /** A run of `w` consecutive bytes copied from `pos` to `offset`, told as step-1 slots. */
  lemma BulkAsSlots(after: seq<byte>, before: seq<byte>, buffer: seq<byte>, pos: int, w: int, offset: int)
    requires |after| == |before| && w >= 0 && 0 <= pos && pos + w <= |buffer|
    requires 0 <= offset && (w > 0 ==> offset + w <= |after|)
    requires forall j :: 0 <= j < |after| ==>
      after[j] == if offset <= j < offset + w then buffer[pos + (j - offset)] else before[j]
    ensures forall c :: 0 <= c < w ==>
      0 <= Slot(offset, 1, c) < |after| && 0 <= Slot(pos, 1, c) < |buffer| &&
      after[Slot(offset, 1, c)] == buffer[Slot(pos, 1, c)]
    ensures UnchangedOutside(after, before, offset, 1, w)
  {
    UnitStrided(offset, w);
    forall c | 0 <= c < w
      ensures 0 <= Slot(offset, 1, c) < |after| && after[Slot(offset, 1, c)] == buffer[Slot(pos, 1, c)]
    {
      var j := Slot(offset, 1, c);
      assert after[j] == buffer[pos + (j - offset)];
    }
  }

  /** `get(rowData, 0, length)`: the next `length` bytes from `pos` on, into the scratch row. */
  method ReadRow(rowData: array<byte>, buffer: seq<byte>, pos: int, length: int)
    requires 0 <= length <= rowData.Length && 0 <= pos && pos + length <= |buffer|
    modifies rowData
    ensures forall k :: 0 <= k < length ==> rowData[k] == buffer[pos + k]
  {
    forall k | 0 <= k < length {
      rowData[k] := buffer[pos + k];
    }
  }

  /**
   * The per-sample branch: `rowData` holds the `length` bytes read from
   * `pos`, exactly up to the last sample of the row, and every
   * `pixelStride`-th of them goes to the next output slot.
   */
  method ScatterRow(data: array<byte>, rowData: array<byte>, buffer: seq<byte>, pos: int, w: int,
                    pixelStride: int, outputStride: int, channelOffset: int, length: int)
    returns (nextOffset: int)
    requires data != rowData
    requires w >= 0 && pixelStride >= 1 && (outputStride == 1 || outputStride == 2)
    requires length == (w - 1) * pixelStride + 1 && 0 <= length <= rowData.Length
    requires 0 <= pos && pos + length <= |buffer|
    requires forall k :: 0 <= k < length ==> rowData[k] == buffer[pos + k]
    requires 0 <= channelOffset && (w > 0 ==> channelOffset + (w - 1) * outputStride < data.Length)
    modifies data
    ensures nextOffset == channelOffset + w * outputStride
    ensures forall c :: 0 <= c < w ==>
      0 <= Slot(channelOffset, outputStride, c) < data.Length && 0 <= Slot(pos, pixelStride, c) < |buffer| &&
      data[Slot(channelOffset, outputStride, c)] == buffer[Slot(pos, pixelStride, c)]
    ensures UnchangedOutside(data[..], old(data[..]), channelOffset, outputStride, w)
  {
    nextOffset := channelOffset;
    var col := 0;
    while col < w
      invariant 0 <= col <= w
      invariant nextOffset == Slot(channelOffset, outputStride, col)
      invariant Scattered(data[..], old(data[..]), buffer, pos, pixelStride, channelOffset, outputStride, col)
    {
      ScatterStep(col, w, pixelStride, outputStride, length, channelOffset, data.Length);
      ghost var before := data[..];
      data[nextOffset] := rowData[col * pixelStride];
      assert data[..] == before[Slot(channelOffset, outputStride, col) := buffer[Slot(pos, pixelStride, col)]];
      ScatterOne(before, data[..], old(data[..]), buffer, pos, pixelStride, channelOffset, outputStride, col);
      nextOffset := nextOffset + outputStride;
      col := col + 1;
    }
  }

  /**
   * The first `n` samples of a row, `pixelStride` apart from `pos` in
   * `buffer`, sit in the first `n` slots of the run at `base` stepping by
   * `stride`, and nothing else differs from `orig`.
   */
  ghost predicate Scattered(out: seq<byte>, orig: seq<byte>, buffer: seq<byte>, pos: int, pixelStride: int,
                            base: int, stride: int, n: int)
    requires stride == 1 || stride == 2
  {
    && (forall c :: 0 <= c < n ==>
          0 <= Slot(base, stride, c) < |out| && 0 <= Slot(pos, pixelStride, c) < |buffer| &&
          out[Slot(base, stride, c)] == buffer[Slot(pos, pixelStride, c)])
    && UnchangedOutside(out, orig, base, stride, n)
  }

  /** Writing sample `col` into its slot extends a scattered prefix by one. */
  lemma ScatterOne(before: seq<byte>, after: seq<byte>, orig: seq<byte>, buffer: seq<byte>, pos: int,
                   pixelStride: int, base: int, stride: int, col: int)
    requires stride == 1 || stride == 2
    requires col >= 0
    requires Scattered(before, orig, buffer, pos, pixelStride, base, stride, col)
    requires 0 <= Slot(base, stride, col) < |before| && 0 <= Slot(pos, pixelStride, col) < |buffer|
    requires after == before[Slot(base, stride, col) := buffer[Slot(pos, pixelStride, col)]]
    ensures Scattered(after, orig, buffer, pos, pixelStride, base, stride, col + 1)
  {
    SlotStrided(base, stride, col, col + 1);
    StridedWider(base, stride, col);
    forall c | 0 <= c < col
      ensures Slot(base, stride, c) < Slot(base, stride, col)
    {
      MulMonotone(c + 1, col, stride);
    }
  }

  /** Sample `col` of a scattered row is read inside `rowData` and written inside the output. */
  lemma ScatterStep(col: int, w: int, pixelStride: int, outputStride: int, length: int,
                    channelOffset: int, dataLength: int)
    requires 0 <= col < w && pixelStride >= 1 && outputStride >= 1
    requires length == (w - 1) * pixelStride + 1
    requires 0 <= channelOffset && channelOffset + (w - 1) * outputStride < dataLength
    ensures 0 <= col * pixelStride < length
    ensures 0 <= Slot(channelOffset, outputStride, col) < dataLength
  {
    MulMonotone(col, w - 1, pixelStride);
    MulMonotone(col, w - 1, outputStride);
    MulMonotone(0, col, pixelStride);
    MulMonotone(0, col, outputStride);
  }

  /** After row `row` is copied, rows `0..row` are in place (the earlier rows lie before the new one). */
  lemma RowAppended(before: seq<byte>, after: seq<byte>, p: Plane, w: int, h: int, top: int, left: int,
                    stride: int, offset: int, row: int, pos: int)
    requires stride == 1 || stride == 2
    requires 0 <= row < h && w >= 0 && offset >= 0 && |before| == |after|
    requires w * h > 0 ==> offset + (w * h - 1) * stride < |after|
    requires pos == RowStart(p, top, left, row)
    requires PlaneCopied(before, p, w, row, top, left, stride, offset)
    requires forall c :: 0 <= c < w ==>
      0 <= Slot(offset + row * w * stride, stride, c) < |after| && 0 <= Slot(pos, p.pixelStride, c) < |p.buffer| &&
      after[Slot(offset + row * w * stride, stride, c)] == p.buffer[Slot(pos, p.pixelStride, c)]
    requires UnchangedOutside(after, before, offset + row * w * stride, stride, w)
    ensures PlaneCopied(after, p, w, row + 1, top, left, stride, offset)
  {
    forall r, c | 0 <= r <= row && 0 <= c < w
      ensures 0 <= OutIndex(offset, stride, w, r, c) < |after|
      ensures 0 <= SampleIndex(p, top, left, r, c) < |p.buffer|
      ensures after[OutIndex(offset, stride, w, r, c)] == p.buffer[SampleIndex(p, top, left, r, c)]
    {
      var k := OutIndex(offset, stride, w, r, c);
      if r == row {
        OutIndexSplit(offset, stride, w, r, c);
        SampleIndexSplit(p, top, left, r, c);
      } else {
        EarlierRowBelow(offset, stride, w, r, c, row);
        assert !Strided(k, offset + row * w * stride, stride, w);
        assert after[k] == before[k];
      }
    }
  }

  lemma OutIndexSplit(offset: int, stride: int, w: int, r: int, c: int)
    ensures OutIndex(offset, stride, w, r, c) == Slot(offset + r * w * stride, stride, c)
  {
  }

  lemma RowStartNext(p: Plane, top: int, left: int, r: int)
    ensures RowStart(p, top, left, r + 1) == RowStart(p, top, left, r) + p.rowStride
  {
  }

  lemma SampleIndexSplit(p: Plane, top: int, left: int, r: int, c: int)
    ensures SampleIndex(p, top, left, r, c) == Slot(RowStart(p, top, left, r), p.pixelStride, c)
  {
  }

  lemma EarlierRowBelow(offset: int, stride: int, w: int, r: int, c: int, row: int)
    requires 0 <= r < row && 0 <= c < w && stride >= 1
    ensures OutIndex(offset, stride, w, r, c) < offset + row * w * stride
  {
    MulMonotone(r + 1, row, w);
    MulMonotone(r * w + c + 1, row * w, stride);
  }

  /** Row `row` of a plane is read inside the buffer and written inside the output. */
  lemma RowInBounds(p: Plane, w: int, h: int, top: int, left: int, stride: int, rowDataLength: int,
                    offset: int, dataLength: int, row: int)
    requires stride == 1 || stride == 2
    requires PlaneFits(p, w, h, top, left, stride, rowDataLength)
    requires 0 <= offset && (w * h > 0 ==> offset + (w * h - 1) * stride < dataLength)
    requires 0 <= row < h
    ensures 0 <= RowStart(p, top, left, row)
    ensures RowStart(p, top, left, row) + RowLength(w, p.pixelStride, stride) <= |p.buffer|
    ensures 0 <= offset + row * w * stride
    ensures w > 0 ==> offset + row * w * stride + (w - 1) * stride < dataLength
    ensures forall c :: 0 <= c < w ==> 0 <= Slot(RowStart(p, top, left, row), p.pixelStride, c) < |p.buffer|
  {
    RowReadInBounds(p, w, h, top, left, stride, rowDataLength, row);
    RowWriteInBounds(offset, dataLength, w, h, stride, row);
  }

  /** Row `row` of a plane is read inside the buffer. */
  lemma RowReadInBounds(p: Plane, w: int, h: int, top: int, left: int, stride: int, rowDataLength: int, row: int)
    requires PlaneFits(p, w, h, top, left, stride, rowDataLength)
    requires 0 <= row < h
    ensures 0 <= RowStart(p, top, left, row)
    ensures RowStart(p, top, left, row) + RowLength(w, p.pixelStride, stride) <= |p.buffer|
    ensures forall c :: 0 <= c < w ==> 0 <= Slot(RowStart(p, top, left, row), p.pixelStride, c) < |p.buffer|
  {
    var base := RowStart(p, top, left, row);
    MulMonotone(0, top + row, p.rowStride);
    MulMonotone(0, left, p.pixelStride);
    assert base + RowLength(w, p.pixelStride, stride) <= |p.buffer|;
    SlotsInRow(base, p.pixelStride, w, |p.buffer|);
  }

  /** A row of `w` samples `pixelStride` apart from `base` on stays below `n`. */
  lemma SlotsInRow(base: int, pixelStride: int, w: int, n: int)
    requires 0 <= base && pixelStride >= 1 && (w > 0 ==> base + (w - 1) * pixelStride + 1 <= n)
    ensures forall c :: 0 <= c < w ==> 0 <= Slot(base, pixelStride, c) < n
  {
    forall c | 0 <= c < w
      ensures 0 <= Slot(base, pixelStride, c) < n
    {
      MulMonotone(c, w - 1, pixelStride);
      MulMonotone(0, c, pixelStride);
    }
  }

  /** Output row `row` of a plane written `stride` apart from `offset` on stays inside the output. */
  lemma RowWriteInBounds(offset: int, dataLength: int, w: int, h: int, stride: int, row: int)
    requires stride >= 1 && w >= 0 && 0 <= row < h
    requires 0 <= offset && (w * h > 0 ==> offset + (w * h - 1) * stride < dataLength)
    ensures 0 <= offset + row * w * stride
    ensures w > 0 ==> offset + row * w * stride + (w - 1) * stride < dataLength
  {
    MulMonotone(0, row * w, stride);
    MulMonotone(0, row, w);
    if w > 0 {
      CellBounds(row, w - 1, w, h);
      MulMonotone(row * w + w - 1, h * w - 1, stride);
      assert offset + row * w * stride + (w - 1) * stride == offset + (row * w + w - 1) * stride;
    }
  }

  /**
   * The row loop of one plane: the buffer is positioned at the cropped
   * origin, and between rows it is moved on by `rowStride - length`, so row
   * `r` is read from exactly `r * rowStride` past the origin.
   */
  method CopyPlane(data: array<byte>, rowData: array<byte>, p: Plane, w: int, h: int, top: int, left: int,
                   outputStride: int, channelOffset: int)
    returns (nextOffset: int)
    requires data != rowData
    requires outputStride == 1 || outputStride == 2
    requires PlaneFits(p, w, h, top, left, outputStride, rowData.Length)
    requires 0 <= channelOffset && (w * h > 0 ==> channelOffset + (w * h - 1) * outputStride < data.Length)
    modifies data, rowData
    ensures nextOffset == channelOffset + h * w * outputStride
    ensures PlaneCopied(data[..], p, w, h, top, left, outputStride, channelOffset)
    ensures UnchangedOutside(data[..], old(data[..]), channelOffset, outputStride, h * w)
  {
    var pos := RowStart(p, top, left, 0);
    nextOffset := channelOffset;
    var row := 0;
    while row < h
      invariant 0 <= row <= h
      invariant nextOffset == channelOffset + row * w * outputStride
      invariant row < h ==> pos == RowStart(p, top, left, row)
      invariant PlaneCopied(data[..], p, w, row, top, left, outputStride, channelOffset)
      invariant UnchangedOutside(data[..], old(data[..]), channelOffset, outputStride, row * w)
    {
      RowInBounds(p, w, h, top, left, outputStride, rowData.Length, channelOffset, data.Length, row);
      ghost var before := data[..];
      var length;
      length, nextOffset := CopyRow(data, rowData, p.buffer, pos, w, p.pixelStride, outputStride, nextOffset);
      RowAppended(before, data[..], p, w, h, top, left, outputStride, channelOffset, row, pos);
      NextRow(row, w, outputStride);
      RowStartNext(p, top, left, row);
      FrameGrows(data[..], before, old(data[..]), channelOffset, outputStride, row * w, w);
      pos := pos + length;
      if row < h - 1 {
        pos := pos + p.rowStride - length;
      }
      row := row + 1;
    }
  }

  // ---------------------------------------------------------------------------
  // Where the planes go.

  /** The layout guarantee for plane `i` alone. */
  lemma PlaneFitsAt(image: Image, colorFormat: int, i: int)
    requires ImageFits(image, colorFormat) && 0 <= i < |image.planes|
    ensures PlaneFits(image.planes[i], Shifted(CropWidth(image), i), Shifted(CropHeight(image), i),
                      Shifted(image.cropRect.top, i), Shifted(image.cropRect.left, i), OutputStride(i, colorFormat),
                      image.planes[0].rowStride)
  {
  }

  /** Every plane's region of the output lies inside the `width * height * 12 / 8` bytes. */
  lemma PlaneInBounds(width: int, height: int, colorFormat: int, i: int)
    requires width >= 0 && height >= 0 && IsColorFormatAccepted(colorFormat) && 0 <= i <= 2
    ensures 0 <= ChannelOffset(width, height, i, colorFormat)
    ensures var n := Shifted(width, i) * Shifted(height, i);
      n > 0 ==> ChannelOffset(width, height, i, colorFormat) + (n - 1) * OutputStride(i, colorFormat) < width * height * 12 / 8
  {
    var x := width * height;
    MulMonotone(0, width, height);
    QuarterBound(width, height);
    assert 5 * width * height / 4 == x + x / 4;
    assert x * 12 / 8 == x + x / 2;
    if i == 0 && x > 0 {
      assert Shifted(width, i) * Shifted(height, i) == x;
    }
  }

  /** Copying plane `i` leaves an earlier plane `j` where it was: their output slots never meet. */
  lemma PlaneKept(before: seq<byte>, after: seq<byte>, image: Image, colorFormat: int, j: int, i: int)
    requires IsColorFormatAccepted(colorFormat)
    requires 0 <= image.cropRect.left <= image.cropRect.right && 0 <= image.cropRect.top <= image.cropRect.bottom
    requires 0 <= j < i < |image.planes| && i <= 2
    requires PlanePlaced(before, image, colorFormat, j)
    requires UnchangedOutside(after, before, ChannelOffset(CropWidth(image), CropHeight(image), i, colorFormat),
                              OutputStride(i, colorFormat), Shifted(CropWidth(image), i) * Shifted(CropHeight(image), i))
    ensures PlanePlaced(after, image, colorFormat, j)
  {
    var width, height := CropWidth(image), CropHeight(image);
    var w, h := Shifted(width, j), Shifted(height, j);
    var offset, stride := ChannelOffset(width, height, j, colorFormat), OutputStride(j, colorFormat);
    var p := image.planes[j];
    var top, left := Shifted(image.cropRect.top, j), Shifted(image.cropRect.left, j);
    forall r, c | 0 <= r < h && 0 <= c < w
      ensures 0 <= OutIndex(offset, stride, w, r, c) < |after|
      ensures 0 <= SampleIndex(p, top, left, r, c) < |p.buffer|
      ensures after[OutIndex(offset, stride, w, r, c)] == p.buffer[SampleIndex(p, top, left, r, c)]
    {
      SlotsApart(width, height, colorFormat, j, i, r, c);
    }
  }

  /** Sample (`r`, `c`) of plane `j` lands outside the slots of a later plane `i`. */
  lemma SlotsApart(width: int, height: int, colorFormat: int, j: int, i: int, r: int, c: int)
    requires width >= 0 && height >= 0 && IsColorFormatAccepted(colorFormat)
    requires 0 <= j < i <= 2
    requires 0 <= r < Shifted(height, j) && 0 <= c < Shifted(width, j)
    ensures !Strided(OutIndex(ChannelOffset(width, height, j, colorFormat), OutputStride(j, colorFormat), Shifted(width, j), r, c),
                     ChannelOffset(width, height, i, colorFormat), OutputStride(i, colorFormat),
                     Shifted(width, i) * Shifted(height, i))
  {
    if j == 0 {
      LumaApart(width, height, colorFormat, i, r, c);
    } else if colorFormat == COLOR_FORMAT_I420 {
      I420ChromaApart(width, height, r, c);
    } else {
      var m := r * Shifted(width, 1) + c;
      assert OutIndex(width * height + 1, 2, Shifted(width, 1), r, c) == width * height + 1 + 2 * m;
      OddSlot(width * height, m, Shifted(width, 2) * Shifted(height, 2));
    }
  }

  lemma LumaApart(width: int, height: int, colorFormat: int, i: int, r: int, c: int)
    requires width >= 0 && height >= 0 && IsColorFormatAccepted(colorFormat)
    requires 1 <= i <= 2 && 0 <= r < height && 0 <= c < width
    ensures !Strided(OutIndex(0, 1, width, r, c), ChannelOffset(width, height, i, colorFormat), OutputStride(i, colorFormat),
                     Shifted(width, i) * Shifted(height, i))
  {
    var x := width * height;
    CellBounds(r, c, width, height);
    assert OutIndex(0, 1, width, r, c) == r * width + c < x;
    assert x <= 5 * x / 4;
    SlotBelow(r * width + c, ChannelOffset(width, height, i, colorFormat), OutputStride(i, colorFormat),
              Shifted(width, i) * Shifted(height, i));
  }

  lemma I420ChromaApart(width: int, height: int, r: int, c: int)
    requires width >= 0 && height >= 0
    requires 0 <= r < height / 2 && 0 <= c < width / 2
    ensures !Strided(OutIndex(width * height, 1, width / 2, r, c), 5 * (width * height) / 4, 1, (width / 2) * (height / 2))
  {
    var x := width * height;
    CellBounds(r, c, width / 2, height / 2);
    QuarterBound(width, height);
    assert (height / 2) * (width / 2) == (width / 2) * (height / 2);
    assert 5 * x / 4 == x + x / 4;
    SlotBelow(x + r * (width / 2) + c, 5 * x / 4, 1, (width / 2) * (height / 2));
  }

  lemma SlotBelow(k: int, base: int, stride: int, n: int)
    requires k < base && (stride == 1 || stride == 2)
    ensures !Strided(k, base, stride, n)
  {
  }

  lemma OddSlot(x: int, m: int, n: int)
    ensures !Strided(x + 1 + 2 * m, x, 2, n)
  {
    assert (1 + 2 * m) % 2 == 1;
  }

  /**
   * `getDataFromImage`: the accepted colour formats are I420 and NV21, the
   * accepted image formats YUV_420_888, NV21 and YV12; the result holds
   * `width * height * 3 / 2` bytes of the crop rectangle, the luma plane
   * row by row first, then for I420 the whole of plane 1 followed by the
   * whole of plane 2 at `width * height * 5 / 4`, and for NV21 plane 2 and
   * plane 1 interleaved (plane 2's samples on the even slots from
   * `width * height`, plane 1's on the odd slots).
   */
  method GetDataFromImage(image: Image, colorFormat: int) returns (r: Result<array<byte>, ConvertError>)
    requires IsColorFormatAccepted(colorFormat) && IsImageFormatSupported(image.format) ==> ImageFits(image, colorFormat)
    ensures !IsColorFormatAccepted(colorFormat) ==> r == Err(IllegalArgument)
    ensures IsColorFormatAccepted(colorFormat) && !IsImageFormatSupported(image.format) ==>
      r == Err(UnsupportedFormat(image.format))
    ensures IsColorFormatAccepted(colorFormat) && IsImageFormatSupported(image.format) ==>
      && r.Ok? && r.value.Length == CropWidth(image) * CropHeight(image) * 3 / 2
      && Packed(r.value[..], image, colorFormat) && ZeroOutside(r.value[..], image, colorFormat)
  {
    if colorFormat != COLOR_FORMAT_I420 && colorFormat != COLOR_FORMAT_NV21 {
      return Err(IllegalArgument);
    }
    if !IsImageFormatSupported(image.format) {
      return Err(UnsupportedFormat(image.format));
    }
    var crop := image.cropRect;
    var width := crop.right - crop.left;
    var height := crop.bottom - crop.top;
    var planes := image.planes;
    MulMonotone(0, width, height);
    var data := new byte[width * height * BitsPerPixel(image.format) / 8](_ => 0);
    var rowData := new byte[planes[0].rowStride](_ => 0);
    for i := 0 to |planes|
      invariant forall j :: 0 <= j < i ==> PlanePlaced(data[..], image, colorFormat, j)
      invariant forall k :: 0 <= k < data.Length && !Covered(k, width, height, colorFormat, i) ==> data[k] == 0
    {
      ghost var before := data[..];
      CopyPlaneOf(data, rowData, image, colorFormat, i);
      forall j | 0 <= j < i
        ensures PlanePlaced(data[..], image, colorFormat, j)
      {
        PlaneKept(before, data[..], image, colorFormat, j, i);
      }
      forall k | 0 <= k < data.Length && !Covered(k, width, height, colorFormat, i + 1)
        ensures data[k] == 0
      {
        CoveredStep(k, width, height, colorFormat, i);
        assert data[..][k] == before[k];
      }
    }
    return Ok(data);
  }

  /**
   * One pass of the loop over planes: the switch picks the plane's first
   * output slot and the step between its slots, the shift halves the
   * chroma planes' size and crop origin, and the plane is copied.
   */
  method CopyPlaneOf(data: array<byte>, rowData: array<byte>, image: Image, colorFormat: int, i: int)
    requires IsColorFormatAccepted(colorFormat) && ImageFits(image, colorFormat)
    requires 0 <= i < |image.planes| && data != rowData
    requires data.Length == CropWidth(image) * CropHeight(image) * 12 / 8
    requires rowData.Length == image.planes[0].rowStride
    modifies data, rowData
    ensures PlanePlaced(data[..], image, colorFormat, i)
    ensures UnchangedOutside(data[..], old(data[..]), ChannelOffset(CropWidth(image), CropHeight(image), i, colorFormat),
                             OutputStride(i, colorFormat), Shifted(CropWidth(image), i) * Shifted(CropHeight(image), i))
  {
    var crop := image.cropRect;
    var width := crop.right - crop.left;
    var height := crop.bottom - crop.top;
    var channelOffset, outputStride;
    if i == 0 {
      channelOffset := 0;
      outputStride := 1;
    } else if i == 1 {
      if colorFormat == COLOR_FORMAT_I420 {
        channelOffset := width * height;
        outputStride := 1;
      } else {
        channelOffset := width * height + 1;
        outputStride := 2;
      }
    } else {
      if colorFormat == COLOR_FORMAT_I420 {
        channelOffset := 5 * (width * height) / 4;
        outputStride := 1;
      } else {
        channelOffset := width * height;
        outputStride := 2;
      }
    }
    CopyShiftedPlane(data, rowData, image, colorFormat, i, channelOffset, outputStride);
  }

  /**
   * The rest of one pass of the loop over planes, once the switch has picked
   * `channelOffset` and `outputStride`: the shift halves the chroma planes'
   * size and crop origin, and the plane is copied.
   */
  method CopyShiftedPlane(data: array<byte>, rowData: array<byte>, image: Image, colorFormat: int, i: int,
                          channelOffset: int, outputStride: int)
    requires IsColorFormatAccepted(colorFormat) && ImageFits(image, colorFormat)
    requires 0 <= i < |image.planes| && data != rowData
    requires data.Length == CropWidth(image) * CropHeight(image) * 12 / 8
    requires rowData.Length == image.planes[0].rowStride
    requires channelOffset == ChannelOffset(CropWidth(image), CropHeight(image), i, colorFormat)
    requires outputStride == OutputStride(i, colorFormat)
    modifies data, rowData
    ensures PlanePlaced(data[..], image, colorFormat, i)
    ensures UnchangedOutside(data[..], old(data[..]), channelOffset, outputStride,
                             Shifted(CropWidth(image), i) * Shifted(CropHeight(image), i))
  {
    var crop := image.cropRect;
    var width := crop.right - crop.left;
    var height := crop.bottom - crop.top;
    var shift := if i == 0 then 0 else 1;
    var w := if shift == 0 then width else width / 2;
    var h := if shift == 0 then height else height / 2;
    var top := if shift == 0 then crop.top else crop.top / 2;
    var left := if shift == 0 then crop.left else crop.left / 2;
    assert w == Shifted(CropWidth(image), i) && h == Shifted(CropHeight(image), i);
    assert top == Shifted(crop.top, i) && left == Shifted(crop.left, i);
    PlaneFitsAt(image, colorFormat, i);
    PlaneInBounds(width, height, colorFormat, i);
    assert w * h == h * w;
    var _ := CopyPlane(data, rowData, image.planes[i], w, h, top, left, outputStride, channelOffset);
  }

  // ---------------------------------------------------------------------------
  // The layout, sample by sample.

  /** Luma sample (`r`, `c`) of the crop rectangle is output byte `r * width + c`, in either colour format. */
  lemma LumaAt(out: seq<byte>, image: Image, colorFormat: int, r: int, c: int)
    requires 1 <= |image.planes| && Packed(out, image, colorFormat)
    requires 0 <= r < CropHeight(image) && 0 <= c < CropWidth(image)
    ensures var y := image.planes[0];
      && 0 <= r * CropWidth(image) + c < |out|
      && 0 <= SampleIndex(y, image.cropRect.top, image.cropRect.left, r, c) < |y.buffer|
      && out[r * CropWidth(image) + c] == y.buffer[SampleIndex(y, image.cropRect.top, image.cropRect.left, r, c)]
  {
    assert PlanePlaced(out, image, colorFormat, 0);
    assert OutIndex(0, 1, CropWidth(image), r, c) == r * CropWidth(image) + c;
  }

  /**
   * I420: chroma sample (`r`, `c`) of plane 1 is output byte
   * `width * height + r * (width / 2) + c`, and that of plane 2 the byte
   * `width * height * 5 / 4` further on by the same amount.
   */
  lemma I420ChromaAt(out: seq<byte>, image: Image, r: int, c: int)
    requires |image.planes| == 3 && Packed(out, image, COLOR_FORMAT_I420)
    requires 0 <= r < CropHeight(image) / 2 && 0 <= c < CropWidth(image) / 2
    ensures var x, m := CropWidth(image) * CropHeight(image), r * (CropWidth(image) / 2) + c;
      var top, left := image.cropRect.top / 2, image.cropRect.left / 2;
      var u, v := image.planes[1], image.planes[2];
      && 0 <= x + m < |out| && 0 <= 5 * x / 4 + m < |out|
      && 0 <= SampleIndex(u, top, left, r, c) < |u.buffer| && 0 <= SampleIndex(v, top, left, r, c) < |v.buffer|
      && out[x + m] == u.buffer[SampleIndex(u, top, left, r, c)]
      && out[5 * x / 4 + m] == v.buffer[SampleIndex(v, top, left, r, c)]
  {
    var x, w := CropWidth(image) * CropHeight(image), CropWidth(image) / 2;
    assert PlanePlaced(out, image, COLOR_FORMAT_I420, 1);
    assert PlanePlaced(out, image, COLOR_FORMAT_I420, 2);
    assert OutIndex(x, 1, w, r, c) == x + (r * w + c);
    assert OutIndex(5 * x / 4, 1, w, r, c) == 5 * x / 4 + (r * w + c);
  }

  /**
   * NV21: the chroma samples interleave from byte `width * height`, plane
   * 2's sample (`r`, `c`) first and plane 1's right after it.
   */
  lemma Nv21ChromaAt(out: seq<byte>, image: Image, r: int, c: int)
    requires |image.planes| == 3 && Packed(out, image, COLOR_FORMAT_NV21)
    requires 0 <= r < CropHeight(image) / 2 && 0 <= c < CropWidth(image) / 2
    ensures var x, m := CropWidth(image) * CropHeight(image), r * (CropWidth(image) / 2) + c;
      var top, left := image.cropRect.top / 2, image.cropRect.left / 2;
      var u, v := image.planes[1], image.planes[2];
      && 0 <= x + 2 * m && x + 2 * m + 1 < |out|
      && 0 <= SampleIndex(u, top, left, r, c) < |u.buffer| && 0 <= SampleIndex(v, top, left, r, c) < |v.buffer|
      && out[x + 2 * m] == v.buffer[SampleIndex(v, top, left, r, c)]
      && out[x + 2 * m + 1] == u.buffer[SampleIndex(u, top, left, r, c)]
  {
    var x, w := CropWidth(image) * CropHeight(image), CropWidth(image) / 2;
    assert PlanePlaced(out, image, COLOR_FORMAT_NV21, 1);
    assert PlanePlaced(out, image, COLOR_FORMAT_NV21, 2);
    assert OutIndex(x, 2, w, r, c) == x + 2 * (r * w + c);
    assert OutIndex(x + 1, 2, w, r, c) == x + 2 * (r * w + c) + 1;
  }

  // ---------------------------------------------------------------------------
  // The whole array.

  /** The slots of the first `i + 1` planes are those of the first `i` and those of plane `i`. */
  lemma CoveredStep(k: int, width: int, height: int, colorFormat: int, i: int)
    requires 0 <= i <= 2
    ensures Covered(k, width, height, colorFormat, i + 1) <==>
      Covered(k, width, height, colorFormat, i) || InPlane(k, width, height, colorFormat, i)
  {
  }

  /**
   * With an even crop width and height the three planes tile the array:
   * every byte of it is the slot of some plane, so no zero of the new array
   * is left over.
   */
  lemma PlanesTileFrame(width: int, height: int, colorFormat: int, k: int)
    requires width >= 0 && height >= 0 && width % 2 == 0 && height % 2 == 0
    requires IsColorFormatAccepted(colorFormat)
    requires 0 <= k < width * height * 12 / 8
    ensures Covered(k, width, height, colorFormat, 3)
  {
    var a, b := width / 2, height / 2;
    var q := a * b;
    assert width * height == 4 * q by {
      assert width == 2 * a && height == 2 * b;
    }
    assert Shifted(width, 1) * Shifted(height, 1) == q;
    assert Shifted(width, 2) * Shifted(height, 2) == q;
    assert width * height * 12 / 8 == 6 * q;
    if k < 4 * q {
      assert InPlane(k, width, height, colorFormat, 0);
    } else if colorFormat == COLOR_FORMAT_I420 {
      assert 5 * (width * height) / 4 == 5 * q;
      if k < 5 * q {
        assert InPlane(k, width, height, colorFormat, 1);
      } else {
        assert InPlane(k, width, height, colorFormat, 2);
      }
    } else if (k - 4 * q) % 2 == 0 {
      assert InPlane(k, width, height, colorFormat, 2);
    } else {
      assert InPlane(k, width, height, colorFormat, 1);
    }
  }

  /** A slot of a run of `w * h` slots is the output index of one sample (`r`, `c`). */
  lemma SlotSample(k: int, base: int, stride: int, w: int, h: int) returns (r: int, c: int)
    requires stride == 1 || stride == 2
    requires w >= 0 && h >= 0 && Strided(k, base, stride, w * h)
    ensures 0 <= r < h && 0 <= c < w && k == OutIndex(base, stride, w, r, c)
  {
    var m := (k - base) / stride;
    assert k - base == m * stride;
    assert 0 <= m < h * w by {
      if m >= w * h {
        MulMonotone(w * h, m, stride);
      }
    }
    r, c := DivideBelow(m, w, h);
  }

  /**
   * The image alone fixes the packed array: two arrays of the same length
   * that both hold every plane where the colour format puts it and 0
   * everywhere else are equal, whatever the crop size and plane count.
   */
  lemma PackedDetermines(a: seq<byte>, b: seq<byte>, image: Image, colorFormat: int)
    requires IsColorFormatAccepted(colorFormat) && |image.planes| <= 3 && |a| == |b|
    requires 0 <= image.cropRect.left <= image.cropRect.right && 0 <= image.cropRect.top <= image.cropRect.bottom
    requires Packed(a, image, colorFormat) && ZeroOutside(a, image, colorFormat)
    requires Packed(b, image, colorFormat) && ZeroOutside(b, image, colorFormat)
    ensures a == b
  {
    var width, height := CropWidth(image), CropHeight(image);
    forall k | 0 <= k < |a|
      ensures a[k] == b[k]
    {
      if Covered(k, width, height, colorFormat, |image.planes|) {
        var i := if InPlane(k, width, height, colorFormat, 0) then 0
                 else if InPlane(k, width, height, colorFormat, 1) then 1 else 2;
        var r, c := SlotSample(k, ChannelOffset(width, height, i, colorFormat), OutputStride(i, colorFormat),
                               Shifted(width, i), Shifted(height, i));
        assert PlanePlaced(a, image, colorFormat, i) && PlanePlaced(b, image, colorFormat, i);
      }
    }
  }

  /**
   * A 1 x 1 NV21 image whose chroma planes have pixel stride 2 is accepted:
   * its chroma planes have no rows, so no chroma row is read, and the
   * result is the one luma byte.
   */
  lemma OnePixelNv21Fits(luma: byte)
    ensures var image := Image(YUV_420_888, Rect(0, 0, 1, 1), [Plane([luma], 1, 1), Plane([], 2, 2), Plane([], 2, 2)]);
      && ImageFits(image, COLOR_FORMAT_NV21)
      && CropWidth(image) * CropHeight(image) * 3 / 2 == 1
      && forall out: seq<byte> :: |out| == 1 && Packed(out, image, COLOR_FORMAT_NV21) ==> out == [luma]
  {
    var image := Image(YUV_420_888, Rect(0, 0, 1, 1), [Plane([luma], 1, 1), Plane([], 2, 2), Plane([], 2, 2)]);
    assert CropWidth(image) == 1 && CropHeight(image) == 1;
    forall i | 0 <= i < 3
      ensures PlaneFits(image.planes[i], Shifted(1, i), Shifted(1, i), Shifted(0, i), Shifted(0, i),
                        OutputStride(i, COLOR_FORMAT_NV21), 1)
    {
      if i == 0 {
        assert RowStart(image.planes[0], 0, 0, 0) == 0;
        assert RowLength(1, 1, OutputStride(0, COLOR_FORMAT_NV21)) == 1;
      } else {
        assert Shifted(1, i) == 0 && Shifted(0, i) == 0;
      }
    }
    forall out: seq<byte> | |out| == 1 && Packed(out, image, COLOR_FORMAT_NV21)
      ensures out == [luma]
    {
      var p := image.planes[0];
      assert PlanePlaced(out, image, COLOR_FORMAT_NV21, 0);
      assert ChannelOffset(CropWidth(image), CropHeight(image), 0, COLOR_FORMAT_NV21) == 0;
      assert PlaneCopied(out, p, 1, 1, 0, 0, 1, 0);
      assert out[OutIndex(0, 1, 1, 0, 0)] == p.buffer[SampleIndex(p, 0, 0, 0, 0)];
      assert out[0] == luma;
    }
  }
}
