/**
 * `Camera1Hook.rgb2YCbCr420` and `getYUVByBitmap`: turning a bitmap's
 * packed pixels into the YUV 4:2:0 frame handed to a still-capture
 * callback — one luma byte per pixel, then one line of interleaved
 * (U, V) pairs per two pixel rows.
 */
module YuvConvert {
  import opened Common

  /** `ArrayIndexOutOfBoundsException` from a chroma write past the end of the frame. */
  datatype ConvertError = IndexOutOfBounds(index: int)

  /** A decoded bitmap: its size and the pixels `getPixels` reports, row by row. */
  datatype Bitmap = Bitmap(width: int, height: int, pixels: seq<int32>)

  // ---------------------------------------------------------------------------
  // One pixel.

  /** `pixel & 0x00FFFFFF`: the low 24 bits. */
  function Rgb(pixel: int32): int {
    pixel as int % 0x100_0000
  }

  /** The byte the conversion calls `r`: bits 0-7. */
  function Red(pixel: int32): int {
    Rgb(pixel) % 0x100
  }

  /** The byte the conversion calls `g`: bits 8-15. */
  function Green(pixel: int32): int {
    Rgb(pixel) / 0x100 % 0x100
  }

  /** The byte the conversion calls `b`: bits 16-23. */
  function Blue(pixel: int32): int {
    Rgb(pixel) / 0x1_0000 % 0x100
  }

  function Clamp(lo: int, hi: int, x: int): int
    requires lo <= hi
  {
    if x < lo then lo else if x > hi then hi else x
  }

  /** The integer BT.601 studio-swing weights, before clamping (`>> 8` is floor division by 256). */
  function RawY(pixel: int32): int {
    (66 * Red(pixel) + 129 * Green(pixel) + 25 * Blue(pixel) + 128) / 256 + 16
  }

  function RawU(pixel: int32): int {
    (-38 * Red(pixel) - 74 * Green(pixel) + 112 * Blue(pixel) + 128) / 256 + 128
  }

  function RawV(pixel: int32): int {
    (112 * Red(pixel) - 94 * Green(pixel) - 18 * Blue(pixel) + 128) / 256 + 128
  }

  /** `(byte) Math.max(16, Math.min(255, y))`. */
  function LumaByte(pixel: int32): byte {
    Clamp(16, 255, RawY(pixel)) as byte
  }

  /** `(byte) Math.max(0, Math.min(255, u))`. */
  function UByte(pixel: int32): byte {
    Clamp(0, 255, RawU(pixel)) as byte
  }

  /** `(byte) Math.max(0, Math.min(255, v))`. */
  function VByte(pixel: int32): byte {
    Clamp(0, 255, RawV(pixel)) as byte
  }

  /**
   * The weights keep every 8-bit input inside the studio-swing ranges of
   * Rec. ITU-R BT.601 (luma 16..235, chroma 16..240), so none of the three
   * clamps ever changes a value.
   */
  lemma ClampsNeverApply(pixel: int32)
    ensures 16 <= RawY(pixel) <= 235 && LumaByte(pixel) as int == RawY(pixel)
    ensures 16 <= RawU(pixel) <= 240 && UByte(pixel) as int == RawU(pixel)
    ensures 16 <= RawV(pixel) <= 240 && VByte(pixel) as int == RawV(pixel)
  {
    var r, g, b := Red(pixel), Green(pixel), Blue(pixel);
    assert 0 <= r < 256 && 0 <= g < 256 && 0 <= b < 256;
    var y := 66 * r + 129 * g + 25 * b + 128;
    assert 128 <= y <= 220 * 255 + 128;
    var u := -38 * r - 74 * g + 112 * b + 128;
    assert -112 * 255 + 128 <= u <= 112 * 255 + 128;
    var v := 112 * r - 94 * g - 18 * b + 128;
    assert -112 * 255 + 128 <= v <= 112 * 255 + 128;
  }

  // ---------------------------------------------------------------------------
  // The frame layout.

  /** Output index of chroma slot `col` of chroma line `line` (the line serving pixel rows `2 * line` and `2 * line + 1`). */
  function ChromaIndex(len: int, width: int, line: int, col: int): int {
    len + line * width + col
  }

  /** `len + (i >> 1) * width + (j & ~1)`: where pixel (`i`, `j`) writes its U byte; V goes one further. */
  function UIndex(len: int, width: int, i: int, j: int): int {
    len + (i / 2) * width + (j - j % 2)
  }

  /** Of the U write at `u` and the V write after it, the one a frame of `n` bytes refuses first. */
  function FailingWrite(u: int, n: int): int {
    if u < n then u + 1 else u
  }

  /**
   * The pixel whose U or V byte a chroma slot finally holds: every pixel of
   * a 2x2 block writes the same (U, V) pair of slots, so the last one in
   * scan order wins — the block's bottom-right pixel.
   */
  function ChromaSource(width: int, line: int, col: int): int {
    (2 * line + 1) * width + (col - col % 2) + 1
  }

  /** Even slots of a chroma line hold U, odd slots V. */
  function ChromaByte(pixels: seq<int32>, width: int, line: int, col: int): byte
    requires 0 <= ChromaSource(width, line, col) < |pixels|
  {
    var p := pixels[ChromaSource(width, line, col)];
    if col % 2 == 0 then UByte(p) else VByte(p)
  }

  /** Chroma slot (`line`, `col`) of `out` holds its final value. */
  ghost predicate SlotHolds(out: seq<byte>, pixels: seq<int32>, len: int, width: int, line: int, col: int) {
    && 0 <= ChromaIndex(len, width, line, col) < |out|
    && 0 <= ChromaSource(width, line, col) < |pixels|
    && out[ChromaIndex(len, width, line, col)] == ChromaByte(pixels, width, line, col)
  }

  /** The first `n` bytes of `out` are the luma of the first `n` pixels. */
  ghost predicate LumaDone(out: seq<byte>, pixels: seq<int32>, n: int) {
    0 <= n <= |out| && n <= |pixels| && forall k :: 0 <= k < n ==> out[k] == LumaByte(pixels[k])
  }

  /**
   * Scanning has reached pixel (`i`, `j`) and no later pixel writes slot
   * (`line`, `col`) any more: its whole block is behind the scan.
   */
  predicate Settled(i: int, j: int, line: int, col: int) {
    line < i / 2 || (i % 2 == 1 && line == i / 2 && col - col % 2 + 2 <= j)
  }

  ghost predicate ChromaSettled(out: seq<byte>, pixels: seq<int32>, len: int, width: int, i: int, j: int) {
    forall line, col :: 0 <= line && 0 <= col < width && Settled(i, j, line, col) ==>
      SlotHolds(out, pixels, len, width, line, col)
  }

  /** The frame of a `width` x `height` image: all luma bytes, then all chroma lines. */
  ghost predicate IsYuv420(out: seq<byte>, pixels: seq<int32>, width: int, height: int) {
    var len := width * height;
    && |out| == len * 3 / 2
    && LumaDone(out, pixels, len)
    && forall line, col :: 0 <= line < height / 2 && 0 <= col < width ==> SlotHolds(out, pixels, len, width, line, col)
  }

  /**
   * With both sides even the chroma lines tile the rest of the frame: every
   * byte past the luma is some slot (`line`, `col`), so `IsYuv420` fixes
   * every byte of the frame.
   */
  lemma ChromaTilesFrame(width: int, height: int, k: int) returns (line: int, col: int)
    requires width > 0 && height >= 0 && width % 2 == 0 && height % 2 == 0
    requires width * height <= k < width * height * 3 / 2
    ensures 0 <= line < height / 2 && 0 <= col < width
    ensures k == ChromaIndex(width * height, width, line, col)
  {
    var len := width * height;
    HalfFrame(width, height);
    line, col := DivideBelow(k - len, width, height / 2);
  }

  /** With an even height the chroma lines take half as many bytes as the luma. */
  lemma HalfFrame(width: int, height: int)
    requires height % 2 == 0
    ensures width * height * 3 / 2 == width * height + (height / 2) * width
  {
    var m := height / 2;
    assert width * height == 2 * (m * width) by {
      assert height == 2 * m;
    }
  }

  // ---------------------------------------------------------------------------
  // When the writes stay inside the frame.

  /** With both sides even, every pixel's (U, V) pair lies inside the `len * 3 / 2` bytes. */
  lemma ChromaFits(width: int, height: int, i: int, j: int)
    requires width % 2 == 0 && height % 2 == 0
    requires 0 <= i < height && 0 <= j < width
    ensures 0 <= UIndex(width * height, width, i, j)
    ensures UIndex(width * height, width, i, j) + 1 < width * height * 3 / 2
  {
    var len := width * height;
    var m := height / 2;
    assert len == 2 * (m * width) by {
      assert height == 2 * m;
    }
    MulMonotone(0, i / 2, width);
    MulMonotone(i / 2, m - 1, width);
    assert (m - 1) * width == m * width - width;
  }

  /**
   * The last pixel's V byte fits only when both sides are even: an odd
   * width pushes the final pair one whole line too far, an odd height adds
   * a chroma line the frame has no room for.
   */
  lemma LastPairFits(width: int, height: int)
    requires width > 0 && height > 0
    requires UIndex(width * height, width, height - 1, width - 1) + 1 < width * height * 3 / 2
    ensures width % 2 == 0 && height % 2 == 0
  {
    if width % 2 == 1 {
      OddWidthOverflows(width, height);
    } else if height % 2 == 1 {
      OddHeightOverflows(width, height);
    }
  }

  /** With an odd width the last pixel's pair ends a whole line past the chroma it has room for. */
  lemma OddWidthOverflows(width: int, height: int)
    requires width > 0 && height > 0 && width % 2 == 1
    ensures UIndex(width * height, width, height - 1, width - 1) + 1 >= width * height * 3 / 2
  {
    var len, m, p := width * height, height / 2, (height / 2) * width;
    assert UIndex(len, width, height - 1, width - 1) + 1 == len + ((height - 1) / 2) * width + width;
    if height % 2 == 0 {
      assert len == 2 * p by {
        assert height == 2 * m;
      }
      assert ((height - 1) / 2) * width == p - width by {
        assert (height - 1) / 2 == m - 1;
      }
    } else {
      assert len == 2 * p + width by {
        assert height == 2 * m + 1;
      }
      assert (height - 1) / 2 == m;
    }
  }

  /** With an even width and an odd height the last chroma line has no room. */
  lemma OddHeightOverflows(width: int, height: int)
    requires width > 0 && height > 0 && width % 2 == 0 && height % 2 == 1
    ensures UIndex(width * height, width, height - 1, width - 1) + 1 >= width * height * 3 / 2
  {
    var len, m, p := width * height, height / 2, (height / 2) * width;
    assert len == 2 * p + width by {
      assert height == 2 * m + 1;
    }
    assert (height - 1) / 2 == m;
    assert UIndex(len, width, height - 1, width - 1) + 1 == len + p + width - 1;
  }

  // ---------------------------------------------------------------------------
  // Why the scan leaves the frame it does.

  /** Distinct slots of the chroma lines are distinct bytes. */
  lemma ChromaIndexInjective(len: int, width: int, l1: int, c1: int, l2: int, c2: int)
    requires 0 <= c1 < width && 0 <= c2 < width
    requires ChromaIndex(len, width, l1, c1) == ChromaIndex(len, width, l2, c2)
    ensures l1 == l2 && c1 == c2
  {
    if l1 < l2 {
      MulMonotone(l1 + 1, l2, width);
    } else if l2 < l1 {
      MulMonotone(l2 + 1, l1, width);
    }
  }

  /**
   * One pixel of the scan: its luma byte, then its U and V bytes. The slots
   * that settle at this step are exactly the pair it writes, and no settled
   * slot is written again.
   */
  lemma PixelStep(before: seq<byte>, after: seq<byte>, pixels: seq<int32>, width: int, height: int, i: int, j: int)
    requires width % 2 == 0 && 0 <= i < height && 0 <= j < width
    requires |pixels| == width * height && |before| == width * height * 3 / 2
    requires 0 <= i * width + j < width * height <= UIndex(width * height, width, i, j)
    requires UIndex(width * height, width, i, j) + 1 < |before|
    requires after == before[i * width + j := LumaByte(pixels[i * width + j])]
                            [UIndex(width * height, width, i, j) := UByte(pixels[i * width + j])]
                            [UIndex(width * height, width, i, j) + 1 := VByte(pixels[i * width + j])]
    requires ChromaSettled(before, pixels, width * height, width, i, j)
    ensures ChromaSettled(after, pixels, width * height, width, i, j + 1)
  {
    var len, y, u := width * height, i * width + j, UIndex(width * height, width, i, j);
    forall line, col | 0 <= line && 0 <= col < width && Settled(i, j + 1, line, col)
      ensures SlotHolds(after, pixels, len, width, line, col)
    {
      SlotAfterPixel(before, after, pixels, len, width, i, j, y, u, line, col);
    }
  }

  /** One slot after pixel (`i`, `j`), whose luma byte is `y` and whose U byte is `u`. */
  lemma SlotAfterPixel(before: seq<byte>, after: seq<byte>, pixels: seq<int32>, len: int, width: int,
                       i: int, j: int, y: int, u: int, line: int, col: int)
    requires width % 2 == 0 && 0 <= i && 0 <= j < width
    requires y == i * width + j && u == UIndex(len, width, i, j)
    requires 0 <= y < len <= u && u + 1 < |before| && |pixels| == len
    requires after == before[y := LumaByte(pixels[y])][u := UByte(pixels[y])][u + 1 := VByte(pixels[y])]
    requires 0 <= line && 0 <= col < width && Settled(i, j + 1, line, col)
    requires Settled(i, j, line, col) ==> SlotHolds(before, pixels, len, width, line, col)
    ensures SlotHolds(after, pixels, len, width, line, col)
  {
    if Settled(i, j, line, col) {
      PairKeepsSettled(before, after, pixels, len, width, i, j, y, u, line, col);
    } else {
      NewPairSlot(len, width, i, j, line, col);
      NewlySettled(before, after, pixels, len, width, y, u, line, col);
    }
  }

  /** A slot already settled before pixel (`i`, `j`) survives that pixel's writes. */
  lemma PairKeepsSettled(before: seq<byte>, after: seq<byte>, pixels: seq<int32>, len: int, width: int,
                         i: int, j: int, y: int, u: int, line: int, col: int)
    requires width % 2 == 0 && 0 <= i && 0 <= j < width && u == UIndex(len, width, i, j)
    requires 0 <= y < len <= u && u + 1 < |before| && |pixels| == len
    requires after == before[y := LumaByte(pixels[y])][u := UByte(pixels[y])][u + 1 := VByte(pixels[y])]
    requires 0 <= line && 0 <= col < width && Settled(i, j, line, col)
    requires SlotHolds(before, pixels, len, width, line, col)
    ensures SlotHolds(after, pixels, len, width, line, col)
  {
    SettledBeforePair(i, j, line, col);
    PairInLine(j, width);
    SettledKept(before, after, pixels, len, width, y, u, i / 2, j - j % 2,
                LumaByte(pixels[y]), UByte(pixels[y]), VByte(pixels[y]), line, col);
  }

  /** On a line of even width the V byte of a pixel's pair is still on the line. */
  lemma PairInLine(j: int, width: int)
    requires width % 2 == 0 && 0 <= j < width
    ensures j - j % 2 + 1 < width
  {
    assert j - j % 2 == 2 * (j / 2);
    assert width == 2 * (width / 2);
  }

  /** A slot settled before pixel (`i`, `j`) is not one of the pair that pixel writes. */
  lemma SettledBeforePair(i: int, j: int, line: int, col: int)
    requires 0 <= j && Settled(i, j, line, col)
    ensures !(line == i / 2 && (col == j - j % 2 || col == j - j % 2 + 1))
  {
  }

  /** Writing one luma byte and a (U, V) pair leaves every other chroma slot as it was. */
  lemma SettledKept(before: seq<byte>, after: seq<byte>, pixels: seq<int32>, len: int, width: int,
                    y: int, u: int, pairLine: int, pairCol: int, a: byte, b: byte, c: byte, line: int, col: int)
    requires 0 <= y < len <= u && 0 <= pairLine && 0 <= pairCol && pairCol + 1 < width
    requires u == ChromaIndex(len, width, pairLine, pairCol) && u + 1 < |before|
    requires after == before[y := a][u := b][u + 1 := c]
    requires 0 <= line && 0 <= col < width
    requires !(line == pairLine && (col == pairCol || col == pairCol + 1))
    requires SlotHolds(before, pixels, len, width, line, col)
    ensures SlotHolds(after, pixels, len, width, line, col)
  {
    ChromaApart(len, width, y, pairLine, pairCol, line, col);
    SlotKept(before, after, pixels, len, width, line, col, y, u, a, b, c);
  }

  /** A chroma slot other than the pair at (`pairLine`, `pairCol`) is neither that pair nor a luma byte. */
  lemma ChromaApart(len: int, width: int, y: int, pairLine: int, pairCol: int, line: int, col: int)
    requires 0 <= y < len && 0 <= pairLine && 0 <= pairCol && pairCol + 1 < width
    requires 0 <= line && 0 <= col < width
    requires !(line == pairLine && (col == pairCol || col == pairCol + 1))
    ensures ChromaIndex(len, width, line, col) != y
    ensures ChromaIndex(len, width, line, col) != ChromaIndex(len, width, pairLine, pairCol)
    ensures ChromaIndex(len, width, line, col) != ChromaIndex(len, width, pairLine, pairCol) + 1
  {
    MulMonotone(0, line, width);
    var k, u := ChromaIndex(len, width, line, col), ChromaIndex(len, width, pairLine, pairCol);
    if k == u {
      ChromaIndexInjective(len, width, line, col, pairLine, pairCol);
    } else if k == u + 1 {
      assert u + 1 == ChromaIndex(len, width, pairLine, pairCol + 1);
      ChromaIndexInjective(len, width, line, col, pairLine, pairCol + 1);
    }
  }

  /** Three point writes that miss a slot's byte leave the slot holding its value. */
  lemma SlotKept(before: seq<byte>, after: seq<byte>, pixels: seq<int32>, len: int, width: int, line: int, col: int,
                 y: int, u: int, a: byte, b: byte, c: byte)
    requires SlotHolds(before, pixels, len, width, line, col)
    requires 0 <= y < |before| && 0 <= u && u + 1 < |before|
    requires after == before[y := a][u := b][u + 1 := c]
    requires ChromaIndex(len, width, line, col) != y
    requires ChromaIndex(len, width, line, col) != u && ChromaIndex(len, width, line, col) != u + 1
    ensures SlotHolds(after, pixels, len, width, line, col)
  {
  }

  /** The slots that settle at pixel (`i`, `j`) are the pair it writes, and it is their source. */
  lemma NewPairSlot(len: int, width: int, i: int, j: int, line: int, col: int)
    requires 0 <= i && 0 <= j < width && 0 <= line && 0 <= col < width
    requires Settled(i, j + 1, line, col) && !Settled(i, j, line, col)
    ensures ChromaSource(width, line, col) == i * width + j
    ensures ChromaIndex(len, width, line, col) == UIndex(len, width, i, j) + col % 2
  {
    assert line == i / 2 && col - col % 2 == j - 1 && i % 2 == 1;
    assert 2 * line + 1 == i;
  }

  /** A slot whose source is pixel `y` holds that pixel's U or V once the pair at `u` is written. */
  lemma NewlySettled(before: seq<byte>, after: seq<byte>, pixels: seq<int32>, len: int, width: int,
                     y: int, u: int, line: int, col: int)
    requires 0 <= y < len <= u && u + 1 < |before| && |pixels| == len
    requires after == before[y := LumaByte(pixels[y])][u := UByte(pixels[y])][u + 1 := VByte(pixels[y])]
    requires ChromaSource(width, line, col) == y && ChromaIndex(len, width, line, col) == u + col % 2
    ensures SlotHolds(after, pixels, len, width, line, col)
  {
  }

  lemma CellInImage(width: int, height: int, i: int, j: int)
    requires 0 <= i < height && 0 <= j < width
    ensures 0 <= i * width + j < width * height
  {
    MulMonotone(0, i, width);
    MulMonotone(i + 1, height, width);
  }

  /** Writing pixel `y`'s luma, and a chroma pair at or past the luma bytes, extends the done luma by one. */
  lemma LumaStep(before: seq<byte>, after: seq<byte>, pixels: seq<int32>, y: int, u: int, ub: byte, vb: byte)
    requires LumaDone(before, pixels, y) && y < |pixels|
    requires y < u && u + 1 < |before|
    requires after == before[y := LumaByte(pixels[y])][u := ub][u + 1 := vb]
    ensures LumaDone(after, pixels, y + 1)
  {
  }

  /** At the end of a row the settled slots are those settled at the start of the next. */
  lemma RowEnd(out: seq<byte>, pixels: seq<int32>, len: int, width: int, i: int)
    requires width % 2 == 0 && 0 <= i
    requires ChromaSettled(out, pixels, len, width, i, width)
    ensures ChromaSettled(out, pixels, len, width, i + 1, 0)
  {
    forall line, col | 0 <= line && 0 <= col < width && Settled(i + 1, 0, line, col)
      ensures SlotHolds(out, pixels, len, width, line, col)
    {
      SettledNextRow(i, width, line, col);
    }
  }

  /** A slot settled at the start of row `i + 1` was settled by the end of row `i`. */
  lemma SettledNextRow(i: int, width: int, line: int, col: int)
    requires width % 2 == 0 && 0 <= i && 0 <= line && 0 <= col < width
    requires Settled(i + 1, 0, line, col)
    ensures Settled(i, width, line, col)
  {
    PairInLine(col, width);
    assert line < (i + 1) / 2;
    if i % 2 == 0 {
      assert (i + 1) / 2 == i / 2;
    } else {
      assert (i + 1) / 2 == i / 2 + 1;
    }
  }

  // ---------------------------------------------------------------------------
  // The conversion.

  /**
   * `rgb2YCbCr420`: the frame is `len * 3 / 2` bytes for `len` pixels. When
   * both sides are even, the scan fills it: luma byte `k` is pixel `k`'s,
   * and each chroma slot holds the U (even slot) or V (odd slot) of the
   * bottom-right pixel of its 2x2 block. When the image has pixels and a
   * side is odd, some (U, V) pair falls past the end and the method fails
   * with an index error carrying the index of the write that failed: the U
   * index when that is already past the end, else the V index after it.
   */
  method Rgb2YCbCr420(pixels: seq<int32>, width: int, height: int) returns (r: Result<array<byte>, ConvertError>)
    requires width >= 0 && height >= 0 && |pixels| == width * height
    ensures r.Ok? <==> width * height == 0 || (width % 2 == 0 && height % 2 == 0)
    ensures r.Ok? ==> IsYuv420(r.value[..], pixels, width, height)
    ensures r.Err? ==> var n := width * height * 3 / 2;
      && n <= r.error.index
      && exists i, j :: 0 <= i < height && 0 <= j < width &&
           r.error.index == FailingWrite(UIndex(width * height, width, i, j), n)
  {
    var len := width * height;
    var yuv := new byte[len * 3 / 2](_ => 0);
    var i := 0;
    while i < height
      invariant 0 <= i <= height
      invariant i > 0 && width > 0 ==> UIndex(len, width, i - 1, width - 1) + 1 < yuv.Length
      invariant LumaDone(yuv[..], pixels, i * width)
      invariant width % 2 == 0 ==> ChromaSettled(yuv[..], pixels, len, width, i, 0)
    {
      var ok, index := ConvertRow(yuv, pixels, width, height, i);
      if !ok {
        return Err(IndexOutOfBounds(index));
      }
      if width % 2 == 0 {
        RowEnd(yuv[..], pixels, len, width, i);
      }
      assert i * width + width == (i + 1) * width;
      i := i + 1;
    }
    if len > 0 {
      assert width > 0 && height > 0;
      LastPairFits(width, height);
    }
    if width % 2 == 0 && height % 2 == 0 {
      assert height * width == len;
      forall line, col | 0 <= line < height / 2 && 0 <= col < width
        ensures SlotHolds(yuv[..], pixels, len, width, line, col)
      {
        assert Settled(height, 0, line, col);
      }
    } else {
      assert len == 0;
      assert yuv[..] == [];
    }
    return Ok(yuv);
  }

  /**
   * The inner loop over one pixel row. It stops with `false` at the first
   * chroma write past the end of the frame, which happens only when a side
   * is odd.
   */
  method ConvertRow(yuv: array<byte>, pixels: seq<int32>, width: int, height: int, i: int) returns (ok: bool, index: int)
    requires width >= 0 && 0 <= i < height && |pixels| == width * height
    requires yuv.Length == width * height * 3 / 2
    requires LumaDone(yuv[..], pixels, i * width)
    requires width % 2 == 0 ==> ChromaSettled(yuv[..], pixels, width * height, width, i, 0)
    modifies yuv
    ensures !ok ==> width > 0 && (width % 2 != 0 || height % 2 != 0)
    ensures !ok ==>
      && yuv.Length <= index
      && exists j :: 0 <= j < width && index == FailingWrite(UIndex(width * height, width, i, j), yuv.Length)
    ensures ok ==> width > 0 ==> UIndex(width * height, width, i, width - 1) + 1 < yuv.Length
    ensures ok ==> LumaDone(yuv[..], pixels, i * width + width)
    ensures ok && width % 2 == 0 ==> ChromaSettled(yuv[..], pixels, width * height, width, i, width)
  {
    var len := width * height;
    var j := 0;
    while j < width
      invariant 0 <= j <= width
      invariant j > 0 ==> UIndex(len, width, i, j - 1) + 1 < yuv.Length
      invariant LumaDone(yuv[..], pixels, i * width + j)
      invariant width % 2 == 0 ==> ChromaSettled(yuv[..], pixels, len, width, i, j)
    {
      ok, index := ConvertPixel(yuv, pixels, width, height, i, j);
      if !ok {
        return;
      }
      j := j + 1;
    }
    return true, 0;
  }

  /**
   * Pixel (`i`, `j`) of the scan: its luma byte, then its U byte, then its V
   * byte, each write failing when its index is past the frame.
   */
  method ConvertPixel(yuv: array<byte>, pixels: seq<int32>, width: int, height: int, i: int, j: int)
    returns (ok: bool, index: int)
    requires 0 <= i < height && 0 <= j < width && |pixels| == width * height
    requires yuv.Length == width * height * 3 / 2
    requires LumaDone(yuv[..], pixels, i * width + j)
    requires width % 2 == 0 ==> ChromaSettled(yuv[..], pixels, width * height, width, i, j)
    modifies yuv
    ensures !ok ==> width % 2 != 0 || height % 2 != 0
    ensures !ok ==> index == FailingWrite(UIndex(width * height, width, i, j), yuv.Length) && yuv.Length <= index
    ensures ok ==> UIndex(width * height, width, i, j) + 1 < yuv.Length
    ensures ok ==> LumaDone(yuv[..], pixels, i * width + j + 1)
    ensures ok && width % 2 == 0 ==> ChromaSettled(yuv[..], pixels, width * height, width, i, j + 1)
  {
    var len := width * height;
    CellInImage(width, height, i, j);
    ghost var before := yuv[..];
    var pixel := pixels[i * width + j];
    yuv[i * width + j] := LumaByte(pixel);
    var u := UIndex(len, width, i, j);
    assert u >= len by {
      MulMonotone(0, i / 2, width);
    }
    if u + 1 >= yuv.Length {
      if width % 2 == 0 && height % 2 == 0 {
        ChromaFits(width, height, i, j);
      }
      if u < yuv.Length {
        yuv[u] := UByte(pixel);
      }
      return false, FailingWrite(u, yuv.Length);
    }
    yuv[u] := UByte(pixel);
    yuv[u + 1] := VByte(pixel);
    assert yuv[..] == before[i * width + j := LumaByte(pixel)][u := UByte(pixel)][u + 1 := VByte(pixel)];
    LumaStep(before, yuv[..], pixels, i * width + j, u, UByte(pixel), VByte(pixel));
    if width % 2 == 0 {
      PixelStep(before, yuv[..], pixels, width, height, i, j);
    }
    return true, 0;
  }

  /**
   * `getYUVByBitmap`: no bitmap gives no frame; otherwise its pixels are
   * converted at the bitmap's own size.
   */
  method GetYuvByBitmap(bitmap: Option<Bitmap>) returns (r: Result<Option<array<byte>>, ConvertError>)
    requires bitmap.Some? ==> bitmap.value.width >= 0 && bitmap.value.height >= 0
    requires bitmap.Some? ==> |bitmap.value.pixels| == bitmap.value.width * bitmap.value.height
    ensures bitmap.None? ==> r == Ok(None)
    ensures bitmap.Some? ==> var b := bitmap.value;
      (r.Ok? <==> b.width * b.height == 0 || (b.width % 2 == 0 && b.height % 2 == 0)) &&
      (r.Ok? ==> r.value.Some? && IsYuv420(r.value.value[..], b.pixels, b.width, b.height))
  {
    if bitmap.None? {
      return Ok(None);
    }
    var b := bitmap.value;
    var converted := Rgb2YCbCr420(b.pixels, b.width, b.height);
    if converted.Err? {
      return Err(converted.error);
    }
    return Ok(Some(converted.value));
  }
}
