/**
 * Raster geometry of `renderImgData`: the effective width, height and read
 * stride, the byte offset read for each effective pixel, and the pixel read
 * itself.
 *
 * The buffer is 4 bytes per pixel (R, G, B, A), row-major, `WIDTH_PX * scale`
 * pixels wide. With `vflip` the effective row y is read from buffer row
 * `y * stride`; without it, from row `(HEIGHT_PX - 1) * scale - y * stride - 1`.
 * A read outside the buffer gives `undefined` channels, here `None`.
 */
module Raster {
  import opened Wrappers
  import opened Quantizer

  const WIDTH_PX: nat := 320
  const HEIGHT_PX: nat := 200

  /** Effective width and height of one frame, and the read stride in buffer pixels. */
  datatype Geometry = Geometry(width: nat, height: nat, stride: int)

  /** `heightPx`, `widthPx` and `offsetMultiplier`. */
  function GeometryOf(halfResolution: bool, scale: int): (g: Geometry)
    ensures halfResolution ==> g.width == 160 && g.height == 100 && g.stride == 2 * scale
    ensures !halfResolution ==> g.width == 320 && g.height == 200 && g.stride == scale
    ensures g.width > 0 && g.height > 0
  {
    if halfResolution then Geometry(WIDTH_PX / 2, HEIGHT_PX / 2, 2 * scale)
    else Geometry(WIDTH_PX, HEIGHT_PX, scale)
  }

  /** The buffer row that effective row `y` is read from. */
  function RowIndex(y: int, vflip: bool, scale: int, stride: int): int {
    if vflip then y * stride else (HEIGHT_PX - 1) * scale - y * stride - 1
  }

  /**
   * The two read orders mirror each other: the unflipped row of y and the
   * flipped row of y add up to `199 * scale - 1`, so the unflipped order runs
   * one row short of a true mirror image. With a positive stride, flipped
   * rows go down the buffer as y grows and unflipped rows go up.
   */
  lemma RowIndexMirror(y: int, y': int, scale: int, stride: int)
    ensures RowIndex(y, false, scale, stride) + RowIndex(y, true, scale, stride) == (HEIGHT_PX - 1) * scale - 1
    ensures stride > 0 && y < y' ==> RowIndex(y, true, scale, stride) < RowIndex(y', true, scale, stride)
    ensures stride > 0 && y < y' ==> RowIndex(y', false, scale, stride) < RowIndex(y, false, scale, stride)
  {
    if stride > 0 && y < y' {
      MulLe(y + 1, y', stride);
    }
  }

  /** `offst`: the byte offset of the red channel read for effective pixel (x, y); always a pixel boundary. */
  function Offset(x: int, y: int, vflip: bool, scale: int, g: Geometry): (o: int)
    ensures o % 4 == 0
  {
    (RowIndex(y, vflip, scale, g.stride) * (WIDTH_PX * scale) + x * g.stride) * 4
  }

  /** Size of the buffer the WebGL path allocates for a given scale: `scale * scale` times the 320x200 RGBA frame. */
  function BufferSize(scale: int): (size: int)
    ensures size == 256000 * (scale * scale)
  {
    WIDTH_PX * scale * HEIGHT_PX * scale * 4
  }

  /** The channels at `offst`, `offst + 1` and `offst + 2`; `None` if any is outside the buffer. */
  function ReadPixel(img: seq<int>, offst: int): (px: Option<Color>)
    ensures px.Some? <==> 0 <= offst && offst + 2 < |img|
    ensures px.Some? ==> px.value == Color(img[offst], img[offst + 1], img[offst + 2])
  {
    if 0 <= offst && offst + 2 < |img| then Some(Color(img[offst], img[offst + 1], img[offst + 2]))
    else None
  }

  /** The pixel read for effective position (x, y). */
  function Sample(img: seq<int>, x: int, y: int, vflip: bool, scale: int, g: Geometry): Option<Color> {
    ReadPixel(img, Offset(x, y, vflip, scale, g))
  }

  /** Channel i of a colour: 0 red, 1 green, 2 blue. */
  function Channel(c: Color, i: int): int {
    if i == 0 then c.r else if i == 1 then c.g else c.b
  }

  /** A buffer painted in one colour: every red, green and blue byte holds that colour's channel. */
  predicate SolidImage(img: seq<int>, c: Color) {
    forall p :: 0 <= p < |img| && p % 4 < 3 ==> img[p] == Channel(c, p % 4)
  }

  /** Every read is aligned to a pixel, so a defined read of a solid buffer gives its colour. */
  lemma SolidImageReads(img: seq<int>, c: Color, x: int, y: int, vflip: bool, scale: int, g: Geometry)
    requires SolidImage(img, c)
    ensures Sample(img, x, y, vflip, scale, g).Some? ==> Sample(img, x, y, vflip, scale, g) == Some(c)
  {
    var o := Offset(x, y, vflip, scale, g);
    if 0 <= o && o + 2 < |img| {
      assert (o + 1) % 4 == 1 && (o + 2) % 4 == 2;
      assert img[o] == c.r && img[o + 1] == c.g && img[o + 2] == c.b;
    }
  }

  lemma MulLe(a: int, b: int, c: int)
    requires a <= b && 0 <= c
    ensures a * c <= b * c
  {
  }

  /** A buffer row within 0..199*s and a column within 0..319*s lie inside BufferSize(s). */
  lemma CellInBuffer(row: int, col: int, s: int)
    requires s >= 1 && 0 <= row <= 199 * s && 0 <= col <= 319 * s
    ensures 0 <= (row * (WIDTH_PX * s) + col) * 4
    ensures (row * (WIDTH_PX * s) + col) * 4 + 2 < BufferSize(s)
  {
    MulLe(0, row, WIDTH_PX * s);
    MulLe(row, 199 * s, WIDTH_PX * s);
    assert 199 * s * (WIDTH_PX * s) == 63680 * (s * s);
    MulLe(1, s, s);
  }

  /**
   * For scale >= 1, the read at effective pixel (x, y) lies inside the
   * `WIDTH_PX*scale * HEIGHT_PX*scale * 4` buffer exactly when the frame is
   * flipped, or half-resolution, or y is not the last full-resolution row.
   */
  lemma ReadInBufferIff(x: int, y: int, vflip: bool, halfResolution: bool, scale: int)
    requires scale >= 1
    requires 0 <= x < GeometryOf(halfResolution, scale).width
    requires 0 <= y < GeometryOf(halfResolution, scale).height
    ensures var o := Offset(x, y, vflip, scale, GeometryOf(halfResolution, scale));
            0 <= o && o + 2 < BufferSize(scale)
            <==> vflip || halfResolution || y < HEIGHT_PX - 1
  {
    var g := GeometryOf(halfResolution, scale);
    var m := g.stride;
    var f := if halfResolution then 2 else 1;
    assert m == f * scale;
    var row := RowIndex(y, vflip, scale, m);
    // y * m <= 199 * scale in both resolutions, and <= 198 * scale below the last row
    MulLe(0, x, m);
    MulLe(0, y, m);
    MulLe(x * f, 319, scale);
    assert x * m == (x * f) * scale;
    assert y * m == (y * f) * scale;
    if vflip || halfResolution || y < HEIGHT_PX - 1 {
      if vflip {
        MulLe(y * f, 199, scale);
      } else {
        MulLe(y * f, 198, scale);
        MulLe(1, 199 - y * f, scale);
        assert (199 - y * f) * scale == 199 * scale - y * m;
      }
      CellInBuffer(row, x * m, scale);
    } else {
      BottomRowReadsBeforeBuffer(x, scale);
    }
  }

  /**
   * Without flip at full resolution, the last effective row (y = 199) is read
   * from buffer row -1, so every read of that row starts before the buffer.
   */
  lemma BottomRowReadsBeforeBuffer(x: int, scale: int)
    requires scale >= 1 && 0 <= x < WIDTH_PX
    ensures RowIndex(HEIGHT_PX - 1, false, scale, scale) == -1
    ensures Offset(x, HEIGHT_PX - 1, false, scale, GeometryOf(false, scale)) < 0
  {
    MulLe(x - WIDTH_PX, -1, scale);
    assert -1 * (WIDTH_PX * scale) + x * scale == (x - WIDTH_PX) * scale;
  }
}
