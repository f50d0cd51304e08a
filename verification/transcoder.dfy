/**
 * The frame-to-columns transcoder of the data source (`renderImgData`).
 *
 * For each effective pixel column x, the rows y = 0, 1, ... are read and
 * quantized in order, threading the colour cache through the whole frame, and
 * the column's palette indices are filed into a `Column`. The columns are then
 * flattened into one `Time` field and 256 value fields of equal length: column
 * i owns a block of `tLen_i` consecutive positions; every position of the
 * block carries the time `start + i * rangeStep * (halfResolution ? 2 : 1)`,
 * and in the value field of palette index k the block holds k's rows of that
 * column, left-aligned, with the remaining positions unset.
 */
module Transcoder {
  import opened Wrappers
  import opened Quantizer
  import opened Raster
  import opened Columns
  import opened Decimal

  /** Number of value fields: one per palette index 0..255. */
  const VALUE_FIELDS: nat := 256

  /** A screen query as the editor stores it; `halfResolution` may be unset. */
  datatype Query = Query(refId: string, halfResolution: Option<bool>)

  /** The `renderContext` of an active screen subscription (subscriber and options left out). */
  datatype RenderContext = RenderContext(refId: string, halfResolution: bool, twindow: real, rangeStep: real)

  datatype Field =
    | TimeField(times: seq<real>)                            // name 'Time', type time
    | ValueField(color: string, values: seq<Option<nat>>)    // name 'Value', labels { color }
  {
    function Len(): nat {
      if TimeField? then |times| else |values|
    }
  }

  datatype DataFrame = DataFrame(name: string, refId: string, fields: seq<Field>)

  /** What is pushed to the subscriber: the frame, keyed by the query's refId, state Streaming. */
  datatype Response = Response(frame: DataFrame, key: string)

  /**
   * Subscription start of a screen query: the query with `halfResolution`
   * defaulted to false, the window `to - from`, and the step `(to - from) / WIDTH_PX`.
   */
  function StartScreenQuery(query: Query, from: real, to: real): (ctx: RenderContext)
    ensures ctx.refId == query.refId
    ensures query.halfResolution.Some? ==> ctx.halfResolution == query.halfResolution.value
    ensures query.halfResolution.None? ==> !ctx.halfResolution
    ensures from + ctx.twindow == to
    ensures ctx.rangeStep * WIDTH_PX as real == to - from
  {
    RenderContext(query.refId, query.halfResolution.GetOr(false), to - from, (to - from) / WIDTH_PX as real)
  }

  /** Subscription teardown: the render context is dropped, so later frames are ignored. */
  function EndScreenQuery(ctx: Option<RenderContext>): (after: Option<RenderContext>)
    ensures after.None?
  {
    None
  }

  // ---------------------------------------------------------------------------
  // Quantizing the frame
  // ---------------------------------------------------------------------------

  /** Palette indices of a run of pixels, and the cache they leave. */
  datatype Quantized = Quantized(indices: seq<nat>, cache: Cache)

  /** Quantizes `pxs` in order, each lookup seeing the cache the previous ones left. */
  function QuantizeAll(palette: Palette, cache: Cache, pxs: seq<Option<Color>>): (q: Quantized)
    ensures |q.indices| == |pxs|
    ensures Extends(cache, q.cache)
    ensures CacheBounded(cache, |palette|) ==> CacheBounded(q.cache, |palette|)
    ensures CacheBounded(cache, |palette|) && |palette| > 0 ==>
              forall i :: 0 <= i < |q.indices| ==> q.indices[i] < |palette|
    decreases |pxs|
  {
    if |pxs| == 0 then Quantized([], cache)
    else
      var q := QuantizeAll(palette, cache, pxs[..|pxs| - 1]);
      var l := GetColorIndex(palette, q.cache, pxs[|pxs| - 1]);
      Quantized(q.indices + [l.index], l.cache)
  }

  /**
   * Every pixel's index is what the cache left by the run holds under the
   * pixel's key: a later lookup never changes an answer already given.
   */
  lemma {:induction false} QuantizedKeysAgree(palette: Palette, cache: Cache, pxs: seq<Option<Color>>, i: nat)
    requires i < |pxs|
    ensures var q := QuantizeAll(palette, cache, pxs);
            KeyOf(pxs[i]) in q.cache && q.cache[KeyOf(pxs[i])] == q.indices[i]
    decreases |pxs|
  {
    var n := |pxs| - 1;
    var pre := pxs[..n];
    var q := QuantizeAll(palette, cache, pre);
    var l := GetColorIndex(palette, q.cache, pxs[n]);
    assert QuantizeAll(palette, cache, pxs) == Quantized(q.indices + [l.index], l.cache);
    if i < n {
      QuantizedKeysAgree(palette, cache, pre, i);
      var key := KeyOf(pxs[i]);
      assert pre[i] == pxs[i];
      assert key in q.cache && q.cache[key] == q.indices[i];
      assert key in l.cache && l.cache[key] == q.cache[key];
      assert (q.indices + [l.index])[i] == q.indices[i];
    }
  }

  /** The keys cached after a run: those cached before it, and the key of every pixel of the run. */
  lemma {:induction false} QuantizedCacheKeys(palette: Palette, cache: Cache, pxs: seq<Option<Color>>, key: Key)
    ensures key in QuantizeAll(palette, cache, pxs).cache <==>
            key in cache || exists j :: 0 <= j < |pxs| && KeyOf(pxs[j]) == key
    decreases |pxs|
  {
    if |pxs| > 0 {
      var n := |pxs| - 1;
      var pre := pxs[..n];
      QuantizedCacheKeys(palette, cache, pre, key);
      var q := QuantizeAll(palette, cache, pre);
      var l := GetColorIndex(palette, q.cache, pxs[n]);
      assert QuantizeAll(palette, cache, pxs).cache == l.cache;
      KeyInRunSnoc(pxs, key);
    }
  }

  /** A key is used in a run iff it is used before the last pixel or by the last pixel. */
  lemma KeyInRunSnoc(pxs: seq<Option<Color>>, key: Key)
    requires |pxs| > 0
    ensures var n := |pxs| - 1;
            (exists j :: 0 <= j < |pxs| && KeyOf(pxs[j]) == key) <==>
            (exists j :: 0 <= j < n && KeyOf(pxs[..n][j]) == key) || KeyOf(pxs[n]) == key
  {
    var n := |pxs| - 1;
    var pre := pxs[..n];
    if j :| 0 <= j < |pxs| && KeyOf(pxs[j]) == key {
      if j < n {
        assert pre[j] == pxs[j];
      }
    }
    if j :| 0 <= j < n && KeyOf(pre[j]) == key {
      assert pre[j] == pxs[j];
    }
  }

  /**
   * Which palette index pixel i of a run gets: the entry cached before the
   * run when its key was there; the first-match scan of the pixel itself when
   * no earlier pixel of the run had its key; and otherwise the index of the
   * earlier pixel with that key.
   */
  lemma {:induction false} QuantizedIndex(palette: Palette, cache: Cache, pxs: seq<Option<Color>>, i: nat)
    requires i < |pxs|
    ensures var q := QuantizeAll(palette, cache, pxs);
            KeyOf(pxs[i]) in cache ==> q.indices[i] == cache[KeyOf(pxs[i])]
    ensures var q := QuantizeAll(palette, cache, pxs);
            KeyOf(pxs[i]) !in cache && (forall j :: 0 <= j < i ==> KeyOf(pxs[j]) != KeyOf(pxs[i])) ==>
              q.indices[i] == MatchIndex(palette, pxs[i])
    ensures var q := QuantizeAll(palette, cache, pxs);
            forall j :: 0 <= j < i && KeyOf(pxs[j]) == KeyOf(pxs[i]) ==> q.indices[i] == q.indices[j]
    decreases |pxs|
  {
    var q := QuantizeAll(palette, cache, pxs);
    var key := KeyOf(pxs[i]);
    var n := |pxs| - 1;
    var pre := pxs[..n];
    var q' := QuantizeAll(palette, cache, pre);
    var l := GetColorIndex(palette, q'.cache, pxs[n]);
    assert q == Quantized(q'.indices + [l.index], l.cache);
    if i < n {
      QuantizedIndex(palette, cache, pre, i);
      assert pre[i] == pxs[i];
      assert q.indices[i] == q'.indices[i];
      if key !in cache && (forall j :: 0 <= j < i ==> KeyOf(pxs[j]) != key) {
        forall j | 0 <= j < i
          ensures KeyOf(pre[j]) != key
        {
          assert pre[j] == pxs[j];
        }
      }
    } else {
      assert q.indices[i] == l.index;
      if key in cache {
        assert key in q'.cache && q'.cache[key] == cache[key];
      }
      if key !in cache && (forall j :: 0 <= j < i ==> KeyOf(pxs[j]) != key) {
        QuantizedCacheKeys(palette, cache, pre, key);
        assert key !in q'.cache;
      }
    }
    forall j | 0 <= j < i && KeyOf(pxs[j]) == key
      ensures q.indices[i] == q.indices[j]
    {
      QuantizedKeysAgree(palette, cache, pxs, i);
      QuantizedKeysAgree(palette, cache, pxs, j);
    }
  }

  /** A run keeps `NaNIsZero`, and every undefined pixel of it gets index 0. */
  lemma {:induction false} QuantizeAllNaNStaysZero(palette: Palette, cache: Cache, pxs: seq<Option<Color>>)
    requires NaNIsZero(cache)
    ensures NaNIsZero(QuantizeAll(palette, cache, pxs).cache)
    decreases |pxs|
  {
    if |pxs| > 0 {
      var n := |pxs| - 1;
      QuantizeAllNaNStaysZero(palette, cache, pxs[..n]);
      NaNStaysZero(palette, QuantizeAll(palette, cache, pxs[..n]).cache, pxs[n]);
    }
  }

  /** The reads of pixel column x, rows 0..n-1 in order. */
  function ColumnPixels(img: seq<int>, vflip: bool, scale: int, g: Geometry, x: int, n: nat): (col: seq<Option<Color>>)
    ensures |col| == n
    decreases n
  {
    if n == 0 then [] else ColumnPixels(img, vflip, scale, g, x, n - 1) + [Sample(img, x, n - 1, vflip, scale, g)]
  }

  /** The reads of pixel columns 0..w-1, each `g.height` rows tall. */
  function ColumnsPixels(img: seq<int>, vflip: bool, scale: int, g: Geometry, w: nat): (pixels: seq<seq<Option<Color>>>)
    ensures |pixels| == w
    ensures forall x :: 0 <= x < w ==> |pixels[x]| == g.height
    decreases w
  {
    if w == 0 then [] else ColumnsPixels(img, vflip, scale, g, w - 1) + [ColumnPixels(img, vflip, scale, g, w - 1, g.height)]
  }

  /** The pixels the frame reads: `pixels[x][y]` is the read for effective position (x, y). */
  function FramePixels(img: seq<int>, vflip: bool, scale: int, g: Geometry): (pixels: seq<seq<Option<Color>>>)
    ensures |pixels| == g.width
    ensures forall x :: 0 <= x < g.width ==> |pixels[x]| == g.height
  {
    ColumnsPixels(img, vflip, scale, g, g.width)
  }

  lemma {:induction false} ColumnPixelIsSample(img: seq<int>, vflip: bool, scale: int, g: Geometry, x: int, n: nat, y: nat)
    requires y < n
    ensures ColumnPixels(img, vflip, scale, g, x, n)[y] == Sample(img, x, y, vflip, scale, g)
    decreases n
  {
    if y < n - 1 {
      ColumnPixelIsSample(img, vflip, scale, g, x, n - 1, y);
    }
  }

  lemma {:induction false} ColumnsPixelIsSample(img: seq<int>, vflip: bool, scale: int, g: Geometry, w: nat, x: nat, y: nat)
    requires x < w && y < g.height
    ensures ColumnsPixels(img, vflip, scale, g, w)[x][y] == Sample(img, x, y, vflip, scale, g)
    decreases w
  {
    if x < w - 1 {
      ColumnsPixelIsSample(img, vflip, scale, g, w - 1, x, y);
    } else {
      ColumnPixelIsSample(img, vflip, scale, g, x, g.height, y);
    }
  }

  /** `pixels[x][y]` is the read at the offset computed for (x, y). */
  lemma FramePixelIsSample(img: seq<int>, vflip: bool, scale: int, g: Geometry, x: nat, y: nat)
    requires x < g.width && y < g.height
    ensures FramePixels(img, vflip, scale, g)[x][y] == Sample(img, x, y, vflip, scale, g)
  {
    ColumnsPixelIsSample(img, vflip, scale, g, g.width, x, y);
  }

  /** The palette index of every effective pixel (`grid[x][y]`), the columns, and the final cache. */
  datatype Transcoded = Transcoded(grid: seq<seq<nat>>, columns: seq<Column>, cache: Cache)

  /** The column loop over the frame's pixel columns, in order, threading the cache. */
  function TranscodeColumns(palette: Palette, cache: Cache, pixels: seq<seq<Option<Color>>>): (t: Transcoded)
    ensures |t.grid| == |pixels| && |t.columns| == |pixels|
    ensures forall x :: 0 <= x < |pixels| ==> |t.grid[x]| == |pixels[x]|
    ensures forall x {:trigger t.columns[x]} :: 0 <= x < |pixels| ==> t.columns[x] == BuildColumn(t.grid[x])
    ensures Extends(cache, t.cache)
    ensures CacheBounded(cache, |palette|) ==> CacheBounded(t.cache, |palette|)
    decreases |pixels|
  {
    if |pixels| == 0 then Transcoded([], [], cache)
    else
      var w := |pixels| - 1;
      var t := TranscodeColumns(palette, cache, pixels[..w]);
      var q := QuantizeAll(palette, t.cache, pixels[w]);
      Transcoded(t.grid + [q.indices], t.columns + [BuildColumn(q.indices)], q.cache)
  }

  /**
   * The frame agrees with the cache it leaves: every pixel's index is the
   * entry of the final cache under that pixel's key.
   */
  lemma {:induction false} FrameMatchesFinalCache(palette: Palette, cache: Cache, pixels: seq<seq<Option<Color>>>,
                                                  x: nat, y: nat)
    requires x < |pixels| && y < |pixels[x]|
    ensures var t := TranscodeColumns(palette, cache, pixels);
            KeyOf(pixels[x][y]) in t.cache && t.cache[KeyOf(pixels[x][y])] == t.grid[x][y]
    decreases |pixels|
  {
    var w := |pixels| - 1;
    var t := TranscodeColumns(palette, cache, pixels);
    var t' := TranscodeColumns(palette, cache, pixels[..w]);
    var q := QuantizeAll(palette, t'.cache, pixels[w]);
    assert t.grid == t'.grid + [q.indices] && t.cache == q.cache;
    if x < w {
      FrameMatchesFinalCache(palette, cache, pixels[..w], x, y);
      assert t.grid[x] == t'.grid[x];
      assert pixels[..w][x] == pixels[x];
    } else {
      QuantizedKeysAgree(palette, t'.cache, pixels[w], y);
    }
  }

  /** With a bounded cache and a non-empty palette, every pixel's index is a palette index. */
  lemma {:induction false} FrameIndicesInPalette(palette: Palette, cache: Cache, pixels: seq<seq<Option<Color>>>,
                                                 x: nat, y: nat)
    requires CacheBounded(cache, |palette|) && |palette| > 0
    requires x < |pixels| && y < |pixels[x]|
    ensures TranscodeColumns(palette, cache, pixels).grid[x][y] < |palette|
    decreases |pixels|
  {
    var w := |pixels| - 1;
    var t := TranscodeColumns(palette, cache, pixels);
    var t' := TranscodeColumns(palette, cache, pixels[..w]);
    var q := QuantizeAll(palette, t'.cache, pixels[w]);
    assert t.grid == t'.grid + [q.indices];
    if x < w {
      assert pixels[..w][x] == pixels[x];
      FrameIndicesInPalette(palette, cache, pixels[..w], x, y);
      assert t.grid[x] == t'.grid[x];
    } else {
      assert CacheBounded(t'.cache, |palette|);
      assert t.grid[x] == q.indices;
    }
  }

  /** Two pixels of one frame with the same cache key get the same palette index. */
  lemma SameKeySameIndex(palette: Palette, cache: Cache, pixels: seq<seq<Option<Color>>>,
                         x1: nat, y1: nat, x2: nat, y2: nat)
    requires x1 < |pixels| && y1 < |pixels[x1]| && x2 < |pixels| && y2 < |pixels[x2]|
    requires KeyOf(pixels[x1][y1]) == KeyOf(pixels[x2][y2])
    ensures var t := TranscodeColumns(palette, cache, pixels);
            t.grid[x1][y1] == t.grid[x2][y2]
  {
    FrameMatchesFinalCache(palette, cache, pixels, x1, y1);
    FrameMatchesFinalCache(palette, cache, pixels, x2, y2);
  }

  /** Pixel (x', y') comes before pixel (x, y) in the column-by-column, top-to-bottom order of the frame loop. */
  predicate Before(pixels: seq<seq<Option<Color>>>, x': int, y': int, x: int, y: int) {
    0 <= x' < |pixels| && 0 <= y' < |pixels[x']| && (x' < x || (x' == x && y' < y))
  }

  /** Some pixel of the frame has cache key `key`. */
  predicate KeyInFrame(pixels: seq<seq<Option<Color>>>, key: Key) {
    exists x, y :: 0 <= x < |pixels| && 0 <= y < |pixels[x]| && KeyOf(pixels[x][y]) == key
  }

  /** The keys cached after a frame: those cached before it, and the key of every pixel of the frame. */
  lemma {:induction false} FrameCacheKeys(palette: Palette, cache: Cache, pixels: seq<seq<Option<Color>>>, key: Key)
    ensures key in TranscodeColumns(palette, cache, pixels).cache <==> key in cache || KeyInFrame(pixels, key)
    decreases |pixels|
  {
    if |pixels| > 0 {
      var w := |pixels| - 1;
      var pre := pixels[..w];
      var t' := TranscodeColumns(palette, cache, pre);
      var q := QuantizeAll(palette, t'.cache, pixels[w]);
      assert TranscodeColumns(palette, cache, pixels).cache == q.cache;
      FrameCacheKeys(palette, cache, pre, key);
      QuantizedCacheKeys(palette, t'.cache, pixels[w], key);
      KeyInFrameSnoc(pixels, key);
    }
  }

  /** A key is in a frame iff it is in the frame without its last column or in that column. */
  lemma KeyInFrameSnoc(pixels: seq<seq<Option<Color>>>, key: Key)
    requires |pixels| > 0
    ensures var w := |pixels| - 1;
            KeyInFrame(pixels, key) <==>
            KeyInFrame(pixels[..w], key) || exists j :: 0 <= j < |pixels[w]| && KeyOf(pixels[w][j]) == key
  {
    var w := |pixels| - 1;
    var pre := pixels[..w];
    if KeyInFrame(pixels, key) {
      var x, y :| 0 <= x < |pixels| && 0 <= y < |pixels[x]| && KeyOf(pixels[x][y]) == key;
      if x < w {
        assert pre[x] == pixels[x];
        assert KeyInFrame(pre, key);
      }
    }
    if KeyInFrame(pre, key) {
      var x, y :| 0 <= x < |pre| && 0 <= y < |pre[x]| && KeyOf(pre[x][y]) == key;
      assert pre[x] == pixels[x];
    }
  }

  /**
   * Which palette index pixel (x, y) of a frame gets: the entry cached before
   * the frame when its key was there, and the first-match scan of the pixel
   * itself when no earlier pixel of the frame had its key. (A pixel whose key
   * an earlier pixel had gets that pixel's index: `SameKeySameIndex`.)
   */
  lemma {:induction false} FramePixelIndex(palette: Palette, cache: Cache, pixels: seq<seq<Option<Color>>>,
                                           x: nat, y: nat)
    requires x < |pixels| && y < |pixels[x]|
    ensures var t := TranscodeColumns(palette, cache, pixels);
            KeyOf(pixels[x][y]) in cache ==> t.grid[x][y] == cache[KeyOf(pixels[x][y])]
    ensures var t := TranscodeColumns(palette, cache, pixels);
            KeyOf(pixels[x][y]) !in cache &&
            (forall x', y' :: Before(pixels, x', y', x, y) ==> KeyOf(pixels[x'][y']) != KeyOf(pixels[x][y])) ==>
              t.grid[x][y] == MatchIndex(palette, pixels[x][y])
    decreases |pixels|
  {
    var key := KeyOf(pixels[x][y]);
    var w := |pixels| - 1;
    var pre := pixels[..w];
    var t := TranscodeColumns(palette, cache, pixels);
    var t' := TranscodeColumns(palette, cache, pre);
    var q := QuantizeAll(palette, t'.cache, pixels[w]);
    assert t.grid == t'.grid + [q.indices];
    if x < w {
      FramePixelIndex(palette, cache, pre, x, y);
      assert pre[x] == pixels[x];
      assert t.grid[x] == t'.grid[x];
      if key !in cache && (forall x', y' :: Before(pixels, x', y', x, y) ==> KeyOf(pixels[x'][y']) != key) {
        forall x', y' | Before(pre, x', y', x, y)
          ensures KeyOf(pre[x'][y']) != key
        {
          assert pre[x'] == pixels[x'];
          assert Before(pixels, x', y', x, y);
        }
      }
    } else {
      assert t.grid[x] == q.indices;
      QuantizedIndex(palette, t'.cache, pixels[w], y);
      if key in cache {
        assert key in t'.cache && t'.cache[key] == cache[key];
      }
      if key !in cache && (forall x', y' :: Before(pixels, x', y', x, y) ==> KeyOf(pixels[x'][y']) != key) {
        FrameCacheKeys(palette, cache, pre, key);
        forall x', y' | 0 <= x' < |pre| && 0 <= y' < |pre[x']|
          ensures KeyOf(pre[x'][y']) != key
        {
          assert pre[x'] == pixels[x'];
          assert Before(pixels, x', y', x, y);
        }
        assert !KeyInFrame(pre, key);
        assert key !in t'.cache;
        forall j | 0 <= j < y
          ensures KeyOf(pixels[w][j]) != key
        {
          assert Before(pixels, w, j, x, y);
        }
      }
    }
  }

  /** In every column of the frame, row y is listed under index k iff pixel (x, y) quantized to k. */
  lemma FrameColumnsPartitionRows(t: Transcoded, h: nat, x: nat, k: nat, y: int)
    requires x < |t.grid| == |t.columns|
    requires |t.grid[x]| == h && t.columns[x] == BuildColumn(t.grid[x])
    ensures y in Rows(t.columns[x], k) <==> 0 <= y < h && t.grid[x][y] == k
  {
    ColumnPartitionsRows(t.grid[x], k, y);
  }

  // ---------------------------------------------------------------------------
  // Flattening into fields
  // ---------------------------------------------------------------------------

  /** `valuesLen`: the sum of the columns' `tLen`. */
  function SumTLen(columns: seq<Column>): nat
    decreases |columns|
  {
    if |columns| == 0 then 0 else SumTLen(columns[..|columns| - 1]) + columns[|columns| - 1].tLen
  }

  /** `valuesLen` adds up over consecutive runs of columns: their blocks lie end to end. */
  lemma {:induction false} SumTLenAppend(a: seq<Column>, b: seq<Column>)
    ensures SumTLen(a + b) == SumTLen(a) + SumTLen(b)
    decreases |b|
  {
    if |b| == 0 {
      assert a + b == a;
    } else {
      var n := |b| - 1;
      assert (a + b)[..|a + b| - 1] == a + b[..n];
      SumTLenAppend(a, b[..n]);
    }
  }

  /** A position of the flattened fields: column `column`, slot `slot` of that column's block. */
  datatype Slot = Slot(column: nat, slot: nat)

  /** The block that flattened position p falls in, and the slot within it. */
  function Locate(columns: seq<Column>, p: nat): (s: Slot)
    requires p < SumTLen(columns)
    ensures s.column < |columns| && s.slot < columns[s.column].tLen
    ensures p == SumTLen(columns[..s.column]) + s.slot
    decreases |columns|
  {
    var n := |columns| - 1;
    if p >= SumTLen(columns[..n]) then Slot(n, p - SumTLen(columns[..n]))
    else
      var s := Locate(columns[..n], p);
      assert columns[..n][..s.column] == columns[..s.column];
      s
  }

  /** The time of column i's block. */
  function TimeAt(start: real, rangeStep: real, halfResolution: bool, i: nat): real {
    start + i as real * rangeStep * (if halfResolution then 2.0 else 1.0)
  }

  /** `timeValues`: `tLen_i` copies of column i's time, for each column in order. */
  function TimeValues(columns: seq<Column>, start: real, rangeStep: real, halfResolution: bool): (ts: seq<real>)
    ensures |ts| == SumTLen(columns)
    decreases |columns|
  {
    if |columns| == 0 then []
    else
      var n := |columns| - 1;
      TimeValues(columns[..n], start, rangeStep, halfResolution)
      + seq(columns[n].tLen, _ => TimeAt(start, rangeStep, halfResolution, n))
  }

  /** Positions before the last block are located as in the prefix without the last column. */
  lemma LocateInPrefix(columns: seq<Column>, p: nat)
    requires |columns| > 0 && p < SumTLen(columns[..|columns| - 1])
    ensures Locate(columns, p) == Locate(columns[..|columns| - 1], p)
  {
  }

  /** Every position of the Time field carries the time of the column whose block it falls in. */
  lemma {:induction false} TimeValuesAt(columns: seq<Column>, start: real, rangeStep: real, halfResolution: bool, p: nat)
    requires p < SumTLen(columns)
    ensures TimeValues(columns, start, rangeStep, halfResolution)[p]
            == TimeAt(start, rangeStep, halfResolution, Locate(columns, p).column)
    decreases |columns|
  {
    var n := |columns| - 1;
    if p < SumTLen(columns[..n]) {
      TimeValuesAt(columns[..n], start, rangeStep, halfResolution, p);
      LocateInPrefix(columns, p);
    }
  }

  /** What slot `slot` of a column's block holds in the value field of index k. */
  function SlotValue(col: Column, k: nat, slot: int): Option<nat> {
    if 0 <= slot < |Rows(col, k)| then Some(Rows(col, k)[slot]) else None
  }

  /** Column `col`'s block in the value field of index k. */
  function Block(col: Column, k: nat): seq<Option<nat>> {
    seq(col.tLen, q => SlotValue(col, k, q))
  }

  /** Reference layout of the value field of palette index k: the columns' blocks in order. */
  function ValueColumn(columns: seq<Column>, k: nat): (vs: seq<Option<nat>>)
    ensures |vs| == SumTLen(columns)
    decreases |columns|
  {
    if |columns| == 0 then []
    else ValueColumn(columns[..|columns| - 1], k) + Block(columns[|columns| - 1], k)
  }

  /**
   * Position p of the value field of index k holds slot s of column i's
   * block, where (i, s) is where p falls: the s-th row of column i listed
   * under k, or unset past the end of that list.
   */
  lemma {:induction false} ValueColumnAt(columns: seq<Column>, k: nat, p: nat)
    requires p < SumTLen(columns)
    ensures ValueColumn(columns, k)[p] == SlotValue(columns[Locate(columns, p).column], k, Locate(columns, p).slot)
    decreases |columns|
  {
    var n := |columns| - 1;
    if p < SumTLen(columns[..n]) {
      ValueColumnAt(columns[..n], k, p);
      LocateInPrefix(columns, p);
      assert columns[..n][Locate(columns, p).column] == columns[Locate(columns, p).column];
    }
  }

  /** Every column's list for index k fits in the column's block. */
  predicate Fits(columns: seq<Column>, k: nat) {
    forall i :: 0 <= i < |columns| ==> |Rows(columns[i], k)| <= columns[i].tLen
  }

  /** `color2H[colorIndex].forEach((c, ii) => values[i + ii] = c)`: writes `rows` from offset i on. */
  method WriteRows(values: seq<Option<nat>>, i: nat, rows: seq<nat>) returns (written: seq<Option<nat>>)
    requires i + |rows| <= |values|
    ensures |written| == |values|
    ensures forall p :: 0 <= p < i ==> written[p] == values[p]
    ensures forall q :: 0 <= q < |rows| ==> written[i + q] == Some(rows[q])
    ensures forall p :: i + |rows| <= p < |values| ==> written[p] == values[p]
  {
    written := values;
    var ii := 0;
    while ii < |rows|
      invariant ii <= |rows|
      invariant |written| == |values|
      invariant forall p :: 0 <= p < i ==> written[p] == values[p]
      invariant forall q :: 0 <= q < ii ==> written[i + q] == Some(rows[q])
      invariant forall p :: i + ii <= p < |values| ==> written[p] == values[p]
    {
      written := written[i + ii := Some(rows[ii])];
      ii := ii + 1;
    }
  }

  /**
   * The value array of palette index k as the source fills it: an array of
   * `valuesLen` unset slots, into which each column writes its rows for k
   * from the start of its block; the block offset then advances by `tLen`.
   */
  method BuildValueField(columns: seq<Column>, k: nat) returns (values: seq<Option<nat>>)
    requires Fits(columns, k)
    ensures values == ValueColumn(columns, k)
  {
    var total := SumTLen(columns);
    values := seq(total, _ => None);
    var i := 0;
    var j := 0;
    assert columns[..0] == [];
    while j < |columns|
      invariant j <= |columns|
      invariant i == SumTLen(columns[..j]) <= total
      invariant values == ValueColumn(columns[..j], k) + seq(total - i, _ => None)
    {
      BlockInBounds(columns, j);
      values := FillColumn(columns, k, j, total, values);
      i := i + columns[j].tLen;
      j := j + 1;
    }
    assert columns[..j] == columns;
  }

  /** One iteration of the column loop: column j writes its rows for k at the start of its block. */
  method FillColumn(columns: seq<Column>, k: nat, j: nat, total: nat, values: seq<Option<nat>>)
    returns (written: seq<Option<nat>>)
    requires j < |columns| && |Rows(columns[j], k)| <= columns[j].tLen
    requires SumTLen(columns[..j]) + columns[j].tLen <= total
    requires values == ValueColumn(columns[..j], k) + seq(total - SumTLen(columns[..j]), _ => None)
    ensures written == ValueColumn(columns[..j + 1], k)
                       + seq(total - (SumTLen(columns[..j]) + columns[j].tLen), _ => None)
  {
    written := WriteRows(values, SumTLen(columns[..j]), Rows(columns[j], k));
    FillBlock(columns, k, j, total, values, written);
  }

  /** Block j starts where the blocks before it end, and ends within the whole. */
  lemma BlockInBounds(columns: seq<Column>, j: nat)
    requires j < |columns|
    ensures SumTLen(columns[..j + 1]) == SumTLen(columns[..j]) + columns[j].tLen <= SumTLen(columns)
  {
    assert columns[..j + 1][..j] == columns[..j];
    SumTLenPrefix(columns, j + 1);
  }

  /**
   * Writing column j's rows for k at the start of its block, into an array
   * whose earlier blocks are done and whose later slots are unset, appends
   * the column's block.
   */
  lemma FillBlock(columns: seq<Column>, k: nat, j: nat, total: nat,
                  values: seq<Option<nat>>, written: seq<Option<nat>>)
    requires j < |columns| && |Rows(columns[j], k)| <= columns[j].tLen
    requires SumTLen(columns[..j]) + columns[j].tLen <= total
    requires values == ValueColumn(columns[..j], k) + seq(total - SumTLen(columns[..j]), _ => None)
    requires |written| == |values|
    requires forall p :: 0 <= p < SumTLen(columns[..j]) ==> written[p] == values[p]
    requires forall q :: 0 <= q < |Rows(columns[j], k)| ==>
               written[SumTLen(columns[..j]) + q] == Some(Rows(columns[j], k)[q])
    requires forall p :: SumTLen(columns[..j]) + |Rows(columns[j], k)| <= p < |values| ==> written[p] == values[p]
    ensures written == ValueColumn(columns[..j + 1], k)
                       + seq(total - (SumTLen(columns[..j]) + columns[j].tLen), _ => None)
  {
    ValueColumnSnoc(columns, j, k);
    var done := ValueColumn(columns[..j], k);
    var col := columns[j];
    var rest := total - (|done| + col.tLen);
    FillBlockInto(done, col, k, rest, values, written);
  }

  lemma FillBlockInto(done: seq<Option<nat>>, col: Column, k: nat, rest: nat,
                      values: seq<Option<nat>>, written: seq<Option<nat>>)
    requires |Rows(col, k)| <= col.tLen
    requires values == done + seq(col.tLen + rest, _ => None)
    requires |written| == |values|
    requires forall p :: 0 <= p < |done| ==> written[p] == values[p]
    requires forall q :: 0 <= q < |Rows(col, k)| ==> written[|done| + q] == Some(Rows(col, k)[q])
    requires forall p :: |done| + |Rows(col, k)| <= p < |values| ==> written[p] == values[p]
    ensures written == done + Block(col, k) + seq(rest, _ => None)
  {
    var target := done + Block(col, k) + seq(rest, _ => None);
    var n := |Rows(col, k)|;
    forall p | 0 <= p < |written|
      ensures written[p] == target[p]
    {
      if p < |done| {
        assert values[p] == done[p];
      } else if p < |done| + n {
        assert written[|done| + (p - |done|)] == Some(Rows(col, k)[p - |done|]);
      } else {
        assert values[p] == None;
      }
    }
  }

  /** Adding column j appends its block to the value field. */
  lemma ValueColumnSnoc(columns: seq<Column>, j: nat, k: nat)
    requires j < |columns|
    ensures ValueColumn(columns[..j + 1], k) == ValueColumn(columns[..j], k) + Block(columns[j], k)
    ensures SumTLen(columns[..j + 1]) == SumTLen(columns[..j]) + columns[j].tLen
  {
    assert columns[..j + 1][..j] == columns[..j];
  }

  /** The sum over a prefix is at most the sum over the whole. */
  lemma {:induction false} SumTLenPrefix(columns: seq<Column>, j: nat)
    requires j <= |columns|
    ensures SumTLen(columns[..j]) <= SumTLen(columns)
    decreases |columns|
  {
    if j < |columns| {
      var n := |columns| - 1;
      assert columns[..n][..j] == columns[..j];
      SumTLenPrefix(columns[..n], j);
    } else {
      assert columns[..j] == columns;
    }
  }

  /**
   * `fields`: the Time field followed by one value field per palette index
   * 0..255, labelled with the index in decimal.
   */
  method BuildFields(columns: seq<Column>, start: real, rangeStep: real, halfResolution: bool)
    returns (fields: seq<Field>)
    requires forall k :: 0 <= k < VALUE_FIELDS ==> Fits(columns, k)
    ensures |fields| == VALUE_FIELDS + 1
    ensures fields[0] == TimeField(TimeValues(columns, start, rangeStep, halfResolution))
    ensures forall k :: 0 <= k < VALUE_FIELDS ==>
              fields[k + 1] == ValueField(DecimalString(k), ValueColumn(columns, k))
    ensures forall f :: 0 <= f < |fields| ==> fields[f].Len() == SumTLen(columns)
  {
    fields := [TimeField(TimeValues(columns, start, rangeStep, halfResolution))];
    var colorIndex := 0;
    while colorIndex < VALUE_FIELDS
      invariant colorIndex <= VALUE_FIELDS
      invariant |fields| == colorIndex + 1
      invariant fields[0] == TimeField(TimeValues(columns, start, rangeStep, halfResolution))
      invariant forall k :: 0 <= k < colorIndex ==>
                  fields[k + 1] == ValueField(DecimalString(k), ValueColumn(columns, k))
    {
      var values := BuildValueField(columns, colorIndex);
      fields := fields + [ValueField(DecimalString(colorIndex), values)];
      colorIndex := colorIndex + 1;
    }
    forall f | 0 <= f < |fields|
      ensures fields[f].Len() == SumTLen(columns)
    {
      if f > 0 {
        assert fields[(f - 1) + 1] == ValueField(DecimalString(f - 1), ValueColumn(columns, f - 1));
      }
    }
  }

  /** Columns built by the row loop always fit: every list is at most `tLen` long. */
  lemma TranscodedColumnsFit(t: Transcoded, k: nat)
    requires |t.grid| == |t.columns|
    requires forall x :: 0 <= x < |t.columns| ==> t.columns[x] == BuildColumn(t.grid[x])
    ensures Fits(t.columns, k)
  {
    forall i | 0 <= i < |t.columns|
      ensures |Rows(t.columns[i], k)| <= t.columns[i].tLen
    {
      ColumnRunLength(t.grid[i]);
    }
  }

  /** The frame `renderImgData` pushes for a given render context, and the cache it leaves. */
  function Transcode(ctx: RenderContext, palette: Palette, cache: Cache, img: seq<int>, vflip: bool, scale: int): Transcoded {
    TranscodeColumns(palette, cache, FramePixels(img, vflip, scale, GeometryOf(ctx.halfResolution, scale)))
  }

  /**
   * `response` is the frame pushed for columns `columns` under render context
   * `ctx`: named 'screen', keyed and tagged with the query's refId, the Time
   * field then one value field per palette index, all of one length.
   */
  predicate IsScreenResponse(response: Response, ctx: RenderContext, columns: seq<Column>, start: real) {
    && response.key == ctx.refId
    && response.frame.name == "screen"
    && response.frame.refId == ctx.refId
    && |response.frame.fields| == VALUE_FIELDS + 1
    && response.frame.fields[0] == TimeField(TimeValues(columns, start, ctx.rangeStep, ctx.halfResolution))
    && (forall k :: 0 <= k < VALUE_FIELDS ==>
          response.frame.fields[k + 1] == ValueField(DecimalString(k), ValueColumn(columns, k)))
    && (forall f :: 0 <= f < |response.frame.fields| ==> response.frame.fields[f].Len() == SumTLen(columns))
  }

  /** `start`: the time of the first column, one window before `now`. */
  function WindowStart(ctx: RenderContext, now: real): (start: real)
    ensures start + ctx.twindow == now
  {
    now - ctx.twindow
  }

  /**
   * `renderImgData`. Without a render context (no active screen subscription)
   * it does nothing. Otherwise it transcodes the frame and pushes one frame
   * to the subscriber; `now` is the wall clock reading, and the window starts
   * at `now - twindow`.
   */
  method RenderImgData(renderContext: Option<RenderContext>, palette: Palette, cache: Cache,
                       img: seq<int>, vflip: bool, scale: int, now: real)
    returns (response: Option<Response>, cache': Cache)
    ensures renderContext.None? ==> response.None? && cache' == cache
    ensures renderContext.Some? ==> response.Some?
    ensures renderContext.Some? ==> cache' == Transcode(renderContext.value, palette, cache, img, vflip, scale).cache
    ensures renderContext.Some? ==>
              IsScreenResponse(response.value, renderContext.value,
                               Transcode(renderContext.value, palette, cache, img, vflip, scale).columns,
                               WindowStart(renderContext.value, now))
  {
    if renderContext.None? {
      return None, cache;
    }
    var t := TranscodeFrame(renderContext.value, palette, cache, img, vflip, scale);
    var r := PushFrame(renderContext.value, t.columns, WindowStart(renderContext.value, now));
    return Some(r), t.cache;
  }

  /**
   * A frame rendered after the screen subscription was torn down: whatever
   * the context was before, `renderImgData` pushes nothing and leaves the
   * cache as it was.
   */
  method RenderAfterTeardown(ctx: Option<RenderContext>, palette: Palette, cache: Cache,
                             img: seq<int>, vflip: bool, scale: int, now: real)
    returns (response: Option<Response>, cache': Cache)
    ensures response.None? && cache' == cache
  {
    response, cache' := RenderImgData(EndScreenQuery(ctx), palette, cache, img, vflip, scale, now);
  }

  /** The transcoding half of `renderImgData`: the columns fit the 256 value fields. */
  method TranscodeFrame(ctx: RenderContext, palette: Palette, cache: Cache, img: seq<int>, vflip: bool, scale: int)
    returns (t: Transcoded)
    ensures t == Transcode(ctx, palette, cache, img, vflip, scale)
    ensures forall k :: 0 <= k < VALUE_FIELDS ==> Fits(t.columns, k)
  {
    t := Transcode(ctx, palette, cache, img, vflip, scale);
    forall k | 0 <= k < VALUE_FIELDS
      ensures Fits(t.columns, k)
    {
      TranscodedColumnsFit(t, k);
    }
  }

  method PushFrame(ctx: RenderContext, columns: seq<Column>, start: real) returns (response: Response)
    requires forall k :: 0 <= k < VALUE_FIELDS ==> Fits(columns, k)
    ensures IsScreenResponse(response, ctx, columns, start)
  {
    var fields := BuildFields(columns, start, ctx.rangeStep, ctx.halfResolution);
    var frame := DataFrame("screen", ctx.refId, fields);
    response := Response(frame, ctx.refId);
  }

  // ---------------------------------------------------------------------------
  // Properties of the whole frame
  // ---------------------------------------------------------------------------

  /**
   * A frame keeps `NaNIsZero`: starting from the empty cache, the cache
   * maps the NaN key to 0 (if at all) after any number of frames.
   */
  lemma {:induction false} FrameNaNStaysZero(palette: Palette, cache: Cache, pixels: seq<seq<Option<Color>>>)
    requires NaNIsZero(cache)
    ensures NaNIsZero(TranscodeColumns(palette, cache, pixels).cache)
    decreases |pixels|
  {
    if |pixels| > 0 {
      var w := |pixels| - 1;
      FrameNaNStaysZero(palette, cache, pixels[..w]);
      QuantizeAllNaNStaysZero(palette, TranscodeColumns(palette, cache, pixels[..w]).cache, pixels[w]);
    }
  }

  /** Every undefined pixel of a frame gets index 0 when the cache keeps `NaNIsZero`. */
  lemma UndefinedPixelIsZero(palette: Palette, cache: Cache, pixels: seq<seq<Option<Color>>>, x: nat, y: nat)
    requires NaNIsZero(cache)
    requires x < |pixels| && y < |pixels[x]| && pixels[x][y].None?
    ensures TranscodeColumns(palette, cache, pixels).grid[x][y] == 0
  {
    FrameNaNStaysZero(palette, cache, pixels);
    FrameMatchesFinalCache(palette, cache, pixels, x, y);
  }

  /** The WebGL path reads a `BufferSize(scale)` buffer with vflip: every read of the frame is defined. */
  lemma WebGLReadsAreDefined(img: seq<int>, halfResolution: bool, scale: int, x: nat, y: nat)
    requires scale >= 1 && |img| == BufferSize(scale)
    requires x < GeometryOf(halfResolution, scale).width && y < GeometryOf(halfResolution, scale).height
    ensures Sample(img, x, y, true, scale, GeometryOf(halfResolution, scale)).Some?
  {
    ReadInBufferIff(x, y, true, halfResolution, scale);
  }

  /**
   * The canvas path reads a 320x200 buffer without flip at scale 1: at full
   * resolution the last row is never defined, so it quantizes as the NaN key.
   */
  lemma CanvasBottomRowIsUndefined(img: seq<int>, x: nat)
    requires |img| == BufferSize(1) && x < WIDTH_PX
    ensures Sample(img, x, HEIGHT_PX - 1, false, 1, GeometryOf(false, 1)) == None
  {
    BottomRowReadsBeforeBuffer(x, 1);
  }

  /**
   * On the canvas path (unflipped, full resolution, scale 1), every pixel of
   * the last row gets index 0 whenever the cache keeps `NaNIsZero`, as every
   * cache built from the empty one does: the row is undefined, and its key
   * is the NaN key.
   */
  lemma CanvasBottomRowIndex(ctx: RenderContext, palette: Palette, cache: Cache, img: seq<int>, x: nat)
    requires !ctx.halfResolution && |img| == BufferSize(1) && x < WIDTH_PX
    requires NaNIsZero(cache)
    ensures var t := Transcode(ctx, palette, cache, img, false, 1);
            x < |t.grid| && HEIGHT_PX - 1 < |t.grid[x]| && t.grid[x][HEIGHT_PX - 1] == 0
  {
    var g := GeometryOf(false, 1);
    var pixels: seq<seq<Option<Color>>> := FramePixels(img, false, 1, g);
    FramePixelIsSample(img, false, 1, g, x, HEIGHT_PX - 1);
    CanvasBottomRowIsUndefined(img, x);
    assert pixels[x][HEIGHT_PX - 1].None?;
    assert |pixels| == WIDTH_PX && |pixels[x]| == HEIGHT_PX;
    UndefinedPixelIsZero(palette, cache, pixels, x, HEIGHT_PX - 1);
    assert GeometryOf(ctx.halfResolution, 1) == g;
    assert Transcode(ctx, palette, cache, img, false, 1) == TranscodeColumns(palette, cache, pixels);
  }

  /** Sum of `tLen` when every column has `tLen == h`. */
  lemma {:induction false} SumTLenUniform(columns: seq<Column>, h: nat)
    requires forall i :: 0 <= i < |columns| ==> columns[i].tLen == h
    ensures SumTLen(columns) == |columns| * h
    decreases |columns|
  {
    if |columns| > 0 {
      SumTLenUniform(columns[..|columns| - 1], h);
    }
  }

  /**
   * A frame whose pixels all quantize to one index k: every column has
   * `tLen == height`, lists only k, and the fields are width * height long.
   */
  lemma UniformFrame(t: Transcoded, h: nat, k: nat)
    requires h > 0 && |t.grid| == |t.columns|
    requires forall x :: 0 <= x < |t.grid| ==> |t.grid[x]| == h && t.columns[x] == BuildColumn(t.grid[x])
    requires forall x, y :: 0 <= x < |t.grid| && 0 <= y < h ==> t.grid[x][y] == k
    ensures forall x :: 0 <= x < |t.columns| ==> t.columns[x].tLen == h && t.columns[x].color2H.Keys == {k}
    ensures SumTLen(t.columns) == |t.columns| * h
  {
    forall x | 0 <= x < |t.columns|
      ensures t.columns[x].tLen == h && t.columns[x].color2H.Keys == {k}
    {
      UniformColumn(t.grid[x], k);
    }
    SumTLenUniform(t.columns, h);
  }

  /**
   * A buffer painted in one colour c, read where every read is defined
   * (flipped, or at half resolution): every pixel gets index k, the entry
   * already cached under c's key or else the first-match scan of c. So every
   * column lists only k with `tLen` equal to the height, and the fields are
   * width x height long.
   */
  lemma SolidFrame(ctx: RenderContext, palette: Palette, cache: Cache, img: seq<int>, c: Color,
                   vflip: bool, scale: int)
    requires scale >= 1 && |img| == BufferSize(scale) && SolidImage(img, c)
    requires vflip || ctx.halfResolution
    ensures var g := GeometryOf(ctx.halfResolution, scale);
            var k := if KeyOf(Some(c)) in cache then cache[KeyOf(Some(c))] else MatchIndex(palette, Some(c));
            AllOneIndex(Transcode(ctx, palette, cache, img, vflip, scale), g.width, g.height, k)
  {
    var g := GeometryOf(ctx.halfResolution, scale);
    var pixels := FramePixels(img, vflip, scale, g);
    SolidFramePixels(img, c, vflip, ctx.halfResolution, scale);
    SameColourFrame(palette, cache, pixels, Some(c), g.height);
    assert |pixels| == g.width;
  }

  /**
   * A transcoded frame of w columns and h rows in which every pixel has index
   * k: every column lists only k with `tLen` h, and the fields are w * h long.
   */
  predicate AllOneIndex(t: Transcoded, w: nat, h: nat, k: nat) {
    && |t.grid| == |t.columns| == w
    && (forall x :: 0 <= x < w ==> |t.grid[x]| == h)
    && (forall x, y :: 0 <= x < w && 0 <= y < h ==> t.grid[x][y] == k)
    && (forall x :: 0 <= x < |t.columns| ==> t.columns[x].tLen == h && t.columns[x].color2H.Keys == {k})
    && SumTLen(t.columns) == w * h
  }

  /** A non-empty frame of h rows, every pixel of which is px. */
  predicate SameColour(pixels: seq<seq<Option<Color>>>, px: Option<Color>, h: nat) {
    && |pixels| > 0 && h > 0
    && (forall x :: 0 <= x < |pixels| ==> |pixels[x]| == h)
    && (forall x, y :: 0 <= x < |pixels| && 0 <= y < h ==> pixels[x][y] == px)
  }

  /** Every pixel read from a solid buffer, where every read is defined, is its colour. */
  lemma SolidFramePixels(img: seq<int>, c: Color, vflip: bool, halfResolution: bool, scale: int)
    requires scale >= 1 && |img| == BufferSize(scale) && SolidImage(img, c)
    requires vflip || halfResolution
    ensures var g := GeometryOf(halfResolution, scale);
            SameColour(FramePixels(img, vflip, scale, g), Some(c), g.height)
  {
    var g := GeometryOf(halfResolution, scale);
    forall x, y | 0 <= x < g.width && 0 <= y < g.height
      ensures FramePixels(img, vflip, scale, g)[x][y] == Some(c)
    {
      FramePixelIsSample(img, vflip, scale, g, x, y);
      ReadInBufferIff(x, y, vflip, halfResolution, scale);
      SolidImageReads(img, c, x, y, vflip, scale, g);
    }
  }

  /**
   * A frame whose pixels are all px: every pixel gets index k, the entry
   * cached under px's key before the frame or else the first-match scan of
   * px; every column lists only k, with `tLen` h.
   */
  lemma SameColourFrame(palette: Palette, cache: Cache, pixels: seq<seq<Option<Color>>>, px: Option<Color>, h: nat)
    requires SameColour(pixels, px, h)
    ensures var k := if KeyOf(px) in cache then cache[KeyOf(px)] else MatchIndex(palette, px);
            AllOneIndex(TranscodeColumns(palette, cache, pixels), |pixels|, h, k)
  {
    var t := TranscodeColumns(palette, cache, pixels);
    var k := if KeyOf(px) in cache then cache[KeyOf(px)] else MatchIndex(palette, px);
    FramePixelIndex(palette, cache, pixels, 0, 0);
    assert t.grid[0][0] == k;
    forall x, y | 0 <= x < |pixels| && 0 <= y < h
      ensures t.grid[x][y] == k
    {
      SameKeySameIndex(palette, cache, pixels, x, y, 0, 0);
    }
    UniformFrame(t, h, k);
  }

  // ---------------------------------------------------------------------------
  // Worked example of the field layout. Real frames are 320x200 or 160x100;
  // this one is hand-built, to show the layout on a size small enough to read.
  // ---------------------------------------------------------------------------

  /**
   * Two columns of two rows, white over black, with white at index 1 and
   * black at index 0: both columns have `tLen == 1`, the time field has two
   * entries, the value field of index 0 is [1, 1] and that of index 1 is [0, 0].
   */
  lemma TwoByTwoFrame()
    ensures var columns := [BuildColumn([1, 0]), BuildColumn([1, 0])];
            && columns[0].tLen == 1 && columns[1].tLen == 1
            && |TimeValues(columns, 0.0, 1.0, false)| == 2
            && ValueColumn(columns, 0) == [Some(1), Some(1)]
            && ValueColumn(columns, 1) == [Some(0), Some(0)]
  {
    var col := BuildColumn([1, 0]);
    TwoRowColumn();
    SingleSlotColumns(col, 0);
    SingleSlotColumns(col, 1);
  }

  /** Column [1, 0] lists row 0 under index 1 and row 1 under index 0. */
  lemma TwoRowColumn()
    ensures BuildColumn([1, 0]) == Column(1, map[1 := [0], 0 := [1]])
  {
    assert [1, 0][..1] == [1];
    assert BuildColumn([1]) == Column(1, map[1 := [0]]);
  }

  /** Two copies of a column with one slot: each value field holds the column's first row for it, twice. */
  lemma SingleSlotColumns(col: Column, k: nat)
    requires col.tLen == 1
    ensures SumTLen([col, col]) == 2
    ensures ValueColumn([col, col], k) == [SlotValue(col, k, 0), SlotValue(col, k, 0)]
  {
    var columns := [col, col];
    assert columns[..1] == [col];
    assert [col][..0] == [];
    assert SumTLen([col]) == 1;
    var b := Block(col, k);
    assert b == [SlotValue(col, k, 0)];
    assert ValueColumn([col], k) == b;
    assert ValueColumn(columns, k) == b + b;
  }
}
