/**
 * The colour quantizer of the data source (`getColorIndex` with its memo cache).
 *
 * The quantizer does not look for the nearest palette colour: it scans the
 * palette in index order and returns the FIRST entry whose red, green and blue
 * channels each lie within RGBA_VALUE_ERROR_MARGIN of the input, and 0 when no
 * entry does. Every answer is memoised under the packed key `rgbaKey(r, g, b)`,
 * and a cached answer is returned without scanning.
 *
 * A pixel read outside the raster buffer yields JavaScript `undefined`
 * channels; such a pixel is `None` here. Its key is NaN (one key for all such
 * pixels) and no palette comparison with it succeeds, so it maps to index 0.
 */
module Quantizer {
  import opened Wrappers

  /** Largest per-channel difference that still counts as a match. */
  const RGBA_VALUE_ERROR_MARGIN: nat := 3

  datatype Color = Color(r: int, g: int, b: int)

  /** The palette, in index order (256 entries in the shipped build). */
  type Palette = seq<Color>

  /**
   * The cache key packing. For blue in 0..999 the key splits back into blue
   * (its last three decimal digits) and `2r + g` (the rest), and keeps no
   * other trace of red and green.
   */
  function RgbaKey(r: int, g: int, b: int): (key: int)
    ensures 0 <= b < 1000 ==> key % 1000 == b && key / 1000 == 2 * r + g
  {
    r * 1000 * 2 + g * 1000 + b
  }

  /** A cache key: a packed number, or the NaN that an `undefined` channel produces. */
  datatype Key = Packed(n: int) | NotANumber

  /** The colour cache: key to palette index. */
  type Cache = map<Key, nat>

  function KeyOf(px: Option<Color>): Key {
    match px
    case Some(c) => Packed(RgbaKey(c.r, c.g, c.b))
    case None => NotANumber
  }

  function Abs(x: int): nat {
    if x < 0 then -x else x
  }

  /** Palette entry `p` accepts colour `c`: every channel within the margin. */
  predicate Within(p: Color, c: Color) {
    && Abs(p.r - c.r) <= RGBA_VALUE_ERROR_MARGIN
    && Abs(p.g - c.g) <= RGBA_VALUE_ERROR_MARGIN
    && Abs(p.b - c.b) <= RGBA_VALUE_ERROR_MARGIN
  }

  /** Some palette entry accepts `c`. */
  predicate HasMatch(palette: Palette, c: Color) {
    exists j :: 0 <= j < |palette| && Within(palette[j], c)
  }

  /** `i` is the lowest index of an entry accepting `c`. */
  predicate IsFirstMatch(palette: Palette, c: Color, i: nat) {
    && i < |palette|
    && Within(palette[i], c)
    && forall j :: 0 <= j < i ==> !Within(palette[j], c)
  }

  /** The palette scan from index `i` on: the first accepting entry at or after `i`. */
  function ScanFrom(palette: Palette, c: Color, i: nat): (r: Option<nat>)
    requires i <= |palette|
    ensures r.Some? ==> i <= r.value < |palette| && Within(palette[r.value], c)
    ensures r.Some? ==> forall j :: i <= j < r.value ==> !Within(palette[j], c)
    ensures r.None? <==> forall j :: i <= j < |palette| ==> !Within(palette[j], c)
    decreases |palette| - i
  {
    if i == |palette| then None
    else if Within(palette[i], c) then Some(i)
    else ScanFrom(palette, c, i + 1)
  }

  /** The index the uncached path of `getColorIndex` returns. */
  function MatchIndex(palette: Palette, px: Option<Color>): (idx: nat)
    ensures px.Some? && HasMatch(palette, px.value) ==> IsFirstMatch(palette, px.value, idx)
    ensures px.None? || !HasMatch(palette, px.value) ==> idx == 0
  {
    match px
    case None => 0
    case Some(c) => ScanFrom(palette, c, 0).GetOr(0)
  }

  /** Every cached index is a palette index, or the fallback 0. */
  predicate CacheBounded(cache: Cache, paletteSize: nat) {
    forall k :: k in cache ==> cache[k] == 0 || cache[k] < paletteSize
  }

  /**
   * The NaN key, if cached, maps to 0. The empty cache satisfies this, and
   * every lookup keeps it (`NaNStaysZero`), so it holds of every cache the
   * data source builds.
   */
  predicate NaNIsZero(cache: Cache) {
    NotANumber in cache ==> cache[NotANumber] == 0
  }

  /** `after` keeps every entry of `before` unchanged. */
  predicate Extends(before: Cache, after: Cache) {
    forall k :: k in before ==> k in after && after[k] == before[k]
  }

  /** The answer of one `getColorIndex` call and the cache it leaves. */
  datatype Lookup = Lookup(index: nat, cache: Cache)

  /** `getColorIndex`: cached answer on a hit, otherwise scan and memoise. */
  function GetColorIndex(palette: Palette, cache: Cache, px: Option<Color>): (res: Lookup)
    ensures res.cache.Keys == cache.Keys + {KeyOf(px)}
    ensures Extends(cache, res.cache)
    ensures res.cache[KeyOf(px)] == res.index
    ensures KeyOf(px) in cache ==> res.index == cache[KeyOf(px)]
    ensures KeyOf(px) !in cache && px.Some? && HasMatch(palette, px.value) ==>
              IsFirstMatch(palette, px.value, res.index)
    ensures KeyOf(px) !in cache && (px.None? || !HasMatch(palette, px.value)) ==> res.index == 0
    ensures CacheBounded(cache, |palette|) ==> CacheBounded(res.cache, |palette|)
    ensures CacheBounded(cache, |palette|) && |palette| > 0 ==> res.index < |palette|
  {
    var key := KeyOf(px);
    if key in cache then Lookup(cache[key], cache)
    else
      var i := MatchIndex(palette, px);
      Lookup(i, cache[key := i])
  }

  /** A lookup keeps `NaNIsZero`: an undefined pixel misses every palette entry and is memoised as 0. */
  lemma NaNStaysZero(palette: Palette, cache: Cache, px: Option<Color>)
    requires NaNIsZero(cache)
    ensures NaNIsZero(GetColorIndex(palette, cache, px).cache)
    ensures px.None? ==> GetColorIndex(palette, cache, px).index == 0
  {
  }

  /** A repeated call returns the same index and leaves the cache as it is. */
  lemma RepeatedLookupIsStable(palette: Palette, cache: Cache, px: Option<Color>)
    ensures GetColorIndex(palette, GetColorIndex(palette, cache, px).cache, px)
            == GetColorIndex(palette, cache, px)
  {
  }

  /**
   * The packing is not injective: for channels whose blue value is below 1000
   * (every byte), two colours share a key exactly when their blue channels are
   * equal and `2*r + g` agrees.
   */
  lemma RgbaKeyCollision(c1: Color, c2: Color)
    requires 0 <= c1.b < 1000 && 0 <= c2.b < 1000
    ensures RgbaKey(c1.r, c1.g, c1.b) == RgbaKey(c2.r, c2.g, c2.b)
            <==> c1.b == c2.b && 2 * c1.r + c1.g == 2 * c2.r + c2.g
  {
    var a1, a2 := 2 * c1.r + c1.g, 2 * c2.r + c2.g;
    assert RgbaKey(c1.r, c1.g, c1.b) == 1000 * a1 + c1.b;
    assert RgbaKey(c2.r, c2.g, c2.b) == 1000 * a2 + c2.b;
  }

  /**
   * The cache can serve an index computed for a different colour: with the
   * palette [(0,5,0), (4,0,0)], looking up (1,0,0) caches index 1 under key
   * 2000, and a later lookup of (0,2,0), which shares that key, returns 1 even
   * though entry 1 does not accept (0,2,0) and the scan would give 0.
   */
  lemma StaleCacheHit()
    ensures var palette := [Color(0, 5, 0), Color(4, 0, 0)];
            var first := GetColorIndex(palette, map[], Some(Color(1, 0, 0)));
            var second := GetColorIndex(palette, first.cache, Some(Color(0, 2, 0)));
            && first.index == 1
            && second.index == 1
            && !Within(palette[second.index], Color(0, 2, 0))
            && MatchIndex(palette, Some(Color(0, 2, 0))) == 0
  {
    var palette := [Color(0, 5, 0), Color(4, 0, 0)];
    assert IsFirstMatch(palette, Color(1, 0, 0), 1);
    assert IsFirstMatch(palette, Color(0, 2, 0), 0);
  }
}
