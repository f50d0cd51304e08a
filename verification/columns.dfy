/**
 * One column of the transcoded frame (`columns[x]` in `renderImgData`): for
 * each palette index, the rows y of that pixel column that quantized to it,
 * in scan order (`color2H`), and `tLen`, the length of the longest such list.
 *
 * The column is built from the column's palette indices, one per row, by the
 * same row loop as the source. `RowsOf` is an independent reference
 * definition of the list for one index, and the lemmas relate the two.
 */
module Columns {

  datatype Column = Column(tLen: nat, color2H: map<nat, seq<nat>>)

  /** The rows listed under palette index `k`; an index never seen has none. */
  function Rows(col: Column, k: nat): seq<nat> {
    if k in col.color2H then col.color2H[k] else []
  }

  /** Reference definition: the rows y with `idxs[y] == k`, in ascending order. */
  function RowsOf(idxs: seq<nat>, k: nat): seq<nat>
    decreases |idxs|
  {
    if |idxs| == 0 then []
    else RowsOf(idxs[..|idxs| - 1], k) + (if idxs[|idxs| - 1] == k then [|idxs| - 1] else [])
  }

  function Max(a: nat, b: nat): nat {
    if a < b then b else a
  }

  /** One iteration of the row loop: file row `y` under palette index `idx`. */
  function AddRow(col: Column, y: nat, idx: nat): Column {
    if idx !in col.color2H then
      col.(color2H := col.color2H[idx := [y]])
    else
      var rows := col.color2H[idx] + [y];
      Column(Max(col.tLen, |rows|), col.color2H[idx := rows])
  }

  /**
   * Filing row y under idx appends y to idx's list (creating it if absent)
   * and leaves every other list as it was. `tLen` never shrinks, and once it
   * is at least 1 it is the larger of the old `tLen` and the new list's
   * length: skipping the update when a list is created loses nothing.
   */
  lemma AddRowFiles(col: Column, y: nat, idx: nat)
    ensures var r := AddRow(col, y, idx);
            && r.color2H.Keys == col.color2H.Keys + {idx}
            && (forall k :: Rows(r, k) == if k == idx then Rows(col, k) + [y] else Rows(col, k))
            && r.tLen >= col.tLen
            && (col.tLen >= 1 ==> r.tLen == Max(col.tLen, |Rows(r, idx)|))
  {
  }

  /** The column for palette indices `idxs` (row y quantized to `idxs[y]`), rows scanned in ascending order. */
  function BuildColumn(idxs: seq<nat>): (col: Column)
    ensures forall k :: k in col.color2H <==> |RowsOf(idxs, k)| > 0
    ensures forall k :: k in col.color2H ==> col.color2H[k] == RowsOf(idxs, k)
    ensures col.tLen >= 1
    decreases |idxs|
  {
    if |idxs| == 0 then Column(1, map[])
    else AddRow(BuildColumn(idxs[..|idxs| - 1]), |idxs| - 1, idxs[|idxs| - 1])
  }

  /** `t` is the longest list length (1 for an empty column). */
  ghost predicate IsLongestRun(t: nat, idxs: seq<nat>) {
    && 1 <= t
    && (forall k :: |RowsOf(idxs, k)| <= t)
    && (|idxs| == 0 ==> t == 1)
    && (|idxs| > 0 ==> exists y :: 0 <= y < |idxs| && |RowsOf(idxs, idxs[y])| == t)
  }

  /** Row y is listed under index k exactly when row y quantized to k. */
  lemma {:induction false} RowsOfMembership(idxs: seq<nat>, k: nat, y: int)
    ensures y in RowsOf(idxs, k) <==> 0 <= y < |idxs| && idxs[y] == k
    decreases |idxs|
  {
    if |idxs| > 0 {
      var pre := idxs[..|idxs| - 1];
      RowsOfMembership(pre, k, y);
      if 0 <= y < |idxs| - 1 {
        assert idxs[y] == pre[y];
      }
    }
  }

  /** Every list is strictly ascending and holds only rows of the column. */
  lemma {:induction false} RowsOfAscending(idxs: seq<nat>, k: nat)
    ensures forall i :: 0 <= i < |RowsOf(idxs, k)| ==> RowsOf(idxs, k)[i] < |idxs|
    ensures forall i, j :: 0 <= i < j < |RowsOf(idxs, k)| ==> RowsOf(idxs, k)[i] < RowsOf(idxs, k)[j]
    decreases |idxs|
  {
    if |idxs| > 0 {
      RowsOfAscending(idxs[..|idxs| - 1], k);
    }
  }

  /** The column's lists partition its rows: row y appears under index k iff it quantized to k. */
  lemma ColumnPartitionsRows(idxs: seq<nat>, k: nat, y: int)
    ensures y in Rows(BuildColumn(idxs), k) <==> 0 <= y < |idxs| && idxs[y] == k
  {
    RowsOfMembership(idxs, k, y);
  }

  /** Appending row n changes only the list of `idxs[n]`. */
  lemma RowsOfSnoc(idxs: seq<nat>, k: nat)
    requires |idxs| > 0
    ensures RowsOf(idxs, k) == RowsOf(idxs[..|idxs| - 1], k) + (if idxs[|idxs| - 1] == k then [|idxs| - 1] else [])
  {
  }

  /** `tLen` is the length of the longest list, and at least 1. */
  lemma {:induction false} ColumnRunLength(idxs: seq<nat>)
    ensures IsLongestRun(BuildColumn(idxs).tLen, idxs)
    decreases |idxs|
  {
    if |idxs| > 0 {
      var n := |idxs| - 1;
      var pre := idxs[..n];
      var idx := idxs[n];
      ColumnRunLength(pre);
      var before := BuildColumn(pre);
      var after := BuildColumn(idxs);
      assert after == AddRow(before, n, idx);
      var t, t' := before.tLen, after.tLen;
      assert t <= t';
      RowsOfSnoc(idxs, idx);
      var grown := |RowsOf(idxs, idx)|;
      assert grown == |RowsOf(pre, idx)| + 1;
      assert grown <= t';
      forall k
        ensures |RowsOf(idxs, k)| <= t'
      {
        RowsOfSnoc(idxs, k);
      }
      if n == 0 {
        assert |RowsOf(idxs, idxs[0])| == 1;
      } else if grown == t' {
        assert |RowsOf(idxs, idxs[n])| == t';
      } else {
        assert t' == t;
        var y :| 0 <= y < |pre| && |RowsOf(pre, pre[y])| == t;
        assert pre[y] == idxs[y];
        assert idxs[y] != idx;
        RowsOfSnoc(idxs, idxs[y]);
        assert |RowsOf(idxs, idxs[y])| == t';
      }
    }
  }

  /** Sum over palette indices 0..bound-1 of the list lengths. */
  function RunTotal(col: Column, bound: nat): nat {
    if bound == 0 then 0 else RunTotal(col, bound - 1) + |Rows(col, bound - 1)|
  }

  function RowsOfTotal(idxs: seq<nat>, bound: nat): nat {
    if bound == 0 then 0 else RowsOfTotal(idxs, bound - 1) + |RowsOf(idxs, bound - 1)|
  }

  lemma {:induction false} RowsOfTotalStep(idxs: seq<nat>, bound: nat)
    requires |idxs| > 0
    ensures RowsOfTotal(idxs, bound)
            == RowsOfTotal(idxs[..|idxs| - 1], bound) + (if idxs[|idxs| - 1] < bound then 1 else 0)
  {
    if bound > 0 {
      RowsOfTotalStep(idxs, bound - 1);
    }
  }

  lemma {:induction false} RowsOfTotalIsLength(idxs: seq<nat>, bound: nat)
    requires forall y :: 0 <= y < |idxs| ==> idxs[y] < bound
    ensures RowsOfTotal(idxs, bound) == |idxs|
    decreases |idxs|
  {
    if |idxs| == 0 {
      RowsOfTotalEmpty(bound);
    } else {
      RowsOfTotalStep(idxs, bound);
      RowsOfTotalIsLength(idxs[..|idxs| - 1], bound);
    }
  }

  lemma {:induction false} RowsOfTotalEmpty(bound: nat)
    ensures RowsOfTotal([], bound) == 0
  {
    if bound > 0 {
      RowsOfTotalEmpty(bound - 1);
    }
  }

  lemma {:induction false} RunTotalMatches(col: Column, idxs: seq<nat>, bound: nat)
    requires forall k :: |Rows(col, k)| == |RowsOf(idxs, k)|
    ensures RunTotal(col, bound) == RowsOfTotal(idxs, bound)
  {
    if bound > 0 {
      RunTotalMatches(col, idxs, bound - 1);
    }
  }

  /** When every index is below `bound`, the list lengths over 0..bound-1 add up to the column height. */
  lemma ColumnRunsCoverHeight(idxs: seq<nat>, bound: nat)
    requires forall y :: 0 <= y < |idxs| ==> idxs[y] < bound
    ensures RunTotal(BuildColumn(idxs), bound) == |idxs|
  {
    var col := BuildColumn(idxs);
    forall k
      ensures |Rows(col, k)| == |RowsOf(idxs, k)|
    {
    }
    RunTotalMatches(col, idxs, bound);
    RowsOfTotalIsLength(idxs, bound);
  }

  /** A column whose rows all quantized to `k` lists every row under `k`... */
  lemma {:induction false} UniformRows(idxs: seq<nat>, k: nat)
    requires forall y :: 0 <= y < |idxs| ==> idxs[y] == k
    ensures RowsOf(idxs, k) == seq(|idxs|, y => y)
    decreases |idxs|
  {
    if |idxs| > 0 {
      var n := |idxs| - 1;
      UniformRows(idxs[..n], k);
      assert seq(n, y => y) + [n] == seq(|idxs|, y => y);
    }
  }

  /** ...and nothing under any other index. */
  lemma {:induction false} UniformRowsElsewhere(idxs: seq<nat>, k: nat, j: nat)
    requires j != k
    requires forall y :: 0 <= y < |idxs| ==> idxs[y] == k
    ensures RowsOf(idxs, j) == []
    decreases |idxs|
  {
    if |idxs| > 0 {
      UniformRowsElsewhere(idxs[..|idxs| - 1], k, j);
    }
  }

  /** A column whose rows all quantized to `k` has one list, 0..n-1, and `tLen` equal to the height. */
  lemma UniformColumn(idxs: seq<nat>, k: nat)
    requires |idxs| > 0
    requires forall y :: 0 <= y < |idxs| ==> idxs[y] == k
    ensures BuildColumn(idxs).color2H == map[k := seq(|idxs|, y => y)]
    ensures BuildColumn(idxs).tLen == |idxs|
  {
    var col := BuildColumn(idxs);
    UniformRows(idxs, k);
    forall j | j != k
      ensures j !in col.color2H
    {
      UniformRowsElsewhere(idxs, k, j);
    }
    SingleList(col.color2H, k, seq(|idxs|, y => y));
    UniformColumnHeight(idxs, k);
  }

  /** A map whose only key is `k` is the one-entry map. */
  lemma SingleList(m: map<nat, seq<nat>>, k: nat, rows: seq<nat>)
    requires k in m && m[k] == rows
    requires forall j :: j != k ==> j !in m
    ensures m == map[k := rows]
  {
    assert m.Keys == {k};
  }

  lemma UniformColumnHeight(idxs: seq<nat>, k: nat)
    requires |idxs| > 0
    requires forall y :: 0 <= y < |idxs| ==> idxs[y] == k
    ensures BuildColumn(idxs).tLen == |idxs|
  {
    UniformRows(idxs, k);
    ColumnRunLength(idxs);
    var y :| 0 <= y < |idxs| && |RowsOf(idxs, idxs[y])| == BuildColumn(idxs).tLen;
    assert idxs[y] == k;
  }

  /** Alternating rows: `a` on even rows, `b` on odd rows. */
  lemma {:induction false} AlternatingRows(idxs: seq<nat>, a: nat, b: nat)
    requires a != b
    requires forall y :: 0 <= y < |idxs| ==> idxs[y] == if y % 2 == 0 then a else b
    ensures |RowsOf(idxs, a)| == (|idxs| + 1) / 2
    ensures |RowsOf(idxs, b)| == |idxs| / 2
    decreases |idxs|
  {
    if |idxs| > 0 {
      var n := |idxs| - 1;
      AlternatingRows(idxs[..n], a, b);
      RowsOfSnoc(idxs, a);
      RowsOfSnoc(idxs, b);
    }
  }

  /**
   * A column alternating between two indices, `a` on even rows and `b` on odd
   * rows, gives `a` the ceiling and `b` the floor of half the rows.
   */
  lemma AlternatingColumn(idxs: seq<nat>, a: nat, b: nat)
    requires a != b
    requires forall y :: 0 <= y < |idxs| ==> idxs[y] == if y % 2 == 0 then a else b
    ensures |Rows(BuildColumn(idxs), a)| == (|idxs| + 1) / 2
    ensures |Rows(BuildColumn(idxs), b)| == |idxs| / 2
  {
    AlternatingRows(idxs, a, b);
  }
}
