/** Range sanitisation and median imputation of the numeric columns. A column is a
    sequence of cells, None being a missing cell; the in-place methods work on the
    table's arrays and are proved against the functions that specify them. */
module Cleaning {
  import opened Wrappers
  import opened Stats

  type Column = seq<Option<real>>

  /** `lo <= v`, and `v <= hi` when there is an upper bound. */
  predicate InBounds(v: real, lo: real, hi: Option<real>) {
    lo <= v && (hi.Some? ==> v <= hi.value)
  }

  /** The sanity bounds: cells below `lo` or above `hi` become missing and the row
      stays. A missing cell compares false, so it stays missing. */
  function Masked(col: Column, lo: real, hi: Option<real>): (r: Column)
    ensures |r| == |col|
    ensures forall i :: 0 <= i < |r| && r[i].Some? ==> InBounds(r[i].value, lo, hi)
    ensures forall i :: 0 <= i < |r| && col[i].Some? && InBounds(col[i].value, lo, hi) ==> r[i] == col[i]
    ensures forall i :: 0 <= i < |r| && r[i].None? ==> col[i].None? || !InBounds(col[i].value, lo, hi)
    ensures forall i :: 0 <= i < |r| && (col[i].None? || !InBounds(col[i].value, lo, hi)) ==> r[i].None?
  {
    seq(|col|, i requires 0 <= i < |col| =>
      if col[i].Some? && !InBounds(col[i].value, lo, hi) then None else col[i])
  }

  /** The bounds are inclusive: 0 and 24 hours stay, -1 and 25 become missing. */
  lemma MaskedExample()
    ensures Masked([Some(0.0), Some(24.0), Some(-1.0), Some(25.0), None], 0.0, Some(24.0))
            == [Some(0.0), Some(24.0), None, None, None]
  {
  }

  /** Whether the column has at least one present cell. */
  predicate HasValue(col: Column)
    ensures HasValue(col) ==> |col| > 0
    ensures forall i :: 0 <= i < |col| && col[i].Some? ==> HasValue(col)
  {
    exists i :: 0 <= i < |col| && col[i].Some?
  }

  /** The present values of a column, in row order (what pandas' median reads). */
  function Present(col: Column): (r: seq<real>)
    ensures |r| <= |col|
    ensures |r| > 0 <==> HasValue(col)
    ensures |col| == 1 ==> r == if col[0].Some? then [col[0].value] else []
  {
    if col == [] then []
    else
      assert forall i :: 1 <= i < |col| ==> col[1..][i - 1] == col[i];
      (if col[0].Some? then [col[0].value] else []) + Present(col[1..])
  }

  /** The present values of two stacked columns are those of the first, then those of
      the second: with the one-cell case of `Present`, every present cell contributes its
      value once, duplicates included, and a missing cell contributes nothing. */
  lemma {:induction false} PresentAppend(a: Column, b: Column)
    ensures Present(a + b) == Present(a) + Present(b)
    decreases |a|
  {
    if a == [] {
      assert a + b == b;
    } else {
      var h := if a[0].Some? then [a[0].value] else [];
      assert (a + b)[0] == a[0] && (a + b)[1..] == a[1..] + b;
      assert Present(a + b) == h + Present(a[1..] + b);
      PresentAppend(a[1..], b);
      assert h + (Present(a[1..]) + Present(b)) == (h + Present(a[1..])) + Present(b);
    }
  }

  /** A value is among the present values exactly when some cell holds it. */
  lemma {:induction false} PresentValues(col: Column, v: real)
    ensures v in Present(col) <==> exists i :: 0 <= i < |col| && col[i] == Some(v)
  {
    if col != [] {
      PresentValues(col[1..], v);
      if v in Present(col[1..]) {
        var i :| 0 <= i < |col[1..]| && col[1..][i] == Some(v);
        assert col[i + 1] == Some(v);
      }
      if i :| 0 <= i < |col| && col[i] == Some(v) {
        if i > 0 {
          assert col[1..][i - 1] == Some(v);
        }
      }
    }
  }

  /** Gaps filled with the median of the present values when there is any; an all-missing
      column is left as it is. */
  function Imputed(col: Column): (r: Column)
    ensures |r| == |col|
    ensures !HasValue(col) ==> r == col
    ensures HasValue(col) ==> forall i :: 0 <= i < |r| ==> r[i].Some?
    ensures forall i :: 0 <= i < |r| && col[i].Some? ==> r[i] == col[i]
    ensures HasValue(col) ==> forall i :: 0 <= i < |r| && col[i].None? ==> r[i] == Some(Median(Present(col)))
  {
    if HasValue(col) then
      var m := Median(Present(col));
      seq(|col|, i requires 0 <= i < |col| => if col[i].Some? then col[i] else Some(m))
    else col
  }

  /** Imputation keeps the sanitiser's guarantee: when every present value respects the
      bounds, so does every value after filling, because the median lies between present
      values. */
  lemma ImputedKeepsBounds(col: Column, lo: real, hi: Option<real>)
    requires forall i :: 0 <= i < |col| && col[i].Some? ==> InBounds(col[i].value, lo, hi)
    ensures forall i :: 0 <= i < |col| && Imputed(col)[i].Some? ==> InBounds(Imputed(col)[i].value, lo, hi)
  {
    if HasValue(col) {
      var vs := Present(col);
      forall k | 0 <= k < |vs| ensures InBounds(vs[k], lo, hi) {
        PresentValues(col, vs[k]);
      }
      MedianBounds(vs, lo, if hi.Some? then hi.value else lo);
    }
  }

  /** [2, _, 6, _, 4] imputes to [2, 4, 6, 4, 4]: both gaps get the median of {2, 6, 4}. */
  lemma ImputedExample(col: Column)
    requires col == [Some(2.0), None, Some(6.0), None, Some(4.0)]
    ensures Imputed(col) == [Some(2.0), Some(4.0), Some(6.0), Some(4.0), Some(4.0)]
  {
    PresentOfGaps(col);
    assert col[0].Some?;
    MedianExample();
    FilledWith(col, 4.0);
  }

  lemma PresentOfGaps(col: Column)
    requires col == [Some(2.0), None, Some(6.0), None, Some(4.0)]
    ensures Present(col) == [2.0, 6.0, 4.0]
  {
    assert col[4..][1..] == [];
    assert Present(col[4..]) == [4.0];
    assert col[3..][1..] == col[4..];
    assert Present(col[3..]) == [4.0];
    assert col[2..][1..] == col[3..];
    assert Present(col[2..]) == [6.0, 4.0];
    assert col[1..][1..] == col[2..];
    assert Present(col[1..]) == [6.0, 4.0];
  }

  /** A column with a present value is filled with its median `m`. */
  lemma FilledWith(col: Column, m: real)
    requires HasValue(col) && Median(Present(col)) == m
    ensures Imputed(col) == seq(|col|, i requires 0 <= i < |col| => if col[i].Some? then col[i] else Some(m))
  {
  }

  /** In-place masking of one column of the table: cells outside the bounds become missing. */
  method MaskColumn(a: array<Option<real>>, lo: real, hi: Option<real>)
    modifies a
    ensures a[..] == Masked(old(a[..]), lo, hi)
  {
    for i := 0 to a.Length
      invariant forall k :: 0 <= k < i ==> a[k] == Masked(old(a[..]), lo, hi)[k]
      invariant forall k :: i <= k < a.Length ==> a[k] == old(a[k])
    {
      if a[i].Some? && !InBounds(a[i].value, lo, hi) {
        a[i] := None;
      }
    }
  }

  /** In-place median imputation of one column (one turn of the `fillna` loop). The median
      is taken before any cell is filled. */
  method ImputeColumn(a: array<Option<real>>)
    modifies a
    ensures a[..] == Imputed(old(a[..]))
  {
    ghost var orig := a[..];
    if HasValue(a[..]) {
      var m := Median(Present(a[..]));
      for i := 0 to a.Length
        invariant forall k :: 0 <= k < i ==> a[k] == (if orig[k].Some? then orig[k] else Some(m))
        invariant forall k :: i <= k < a.Length ==> a[k] == orig[k]
      {
        if a[i].None? {
          a[i] := Some(m);
        }
      }
      FilledWith(orig, m);
    }
  }
}
