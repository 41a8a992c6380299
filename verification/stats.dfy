/** Order statistics over the present values of a column: the median used by imputation
    and the 0.75 quantile (linear interpolation) used by the heavy-user flag.
    Values are mathematical reals; floating-point rounding is not modelled. */
module Stats {

  /** `s` is in non-decreasing order. */
  predicate Sorted(s: seq<real>) {
    forall i, j :: 0 <= i < j < |s| ==> s[i] <= s[j]
  }

  /** Every value of `s` is at least `lo`. */
  predicate AllAtLeast(s: seq<real>, lo: real) {
    forall k :: 0 <= k < |s| ==> lo <= s[k]
  }

  lemma SortedCons(h: real, t: seq<real>)
    requires Sorted(t) && AllAtLeast(t, h)
    ensures Sorted([h] + t)
  {
    var s := [h] + t;
    forall i, j | 0 <= i < j < |s| ensures s[i] <= s[j] {
      assert s[j] == t[j - 1];
      if i > 0 {
        assert s[i] == t[i - 1];
      }
    }
  }

  lemma SortedTail(s: seq<real>)
    requires Sorted(s) && s != []
    ensures Sorted(s[1..]) && AllAtLeast(s[1..], s[0])
  {
  }

  /** Inserts `x` before the first value of `s` that is not below it. */
  function Insert(x: real, s: seq<real>): (r: seq<real>)
    ensures |r| == |s| + 1
  {
    if s == [] then [x]
    else if x <= s[0] then [x] + s
    else [s[0]] + Insert(x, s[1..])
  }

  /** Insertion into a sorted sequence keeps it sorted, and keeps every lower bound
      that `x` also respects. */
  lemma {:induction false} InsertSorted(x: real, s: seq<real>)
    requires Sorted(s)
    ensures Sorted(Insert(x, s))
    ensures forall lo :: lo <= x && AllAtLeast(s, lo) ==> AllAtLeast(Insert(x, s), lo)
  {
    if s == [] {
    } else if x <= s[0] {
      SortedCons(x, s);
    } else {
      SortedTail(s);
      InsertSorted(x, s[1..]);
      SortedCons(s[0], Insert(x, s[1..]));
    }
  }

  /** Insertion adds exactly one occurrence of `x` and loses nothing. */
  lemma {:induction false} InsertPermutes(x: real, s: seq<real>)
    ensures multiset(Insert(x, s)) == multiset(s) + multiset{x}
  {
    if s != [] && x > s[0] {
      InsertPermutes(x, s[1..]);
      calc {
        multiset(Insert(x, s));
        multiset([s[0]] + Insert(x, s[1..]));
        multiset{s[0]} + multiset(Insert(x, s[1..]));
        multiset{s[0]} + multiset(s[1..]) + multiset{x};
        { assert s == [s[0]] + s[1..]; }
        multiset(s) + multiset{x};
      }
    }
  }

  /** The values of `xs` in ascending order (insertion sort): the order pandas'
      median and quantile read them in. */
  function SortAsc(xs: seq<real>): (r: seq<real>)
    ensures |r| == |xs|
  {
    if xs == [] then [] else Insert(xs[0], SortAsc(xs[1..]))
  }

  /** Sorting yields a sorted permutation of the values. */
  lemma {:induction false} SortAscSpec(xs: seq<real>)
    ensures Sorted(SortAsc(xs))
    ensures multiset(SortAsc(xs)) == multiset(xs)
  {
    if xs != [] {
      SortAscSpec(xs[1..]);
      InsertSorted(xs[0], SortAsc(xs[1..]));
      InsertPermutes(xs[0], SortAsc(xs[1..]));
      assert xs == [xs[0]] + xs[1..];
    }
  }

  /** Two sorted arrangements of the same multiset of values are the same sequence. */
  lemma {:induction false} SortedUnique(a: seq<real>, b: seq<real>)
    requires Sorted(a) && Sorted(b)
    requires multiset(a) == multiset(b)
    ensures a == b
  {
    assert |a| == |multiset(a)| == |multiset(b)| == |b|;
    if a != [] {
      UniqueStep(a, b);
      SortedUnique(a[1..], b[1..]);
      assert a == [a[0]] + a[1..];
      assert b == [b[0]] + b[1..];
    }
  }

  /** Two sorted arrangements of the same non-empty multiset share their head, and their
      tails are again sorted arrangements of one multiset. */
  lemma UniqueStep(a: seq<real>, b: seq<real>)
    requires Sorted(a) && Sorted(b) && a != [] && b != []
    requires multiset(a) == multiset(b)
    ensures a[0] == b[0]
    ensures Sorted(a[1..]) && Sorted(b[1..])
    ensures multiset(a[1..]) == multiset(b[1..])
  {
    HeadAtMost(a, b);
    HeadAtMost(b, a);
    TailMultiset(a);
    TailMultiset(b);
    SortedTail(a);
    SortedTail(b);
  }

  /** The head of a sorted sequence is at most every value of the same multiset. */
  lemma HeadAtMost(a: seq<real>, b: seq<real>)
    requires Sorted(a) && a != [] && b != []
    requires multiset(a) == multiset(b)
    ensures a[0] <= b[0]
  {
    assert b[0] in multiset(a);
    var i :| 0 <= i < |a| && a[i] == b[0];
  }

  /** Dropping the head removes one occurrence of it. */
  lemma TailMultiset(a: seq<real>)
    requires a != []
    ensures multiset(a[1..]) == multiset(a) - multiset{a[0]}
  {
    assert a == [a[0]] + a[1..];
  }

  /** Sorting depends only on the multiset of values, not on their order. */
  lemma SortAscPermutation(xs: seq<real>, ys: seq<real>)
    requires multiset(xs) == multiset(ys)
    ensures SortAsc(xs) == SortAsc(ys)
  {
    SortAscSpec(xs);
    SortAscSpec(ys);
    SortedUnique(SortAsc(xs), SortAsc(ys));
  }

  /** Every value of the sorted arrangement is a value of the input. */
  lemma SortAscFrom(xs: seq<real>, k: int)
    requires 0 <= k < |xs|
    ensures SortAsc(xs)[k] in xs
  {
    var s := SortAsc(xs);
    SortAscSpec(xs);
    assert s[k] in multiset(s);
  }

  /** The median: the middle value of the sorted values, or the mean of the two
      middle values when their count is even. */
  function Median(xs: seq<real>): (r: real)
    requires |xs| > 0
    ensures |xs| % 2 == 1 ==> r in multiset(xs) && r == SortAsc(xs)[|xs| / 2]
    ensures |xs| % 2 == 0 ==> r == (SortAsc(xs)[|xs| / 2 - 1] + SortAsc(xs)[|xs| / 2]) / 2.0
    ensures SortAsc(xs)[(|xs| - 1) / 2] <= r <= SortAsc(xs)[|xs| / 2]
  {
    SortAscSpec(xs);
    assert SortAsc(xs)[|xs| / 2] in multiset(SortAsc(xs));
    Middle(SortAsc(xs))
  }

  /** The middle value of the sorted values `s`, or the mean of the two middle values;
      either way it lies between the two middle positions. */
  function Middle(s: seq<real>): (r: real)
    requires |s| > 0
    ensures |s| % 2 == 1 ==> r == s[|s| / 2]
    ensures |s| % 2 == 0 ==> r == (s[|s| / 2 - 1] + s[|s| / 2]) / 2.0
    ensures Sorted(s) ==> s[(|s| - 1) / 2] <= r <= s[|s| / 2]
  {
    var n := |s|;
    if n % 2 == 1 then s[n / 2] else (s[n / 2 - 1] + s[n / 2]) / 2.0
  }

  /** The 0.75 quantile with linear interpolation: position h = 0.75 * (n - 1) in the
      sorted values, interpolated between the values at floor(h) and floor(h) + 1. It
      lies between those two sorted values, and it is an input value when h is whole. */
  function Quantile75(xs: seq<real>): (r: real)
    requires |xs| > 0
    ensures var lo := (3 * (|xs| - 1)) / 4;
            var hi := if lo + 1 < |xs| then lo + 1 else lo;
            SortAsc(xs)[lo] <= r <= SortAsc(xs)[hi]
    ensures (3 * (|xs| - 1)) % 4 == 0 ==> r in multiset(xs)
  {
    var lo := (3 * (|xs| - 1)) / 4;
    SortAscSpec(xs);
    InterpolateBetween(SortAsc(xs));
    assert SortAsc(xs)[lo] in multiset(SortAsc(xs));
    Interpolate(SortAsc(xs))
  }

  /** Linear interpolation at position 0.75 * (n - 1) of the sorted values `s`; when that
      position is whole, the value there is taken as it is. */
  function Interpolate(s: seq<real>): (r: real)
    requires |s| > 0
    ensures (3 * (|s| - 1)) % 4 == 0 ==> r == s[(3 * (|s| - 1)) / 4]
  {
    var n := |s|;
    var lo := (3 * (n - 1)) / 4;
    var frac := ((3 * (n - 1)) % 4) as real / 4.0;
    if lo + 1 < n then s[lo] + frac * (s[lo + 1] - s[lo]) else s[lo]
  }

  /** Linear interpolation is exact on evenly spaced values: for `s[k] = a + k * d` the
      result is the value at the fractional position 0.75 * (n - 1). */
  lemma InterpolateLinear(s: seq<real>, a: real, d: real)
    requires |s| > 0
    requires forall k :: 0 <= k < |s| ==> s[k] == a + k as real * d
    ensures Interpolate(s) == a + 0.75 * (|s| - 1) as real * d
  {
    var n := |s|;
    var lo := (3 * (n - 1)) / 4;
    var m := (3 * (n - 1)) % 4;
    assert 3 * (n - 1) == 4 * lo + m && 0 <= m < 4;
    assert 0.75 * (n - 1) as real == lo as real + m as real / 4.0;
    if lo + 1 < n {
      assert s[lo] == a + lo as real * d;
      assert s[lo + 1] == a + (lo + 1) as real * d;
      assert (lo + 1) as real * d == lo as real * d + d;
      assert Interpolate(s) == s[lo] + (m as real / 4.0) * d;
      assert (lo as real + m as real / 4.0) * d == lo as real * d + (m as real / 4.0) * d;
    } else {
      assert n == 1 && lo == 0 && m == 0;
      assert s[0] == a + 0 as real * d;
    }
  }

  /** Four values give the fractional position 2.25: the 0.75 quantile of {4, 1, 3, 2} is
      3 + 0.25 * (4 - 3) = 3.25, between the third and fourth sorted values. */
  lemma QuantileFractionalExample(xs: seq<real>)
    requires xs == [4.0, 1.0, 3.0, 2.0]
    ensures Quantile75(xs) == 3.25
  {
    SortFourExample(xs);
    InterpolateLinear([1.0, 2.0, 3.0, 4.0], 1.0, 1.0);
  }

  /** {4, 1, 3, 2} sorts to 1, 2, 3, 4. */
  lemma SortFourExample(xs: seq<real>)
    requires xs == [4.0, 1.0, 3.0, 2.0]
    ensures SortAsc(xs) == [1.0, 2.0, 3.0, 4.0]
  {
    assert xs[3..][1..] == [];
    assert SortAsc(xs[3..]) == [2.0];
    assert xs[2..][1..] == xs[3..];
    assert Insert(3.0, [2.0]) == [2.0] + Insert(3.0, []);
    assert SortAsc(xs[2..]) == [2.0, 3.0];
    assert xs[1..][1..] == xs[2..];
    assert SortAsc(xs[1..]) == Insert(1.0, [2.0, 3.0]) == [1.0, 2.0, 3.0];
    assert Insert(4.0, [1.0, 2.0, 3.0]) == [1.0] + Insert(4.0, [2.0, 3.0]);
    assert Insert(4.0, [2.0, 3.0]) == [2.0] + Insert(4.0, [3.0]);
    assert Insert(4.0, [3.0]) == [3.0] + Insert(4.0, []);
  }

  /** The median lies between a value of the input and a value of the input, so any
      lower or upper bound on all the values also bounds the median. */
  lemma MedianBounds(xs: seq<real>, lo: real, hi: real)
    requires |xs| > 0
    ensures (forall k :: 0 <= k < |xs| ==> lo <= xs[k]) ==> lo <= Median(xs)
    ensures (forall k :: 0 <= k < |xs| ==> xs[k] <= hi) ==> Median(xs) <= hi
  {
    var s := SortAsc(xs);
    var n := |s|;
    var a, b := if n % 2 == 1 then n / 2 else n / 2 - 1, n / 2;
    SortAscSpec(xs);
    SortAscFrom(xs, a);
    SortAscFrom(xs, b);
    assert s[a] <= Median(xs) <= s[b];
  }

  /** The median depends only on the multiset of values, so the order of the rows
      does not matter. */
  lemma MedianPermutation(xs: seq<real>, ys: seq<real>)
    requires |xs| > 0
    requires multiset(xs) == multiset(ys)
    ensures |ys| > 0 && Median(xs) == Median(ys)
  {
    assert |xs| == |multiset(xs)| == |multiset(ys)| == |ys|;
    SortAscPermutation(xs, ys);
  }

  /** The interpolated value lies between the two sorted values it interpolates. */
  lemma InterpolateBetween(s: seq<real>)
    requires |s| > 0 && Sorted(s)
    ensures var lo := (3 * (|s| - 1)) / 4;
            var hi := if lo + 1 < |s| then lo + 1 else lo;
            lo <= hi < |s| && s[lo] <= Interpolate(s) <= s[hi]
  {
    var n := |s|;
    var lo := (3 * (n - 1)) / 4;
    if lo + 1 < n {
      var m := (3 * (n - 1)) % 4;
      assert 0 <= m < 4;
      var f := m as real / 4.0;
      assert s[lo] <= s[lo + 1];
      assert Interpolate(s) == s[lo] + f * (s[lo + 1] - s[lo]);
      ScaledStep(s[lo], s[lo + 1], f);
    }
  }

  /** Moving a fraction `f` of the way from `a` to `b` stays between them. */
  lemma ScaledStep(a: real, b: real, f: real)
    requires a <= b && 0.0 <= f <= 1.0
    ensures a <= a + f * (b - a) <= b
  {
    var d := b - a;
    MulNonNegative(f, d);
    MulNonNegative(1.0 - f, d);
    assert (1.0 - f) * d == d - f * d;
  }

  lemma MulNonNegative(x: real, y: real)
    requires 0.0 <= x && 0.0 <= y
    ensures 0.0 <= x * y
  {
  }

  /** The quantile lies between two values of the input: some value is at or below it
      and some value is at or above it. */
  lemma QuantileBetweenValues(xs: seq<real>)
    requires |xs| > 0
    ensures exists i :: 0 <= i < |xs| && xs[i] <= Quantile75(xs)
    ensures exists j :: 0 <= j < |xs| && Quantile75(xs) <= xs[j]
  {
    var s := SortAsc(xs);
    var n := |s|;
    var lo := (3 * (n - 1)) / 4;
    var hi := if lo + 1 < n then lo + 1 else lo;
    SortAscSpec(xs);
    InterpolateBetween(s);
    SortAscFrom(xs, lo);
    SortAscFrom(xs, hi);
    var i :| 0 <= i < |xs| && xs[i] == s[lo];
    var j :| 0 <= j < |xs| && xs[j] == s[hi];
  }

  /** The quantile depends only on the multiset of values. */
  lemma QuantilePermutation(xs: seq<real>, ys: seq<real>)
    requires |xs| > 0
    requires multiset(xs) == multiset(ys)
    ensures |ys| > 0 && Quantile75(xs) == Quantile75(ys)
  {
    assert |xs| == |multiset(xs)| == |multiset(ys)| == |ys|;
    SortAscPermutation(xs, ys);
  }

  /** The median of {2, 6, 4} is 4. */
  lemma MedianExample()
    ensures Median([2.0, 6.0, 4.0]) == 4.0
  {
  }

  /** With an even count the median is the mean of the two middle values:
      {1, 5, 3, 9} gives (3 + 5) / 2 = 4. */
  lemma MedianEvenExample()
    ensures Median([1.0, 5.0, 3.0, 9.0]) == 4.0
  {
  }

  /** The 0.75 quantile of [1, 2, 3, 4, 10] sits exactly on position 3: the cut is 4. */
  lemma QuantileExample()
    ensures Quantile75([1.0, 2.0, 3.0, 4.0, 10.0]) == 4.0
  {
  }
}
