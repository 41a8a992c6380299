/** The per-cell scanner of the numeric coercion: the value of the first match of the
    regular expression `-?\d+\.?\d*` anywhere in a cell's text, or missing when the text
    has no match. */
module NumberScan {
  import opened Wrappers
  import opened Text

  /** The pattern can start a match at position `i`: a digit, or a '-' followed by a digit.
      Scanning from the left, the first such position is where the search succeeds. */
  predicate MatchesAt(s: string, i: nat) {
    (i < |s| && IsDigit(s[i])) || (i + 1 < |s| && s[i] == '-' && IsDigit(s[i + 1]))
  }

  /** The leftmost position at or after `from` where a match starts. */
  function FindMatch(s: string, from: nat): (r: Option<nat>)
    requires from <= |s|
    ensures r.Some? ==> from <= r.value < |s| && MatchesAt(s, r.value)
    ensures r.Some? ==> forall j :: from <= j < r.value ==> !MatchesAt(s, j)
    ensures r.None? ==> forall j :: from <= j < |s| ==> !MatchesAt(s, j)
    decreases |s| - from
  {
    if from == |s| then None
    else if MatchesAt(s, from) then Some(from)
    else FindMatch(s, from + 1)
  }

  /** The end of the longest run of digits starting at `p` (greedy `\d*`). */
  function DigitRunEnd(s: string, p: nat): (e: nat)
    requires p <= |s|
    ensures p <= e <= |s|
    ensures forall k :: p <= k < e ==> IsDigit(s[k])
    ensures e == |s| || !IsDigit(s[e])
    decreases |s| - p
  {
    if p < |s| && IsDigit(s[p]) then DigitRunEnd(s, p + 1) else p
  }

  predicate AllDigits(ds: string) {
    forall k :: 0 <= k < |ds| ==> IsDigit(ds[k])
  }

  /** The value of a string of decimal digits, most significant first. */
  function DigitsValue(ds: string): nat
    requires AllDigits(ds)
  {
    if ds == [] then 0 else 10 * DigitsValue(ds[..|ds| - 1]) + DigitValue(ds[|ds| - 1])
  }

  function Pow10(k: nat): (p: nat)
    ensures p > 0
  {
    if k == 0 then 1 else 10 * Pow10(k - 1)
  }

  /** A matched piece of text: an optional '-', the whole-part digits, an optional '.'
      and the fraction digits after it. */
  datatype Token = Token(negative: bool, whole: string, dot: bool, fraction: string)

  /** The text a token stands for. */
  function TokenText(t: Token): string {
    (if t.negative then "-" else "") + t.whole + (if t.dot then "." else "") + t.fraction
  }

  /** The shape of `-?\d+\.?\d*`: at least one whole digit, and fraction digits only after a dot. */
  predicate WellShaped(t: Token) {
    |t.whole| > 0 && AllDigits(t.whole) && AllDigits(t.fraction) && (!t.dot ==> t.fraction == "")
  }

  /** The greedy match of the pattern starting at position `i`. */
  function TokenAt(s: string, i: nat): (t: Token)
    requires i < |s| && MatchesAt(s, i)
    ensures WellShaped(t)
  {
    var neg := s[i] == '-';
    var p := if neg then i + 1 else i;
    var w := DigitRunEnd(s, p);
    if w < |s| && s[w] == '.' then Token(neg, s[p..w], true, s[w + 1..DigitRunEnd(s, w + 1)])
    else Token(neg, s[p..w], false, "")
  }

  /** The token at `i` is exactly the text of `s` at `i`. */
  lemma TokenAtMatchesText(s: string, i: nat)
    requires i < |s| && MatchesAt(s, i)
    ensures OccursAt(s, TokenText(TokenAt(s, i)), i)
  {
    var neg := s[i] == '-';
    var p := if neg then i + 1 else i;
    var w := DigitRunEnd(s, p);
    assert s[i..p] == if neg then "-" else "";
    if w < |s| && s[w] == '.' {
      var f := DigitRunEnd(s, w + 1);
      assert TokenAt(s, i) == Token(neg, s[p..w], true, s[w + 1..f]);
      TextWithDot(s, i, p, w, f, neg);
      SpelledAt(s, i, TokenAt(s, i), f);
    } else {
      assert TokenAt(s, i) == Token(neg, s[p..w], false, "");
      TextWithoutDot(s, i, p, w, neg);
      SpelledAt(s, i, TokenAt(s, i), w);
    }
  }

  /** The match at `i` cannot be extended: no digit follows it, and no '.' follows it
      when it has none (the quantifiers of `-?\d+\.?\d*` are greedy). */
  lemma TokenAtGreedy(s: string, i: nat)
    requires i < |s| && MatchesAt(s, i)
    ensures var t := TokenAt(s, i);
            var e := i + |TokenText(t)|;
            && (e == |s| || !IsDigit(s[e]))
            && (!t.dot ==> e == |s| || s[e] != '.')
  {
    var neg := s[i] == '-';
    var p := if neg then i + 1 else i;
    var w := DigitRunEnd(s, p);
    if w < |s| && s[w] == '.' {
      var f := DigitRunEnd(s, w + 1);
      assert TokenAt(s, i) == Token(neg, s[p..w], true, s[w + 1..f]);
      assert |TokenText(TokenAt(s, i))| == f - i;
    } else {
      assert TokenAt(s, i) == Token(neg, s[p..w], false, "");
      assert |TokenText(TokenAt(s, i))| == w - i;
    }
  }

  /** A token whose text is the slice `s[i..e]` occurs in `s` at `i`. */
  lemma SpelledAt(s: string, i: nat, t: Token, e: nat)
    requires i <= e <= |s| && TokenText(t) == s[i..e]
    ensures OccursAt(s, TokenText(t), i)
  {
  }

  /** A token with a dot spells the text from its start to the end of its fraction. */
  lemma TextWithDot(s: string, i: nat, p: nat, w: nat, f: nat, neg: bool)
    requires i <= p <= w < f <= |s| && s[w] == '.'
    requires s[i..p] == if neg then "-" else ""
    ensures i + |TokenText(Token(neg, s[p..w], true, s[w + 1..f]))| == f
    ensures TokenText(Token(neg, s[p..w], true, s[w + 1..f])) == s[i..f]
  {
    assert s[w..w + 1] == ".";
    Split(s, i, p, w);
    Split(s, i, w, w + 1);
    Split(s, i, w + 1, f);
  }

  /** A token without a dot spells the text from its start to the end of its digits. */
  lemma TextWithoutDot(s: string, i: nat, p: nat, w: nat, neg: bool)
    requires i <= p <= w <= |s|
    requires s[i..p] == if neg then "-" else ""
    ensures i + |TokenText(Token(neg, s[p..w], false, ""))| == w
    ensures TokenText(Token(neg, s[p..w], false, "")) == s[i..w]
  {
    Split(s, i, p, w);
    assert TokenText(Token(neg, s[p..w], false, "")) == s[i..p] + s[p..w];
  }

  lemma Split(s: string, i: nat, j: nat, k: nat)
    requires i <= j <= k <= |s|
    ensures s[i..k] == s[i..j] + s[j..k]
  {
  }

  /** The number a token denotes, as `pd.to_numeric` reads it ("3." is 3, "007" is 7):
      the digits written without the point, scaled down by one power of ten per fraction
      digit and signed; so the whole digits are its integer part and the fraction digits
      add less than one. */
  function TokenValue(t: Token): (r: real)
    requires WellShaped(t)
    ensures !t.negative ==> DigitsValue(t.whole) as real <= r < DigitsValue(t.whole) as real + 1.0
    ensures t.negative ==> -(DigitsValue(t.whole) as real) - 1.0 < r <= -(DigitsValue(t.whole) as real)
  {
    var w, f, p := DigitsValue(t.whole), DigitsValue(t.fraction), Pow10(|t.fraction|);
    DigitsBelowPow10(t.fraction);
    FractionBelowOne(f as real, p as real);
    var magnitude := w as real + f as real / p as real;
    if t.negative then -magnitude else magnitude
  }

  /** `n`, negated when `neg`. */
  function Signed(neg: bool, n: nat): real {
    if neg then -(n as real) else n as real
  }

  /** The exact decimal reading: a token's value is the integer its digits spell with the
      point removed, signed, divided by 10 per fraction digit ("-2.75" is -275 / 100). */
  lemma TokenValueScaled(t: Token)
    requires WellShaped(t)
    ensures AllDigits(t.whole + t.fraction)
    ensures TokenValue(t) == Signed(t.negative, DigitsValue(t.whole + t.fraction)) / Pow10(|t.fraction|) as real
  {
    var w, f, p := DigitsValue(t.whole), DigitsValue(t.fraction), Pow10(|t.fraction|);
    DigitsAppend(t.whole, t.fraction);
    var n, r := DigitsValue(t.whole + t.fraction), TokenValue(t);
    ScaleBack(w, f, p, n, t.negative, r);
  }

  /** `w + f / p`, signed, is the integer `w * p + f`, signed, divided by `p`. */
  lemma ScaleBack(w: nat, f: nat, p: nat, n: nat, neg: bool, r: real)
    requires p > 0 && n == w * p + f
    requires r == var m := w as real + f as real / p as real; if neg then -m else m
    ensures r == Signed(neg, n) / p as real
  {
    var m := w as real + f as real / p as real;
    assert m * p as real == w as real * p as real + f as real;
    assert (w * p) as real == w as real * p as real;
  }

  /** Appending digits shifts the value left by their count: the value of `a + b` is
      `a`'s value times 10^|b| plus `b`'s value. */
  lemma {:induction false} DigitsAppend(a: string, b: string)
    requires AllDigits(a) && AllDigits(b)
    ensures AllDigits(a + b)
    ensures DigitsValue(a + b) == DigitsValue(a) * Pow10(|b|) + DigitsValue(b)
    decreases |b|
  {
    var ab := a + b;
    assert forall k :: 0 <= k < |ab| ==> ab[k] == if k < |a| then a[k] else b[k - |a|];
    if b == [] {
      assert ab == a;
    } else {
      var init := b[..|b| - 1];
      var c := b[|b| - 1];
      assert ab[..|ab| - 1] == a + init && ab[|ab| - 1] == c;
      DigitsAppend(a, init);
      var x, q, y := DigitsValue(a), Pow10(|init|), DigitsValue(init);
      assert DigitsValue(ab) == 10 * (x * q + y) + DigitValue(c);
      assert DigitsValue(b) == 10 * y + DigitValue(c);
      assert Pow10(|b|) == 10 * q;
      ShiftDigit(x, q, y, DigitValue(c));
    }
  }

  lemma ShiftDigit(x: int, q: int, y: int, d: int)
    ensures 10 * (x * q + y) + d == x * (10 * q) + (10 * y + d)
  {
  }

  /** `k` decimal digits denote less than 10^k. */
  lemma {:induction false} DigitsBelowPow10(ds: string)
    requires AllDigits(ds)
    ensures DigitsValue(ds) < Pow10(|ds|)
    decreases |ds|
  {
    if ds != [] {
      DigitsBelowPow10(ds[..|ds| - 1]);
    }
  }

  lemma FractionBelowOne(x: real, p: real)
    requires 0.0 <= x < p
    ensures 0.0 <= x / p < 1.0
  {
  }

  /** The coerced value of one text cell: the first match's number, or missing. A cell
      is missing exactly when its text has no digit at all. */
  function Extract(s: string): (r: Option<real>)
    ensures r.None? <==> forall j :: 0 <= j < |s| ==> !IsDigit(s[j])
  {
    MatchDigits(s);
    match FindMatch(s, 0)
    case None => None
    case Some(i) => Some(TokenValue(TokenAt(s, i)))
  }

  /** The search fails exactly when the text has no digit: every digit can start a
      match, and every match start holds a digit or is followed by one. */
  lemma MatchDigits(s: string)
    ensures FindMatch(s, 0).None? <==> forall j :: 0 <= j < |s| ==> !IsDigit(s[j])
  {
    if j :| 0 <= j < |s| && IsDigit(s[j]) {
      assert MatchesAt(s, j);
    }
    if FindMatch(s, 0).Some? {
      var i := FindMatch(s, 0).value;
      if IsDigit(s[i]) {
        assert 0 <= i < |s| && IsDigit(s[i]);
      } else {
        assert 0 <= i + 1 < |s| && IsDigit(s[i + 1]);
      }
    }
  }

  /** A cell yields a number exactly when its text holds a digit somewhere. */
  lemma ExtractSomeIff(s: string)
    ensures Extract(s).Some? <==> exists j :: 0 <= j < |s| && IsDigit(s[j])
  {
  }

  /** The value of the digits is read back from their decimal rendering. */
  lemma {:induction false} DigitsOfNat(n: nat)
    ensures AllDigits(NatToString(n)) && DigitsValue(NatToString(n)) == n
    decreases n
  {
    var s := NatToString(n);
    if n >= 10 {
      DigitsOfNat(n / 10);
      assert s[..|s| - 1] == NatToString(n / 10);
    }
  }

  lemma {:induction false} DigitRunToEnd(s: string, p: nat)
    requires p <= |s|
    requires forall k :: p <= k < |s| ==> IsDigit(s[k])
    ensures DigitRunEnd(s, p) == |s|
    decreases |s| - p
  {
    if p < |s| {
      DigitRunToEnd(s, p + 1);
    }
  }

  /** A cell that is exactly an optional '-' and a run of digits reads as that number. */
  lemma ExtractSignedDigits(s: string, neg: bool, ds: string)
    requires |ds| > 0 && AllDigits(ds)
    requires s == (if neg then "-" else "") + ds
    ensures Extract(s) == Some(if neg then -(DigitsValue(ds) as real) else DigitsValue(ds) as real)
  {
    SignedDigitsToken(s, neg, ds);
    assert FindMatch(s, 0) == Some(0);
    WholeTokenValue(Token(neg, ds, false, ""));
  }

  /** A token without fraction digits denotes its whole digits, signed. */
  lemma WholeTokenValue(t: Token)
    requires WellShaped(t) && t.fraction == ""
    ensures TokenValue(t) == if t.negative then -(DigitsValue(t.whole) as real) else DigitsValue(t.whole) as real
  {
    assert DigitsValue(t.fraction) == 0;
  }

  /** The whole of such a cell is one match without a dot. */
  lemma SignedDigitsToken(s: string, neg: bool, ds: string)
    requires |ds| > 0 && AllDigits(ds)
    requires s == (if neg then "-" else "") + ds
    ensures 0 < |s| && MatchesAt(s, 0) && TokenAt(s, 0) == Token(neg, ds, false, "")
  {
    var p := if neg then 1 else 0;
    assert s[p..] == ds;
    forall k | p <= k < |s| ensures IsDigit(s[k]) {
      assert s[k] == ds[k - p];
    }
    assert MatchesAt(s, 0);
    DigitRunToEnd(s, p);
  }

  /** Round trip: the decimal text of an integer, alone in a cell, is read back as that integer. */
  lemma ExtractIntText(n: int)
    ensures Extract(IntToString(n)) == Some(n as real)
  {
    var m: nat := if n < 0 then -n else n;
    DigitsOfNat(m);
    ExtractSignedDigits(IntToString(n), n < 0, NatToString(m));
  }

  /** "~4" reads as 4: leading text that cannot start a match is skipped. */
  lemma ExtractTilde()
    ensures Extract("~4") == Some(4.0)
  {
    assert !MatchesAt("~4", 0) && MatchesAt("~4", 1);
    assert DigitRunEnd("~4", 1) == 2;
  }

  /** "3.5 hrs" reads as 3.5: the match takes the fraction and stops at the space. */
  lemma ExtractHours()
    ensures Extract("3.5 hrs") == Some(3.5)
  {
    var s := "3.5 hrs";
    assert MatchesAt(s, 0);
    assert DigitRunEnd(s, 2) == 3;
    assert DigitRunEnd(s, 0) == 1;
    var t := TokenAt(s, 0);
    assert t == Token(false, "3", true, "5");
  }

  /** "2.75 hrs" reads as 2.75: every fraction digit counts. */
  lemma ExtractTwoFractionDigits()
    ensures Extract("2.75 hrs") == Some(2.75)
  {
    var s := "2.75 hrs";
    assert MatchesAt(s, 0);
    assert DigitRunEnd(s, 4) == 4;
    assert DigitRunEnd(s, 2) == 4;
    assert DigitRunEnd(s, 0) == 1;
    var t := TokenAt(s, 0);
    assert t == Token(false, "2", true, "75");
    assert DigitsValue("75") == 75;
  }

  /** A cell whose text holds no digit, such as pandas' "nan", is missing. */
  lemma ExtractNan()
    ensures Extract("nan") == None
  {
    ExtractSomeIff("nan");
  }
}
