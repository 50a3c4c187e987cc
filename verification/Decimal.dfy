/** Decimal numerals as texts, their value, and how text order relates to numeric order. */
module Decimal {
  import opened CodeUnits

  predicate IsDigit(c: int) { 0x30 <= c <= 0x39 }

  predicate Digits(s: Text) { forall i | 0 <= i < |s| :: IsDigit(s[i]) }

  /** A numeral without a superfluous leading zero. */
  predicate Canonical(s: Text) {
    |s| > 0 && Digits(s) && (|s| > 1 ==> s[0] != 0x30)
  }

  function Magnitude(s: Text): (n: nat)
    requires Digits(s)
  {
    if s == [] then 0 else Magnitude(s[..|s| - 1]) * 10 + (s[|s| - 1] - 0x30)
  }

  /** Reading a numeral digit by digit. */
  lemma MagnitudeNext(s: Text, k: nat, v: nat)
    requires Digits(s) && k < |s| && Magnitude(s[..k]) == v
    ensures Magnitude(s[..k + 1]) == v * 10 + (s[k] - 0x30)
  {
    assert s[..k + 1][..k] == s[..k];
  }

  lemma MagnitudeStart(s: Text)
    requires Digits(s) && |s| > 0
    ensures Magnitude(s[..1]) == s[0] - 0x30
  {
    assert s[..1][..0] == [];
  }

  function Pow10(k: nat): (p: nat)
    ensures p > 0
  {
    if k == 0 then 1 else 10 * Pow10(k - 1)
  }

  /** The canonical numeral of a number: `String(n)` for a non-negative integer. */
  function Numeral(n: nat): (s: Text)
    ensures Canonical(s)
    ensures Magnitude(s) == n
    ensures s[0] == 0x30 <==> n == 0
  {
    if n < 10 then
      var s: Text := [0x30 + n];
      assert s[..0] == [];
      s
    else
      var front := Numeral(n / 10);
      var s: Text := front + [0x30 + n % 10];
      assert s[..|s| - 1] == front;
      s
  }

  lemma MulBelow(x: int, y: int, p: nat)
    requires x < y
    ensures x * p + p <= y * p
  {
    assert y * p - (x * p + p) == (y - x - 1) * p;
  }

  lemma Shift(d: int, p: nat, v: int, e: int)
    ensures (d * p + v) * 10 + e == d * (10 * p) + (v * 10 + e)
  {
    assert (d * p) * 10 == d * (10 * p);
  }

  /** The value of a numeral from its most significant digit. */
  lemma {:induction false} ValueHead(s: Text)
    requires s != [] && Digits(s)
    ensures Digits(s[1..])
    ensures Magnitude(s) == (s[0] - 0x30) * Pow10(|s| - 1) + Magnitude(s[1..])
  {
    if |s| == 1 {
      assert s[..0] == [] && s[1..] == [];
    } else {
      var front := s[..|s| - 1];
      ValueHead(front);
      assert s[1..][..|s| - 2] == front[1..];
      Shift(s[0] - 0x30, Pow10(|s| - 2), Magnitude(front[1..]), s[|s| - 1] - 0x30);
    }
  }

  lemma {:induction false} ValueBound(s: Text)
    requires Digits(s)
    ensures Magnitude(s) < Pow10(|s|)
  {
    if s != [] { ValueBound(s[..|s| - 1]); }
  }

  /** A canonical numeral of `k` digits is at least `10^(k-1)`, unless it is "0". */
  lemma CanonicalBound(s: Text)
    requires Canonical(s) && s[0] != 0x30
    ensures Magnitude(s) >= Pow10(|s| - 1)
  {
    ValueHead(s);
    MulBelow(0, s[0] - 0x30, Pow10(|s| - 1));
  }

  lemma {:induction false} Pow10Monotone(j: nat, k: nat)
    requires j <= k
    ensures Pow10(j) <= Pow10(k)
  {
    if j < k { Pow10Monotone(j, k - 1); }
  }

  lemma ShorterIsLess(a: Text, b: Text)
    requires Canonical(a) && Canonical(b) && |a| < |b|
    ensures Magnitude(a) < Magnitude(b)
  {
    ValueBound(a);
    CanonicalBound(b);
    Pow10Monotone(|a|, |b| - 1);
  }

  /** On numerals of one length, text order is numeric order. */
  lemma {:induction false} LexIsNumeric(a: Text, b: Text)
    requires Digits(a) && Digits(b) && |a| == |b|
    ensures LexLess(a, b) <==> Magnitude(a) < Magnitude(b)
    ensures a == b <==> Magnitude(a) == Magnitude(b)
  {
    if a == [] {
    } else {
      ValueHead(a);
      ValueHead(b);
      var p := Pow10(|a| - 1);
      ValueBound(a[1..]);
      ValueBound(b[1..]);
      LexIsNumeric(a[1..], b[1..]);
      assert a == [a[0]] + a[1..] && b == [b[0]] + b[1..];
      var x, y := a[0] - 0x30, b[0] - 0x30;
      if x < y {
        MulBelow(x, y, p);
      } else if y < x {
        MulBelow(y, x, p);
      }
    }
  }

  /** Canonical numerals are determined by their value. */
  lemma CanonicalInjective(a: Text, b: Text)
    requires Canonical(a) && Canonical(b) && Magnitude(a) == Magnitude(b)
    ensures a == b
  {
    if |a| < |b| {
      ShorterIsLess(a, b);
    } else if |b| < |a| {
      ShorterIsLess(b, a);
    } else {
      LexIsNumeric(a, b);
    }
  }

  /** `a <= b` as JavaScript compares strings, after comparing lengths, is `<=` on values. */
  lemma LengthThenLex(a: Text, b: Text)
    requires Canonical(a) && Canonical(b)
    ensures (|a| < |b| || (|a| == |b| && !LexLess(b, a))) <==> Magnitude(a) <= Magnitude(b)
  {
    if |a| < |b| {
      ShorterIsLess(a, b);
    } else if |b| < |a| {
      ShorterIsLess(b, a);
    } else {
      LexIsNumeric(a, b);
      LexIsNumeric(b, a);
    }
  }
}
