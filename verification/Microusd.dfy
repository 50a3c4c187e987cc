/** The Microusd pattern of contracts/generated/effect/index.ts, alternative by alternative. */
module Microusd {
  import opened CodeUnits
  import opened Decimal

  /** A prefix of fixed digits, one digit in a range, and a number of further digits. */
  datatype Alternative = Alternative(prefix: seq<int>, lo: int, hi: int, rest: nat)

  const ALTERNATIVES: seq<Alternative> := [
    Alternative([], 1, 8, 18),
    Alternative([9], 0, 1, 17),
    Alternative([9, 2], 0, 1, 16),
    Alternative([9, 2, 2], 0, 2, 15),
    Alternative([9, 2, 2, 3], 0, 2, 14),
    Alternative([9, 2, 2, 3, 3], 0, 6, 13),
    Alternative([9, 2, 2, 3, 3, 7], 0, 1, 12),
    Alternative([9, 2, 2, 3, 3, 7, 2, 0], 0, 2, 10),
    Alternative([9, 2, 2, 3, 3, 7, 2, 0, 3], 0, 5, 9),
    Alternative([9, 2, 2, 3, 3, 7, 2, 0, 3, 6], 0, 7, 8),
    Alternative([9, 2, 2, 3, 3, 7, 2, 0, 3, 6, 8], 0, 4, 7),
    Alternative([9, 2, 2, 3, 3, 7, 2, 0, 3, 6, 8, 5], 0, 3, 6),
    Alternative([9, 2, 2, 3, 3, 7, 2, 0, 3, 6, 8, 5, 4], 0, 6, 5),
    Alternative([9, 2, 2, 3, 3, 7, 2, 0, 3, 6, 8, 5, 4, 7], 0, 6, 4),
    Alternative([9, 2, 2, 3, 3, 7, 2, 0, 3, 6, 8, 5, 4, 7, 7], 0, 4, 3),
    Alternative([9, 2, 2, 3, 3, 7, 2, 0, 3, 6, 8, 5, 4, 7, 7, 5], 0, 7, 2),
    Alternative([9, 2, 2, 3, 3, 7, 2, 0, 3, 6, 8, 5, 4, 7, 7, 5, 8, 0], 0, 7, 0)
  ]

  predicate MatchesAlternative(s: Text, a: Alternative) {
    var k := |a.prefix|;
    && |s| == k + 1 + a.rest
    && (forall i | 0 <= i < k :: s[i] == 0x30 + a.prefix[i])
    && 0x30 + a.lo <= s[k] <= 0x30 + a.hi
    && (forall i | k < i < |s| :: IsDigit(s[i]))
  }

  /** The anchored alternation: zero, one to eighteen digits, or a nineteen-digit alternative. */
  predicate Matches(s: Text) {
    || s == [0x30]
    || (1 <= |s| <= 18 && Digits(s) && s[0] != 0x30)
    || exists j | 0 <= j < |ALTERNATIVES| :: MatchesAlternative(s, ALTERNATIVES[j])
  }

  const MAX_INT64 := 9223372036854775807

  const BOUND: seq<int> := [9, 2, 2, 3, 3, 7, 2, 0, 3, 6, 8, 5, 4, 7, 7, 5, 8, 0, 7]

  function BoundText(): Text { seq(19, i requires 0 <= i < 19 => 0x30 + BOUND[i]) }

  lemma BoundDigits()
    ensures Canonical(BoundText()) && |BoundText()| == 19
    ensures forall i | 0 <= i < 19 :: BoundText()[i] == 0x30 + BOUND[i]
  {
    assert forall i | 0 <= i < 19 :: 0 <= BOUND[i] <= 9;
  }

  lemma BoundFirstHalf()
    ensures Digits(BoundText()) && Magnitude(BoundText()[..10]) == 9223372036
  {
    hide Magnitude, BoundText, Digits;
    var s := BoundText();
    BoundDigits();
    assert Canonical(s);
    MagnitudeStart(s);
    MagnitudeNext(s, 1, 9);
    MagnitudeNext(s, 2, 92);
    MagnitudeNext(s, 3, 922);
    MagnitudeNext(s, 4, 9223);
    MagnitudeNext(s, 5, 92233);
    MagnitudeNext(s, 6, 922337);
    MagnitudeNext(s, 7, 9223372);
    MagnitudeNext(s, 8, 92233720);
    MagnitudeNext(s, 9, 922337203);
  }

  lemma BoundValue()
    ensures Canonical(BoundText()) && Magnitude(BoundText()) == MAX_INT64
  {
    hide Magnitude, BoundText, Digits;
    var s := BoundText();
    BoundDigits();
    BoundFirstHalf();
    MagnitudeNext(s, 10, 9223372036);
    MagnitudeNext(s, 11, 92233720368);
    MagnitudeNext(s, 12, 922337203685);
    MagnitudeNext(s, 13, 9223372036854);
    MagnitudeNext(s, 14, 92233720368547);
    MagnitudeNext(s, 15, 922337203685477);
    MagnitudeNext(s, 16, 9223372036854775);
    MagnitudeNext(s, 17, 92233720368547758);
    MagnitudeNext(s, 18, 922337203685477580);
    assert s[..19] == s;
  }

  /** Text order on texts of one length: the first difference decides. */
  lemma {:induction false} LexFirstDifference(a: Text, b: Text)
    requires |a| == |b|
    ensures LexLess(a, b) <==> exists k :: 0 <= k < |a| && Diverges(a, b, k)
  {
    if a != [] {
      LexFirstDifference(a[1..], b[1..]);
      if LexLess(a, b) {
        if a[0] < b[0] {
          assert Diverges(a, b, 0);
        } else {
          var k :| 0 <= k < |a[1..]| && Diverges(a[1..], b[1..], k);
          assert a == [a[0]] + a[1..] && b == [b[0]] + b[1..];
          assert Diverges(a, b, k + 1);
        }
      }
      if k :| 0 <= k < |a| && Diverges(a, b, k) && k > 0 {
        assert a[0] == b[0];
        assert Diverges(a[1..], b[1..], k - 1);
      }
    }
  }

  predicate Diverges(a: Text, b: Text, k: nat)
    requires |a| == |b| && k < |a|
  {
    a[k] < b[k] && forall i | 0 <= i < k :: a[i] == b[i]
  }

  /** The first position of each alternative, and the alternative for each position that has one. */
  function Position(j: nat): (k: nat)
    requires j < 17
    ensures k == |ALTERNATIVES[j].prefix|
  {
    if j < 7 then j else if j < 16 then j + 1 else 18
  }

  predicate Shaped(j: nat)
    requires j < 17
  {
    var a, k := ALTERNATIVES[j], Position(j);
    && a.prefix == BOUND[..k] && a.rest == 18 - k
    && a.lo == (if k == 0 then 1 else 0) && a.hi == (if k == 18 then BOUND[k] else BOUND[k] - 1)
  }

  lemma AlternativeShape(j: nat)
    requires j < 17
    ensures Shaped(j)
  {
    if j < 9 { EarlyShape(j); } else { LateShape(j); }
  }

  lemma EarlyShape(j: nat)
    requires j < 9
    ensures Shaped(j)
  {
  }

  lemma LateShape(j: nat)
    requires 9 <= j < 17
    ensures Shaped(j)
  {
  }

  lemma NineteenDigits(s: Text)
    requires |s| == 19
    ensures Matches(s) <==> Canonical(s) && Magnitude(s) <= MAX_INT64
  {
    hide Magnitude, LexLess, BoundText;
    var b := BoundText();
    BoundDigits();
    if Canonical(s) {
      BoundValue();
      LexIsNumeric(s, b);
      LexFirstDifference(s, b);
      if s == b {
        AlternativeShape(16);
        assert MatchesAlternative(s, ALTERNATIVES[16]);
      } else if k :| 0 <= k < 19 && Diverges(s, b, k) {
        DivergenceMatches(s, k);
      }
    }
    if j :| 0 <= j < |ALTERNATIVES| && MatchesAlternative(s, ALTERNATIVES[j]) {
      MatchDiverges(s, j);
    }
  }

  /** A numeral that first falls below the bound at `k` matches the alternative for `k`. */
  lemma DivergenceMatches(s: Text, k: nat)
    requires |s| == 19 && Canonical(s) && k < 19 && |BoundText()| == 19 && Diverges(s, BoundText(), k)
    ensures Matches(s)
  {
    BoundDigits();
    assert BOUND[k] != 0;
    var j := if k < 7 then k else if k == 18 then 16 else k - 1;
    AlternativeShape(j);
    assert Position(j) == k;
    assert MatchesAlternative(s, ALTERNATIVES[j]);
  }

  /** Whatever matches an alternative is a canonical numeral below the bound, or the bound. */
  lemma MatchDiverges(s: Text, j: nat)
    requires |s| == 19 && j < 17 && MatchesAlternative(s, ALTERNATIVES[j])
    ensures Canonical(s) && |BoundText()| == 19
    ensures s == BoundText() || Diverges(s, BoundText(), Position(j))
  {
    hide BoundText;
    BoundDigits();
    AlternativeShape(j);
    var k := Position(j);
    assert forall i | 0 <= i < k :: s[i] == BoundText()[i];
  }

  /** The pattern accepts exactly the canonical numerals up to 2^63 - 1. */
  lemma MicrousdExact(s: Text)
    ensures Matches(s) <==> Canonical(s) && Magnitude(s) <= 9_223_372_036_854_775_807
  {
    hide Magnitude;
    if |s| == 19 {
      NineteenDigits(s);
    } else {
      assert forall j | 0 <= j < 17 :: |ALTERNATIVES[j].prefix| + 1 + ALTERNATIVES[j].rest == 19 by {
        forall j | 0 <= j < 17 ensures |ALTERNATIVES[j].prefix| + 1 + ALTERNATIVES[j].rest == 19 {
          AlternativeShape(j);
        }
      }
      if Canonical(s) {
        BoundValue();
        if |s| < 19 { ShorterIsLess(s, BoundText()); } else { ShorterIsLess(BoundText(), s); }
      }
    }
  }
}
