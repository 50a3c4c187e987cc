/** The flat number scan of contracts/ts/wire-json.ts and its agreement with the grammar. */
module WireNumbers {
  import opened CodeUnits
  import opened Decimal
  import opened Options
  import opened JsonGrammar
  import opened JsonReader
  import opened WireJson

  datatype Reason = NotInteger | NotSafe

  datatype NumberIssue = NumberIssue(lexeme: Text, reason: Reason)

  const MAX_SAFE_INTEGER := 9007199254740991

  /** The text "9007199254740991". */
  const MAX_SAFE_DIGITS: Text := Numeral(MAX_SAFE_INTEGER)

  // ----- the safe-integer test

  predicate IsSafeIntegerLexeme(lexeme: Text) {
    var digits := if At(lexeme, 0) == 0x2D then lexeme[1..] else lexeme;
    if |digits| != |MAX_SAFE_DIGITS| then |digits| < |MAX_SAFE_DIGITS|
    else LexLess(digits, MAX_SAFE_DIGITS) || digits == MAX_SAFE_DIGITS
  }

  /** On every JSON integer the test accepts exactly the magnitudes up to 2^53 - 1. */
  lemma SafeIntegerExact(n: Number)
    requires ValidNumber(n) && IsInteger(n)
    ensures IsSafeIntegerLexeme(NumberText(n)) <==> -9007199254740991 <= IntegerValue(n) <= 9007199254740991
  {
    hide Magnitude, LexLess;
    var t := NumberText(n);
    assert t == MinusText(n.minus) + n.whole;
    assert (if At(t, 0) == 0x2D then t[1..] else t) == n.whole;
    LengthThenLex(n.whole, MAX_SAFE_DIGITS);
    LexTotal(n.whole, MAX_SAFE_DIGITS);
  }

  // ----- the scan

  /** The sticky match of the number pattern at `i`: an optional part that cannot match is skipped. */
  function MatchNumber(s: Text, i: nat): (end: Option<nat>)
    requires i <= |s|
    ensures end.Some? ==> i < end.value <= |s|
  {
    var w := ReadWhole(s, i + |MinusText(At(s, i) == 0x2D)|);
    if w.Fail? then None else
      var f := ReadFraction(s, w.end);
      var j := if f.Fail? then w.end else f.end;
      var e := ReadExponent(s, j);
      Some(if e.Fail? then j else e.end)
  }

  predicate StartsNumber(c: int) { c == 0x2D || IsDigit(c) }

  /** What is wrong with a lexeme, by the tests the scan applies to its text. */
  function LexemeIssue(lexeme: Text): Option<NumberIssue> {
    if 0x2E in lexeme || 0x65 in lexeme || 0x45 in lexeme then Some(NumberIssue(lexeme, NotInteger))
    else if !IsSafeIntegerLexeme(lexeme) then Some(NumberIssue(lexeme, NotSafe))
    else None
  }

  /** The scan from position `i` in the given string state. */
  function Flat(s: Text, i: nat, inString: bool, escaped: bool): Option<NumberIssue>
    requires i <= |s|
    decreases |s| - i
  {
    if i == |s| then None
    else if inString then
      if escaped then Flat(s, i + 1, true, false)
      else Flat(s, i + 1, s[i] != 0x22, s[i] == 0x5C)
    else if s[i] == 0x22 then Flat(s, i + 1, true, escaped)
    else if !StartsNumber(s[i]) || MatchNumber(s, i).None? then Flat(s, i + 1, false, escaped)
    else
      var end := MatchNumber(s, i).value;
      First(LexemeIssue(s[i..end]), Flat(s, end, false, escaped))
  }

  method FindNonCanonicalNumber(source: Text) returns (r: Option<NumberIssue>)
    ensures r == Flat(source, 0, false, false)
  {
    hide MatchNumber, IsSafeIntegerLexeme;
    var inString, escaped := false, false;
    var index := 0;
    while index < |source|
      invariant 0 <= index <= |source|
      invariant Flat(source, 0, false, false) == Flat(source, index, inString, escaped)
      decreases |source| - index
    {
      var character := source[index];
      if inString {
        if escaped {
          escaped := false;
        } else if character == 0x5C {
          escaped := true;
        } else if character == 0x22 {
          inString := false;
        }
        index := index + 1;
        continue;
      }
      if character == 0x22 {
        inString := true;
        index := index + 1;
        continue;
      }
      if character != 0x2D && (character < 0x30 || character > 0x39) {
        index := index + 1;
        continue;
      }
      var match_ := MatchNumber(source, index);
      if match_.None? {
        index := index + 1;
        continue;
      }
      var lexeme := source[index..match_.value];
      if 0x2E in lexeme || 0x65 in lexeme || 0x45 in lexeme {
        return Some(NumberIssue(lexeme, NotInteger));
      }
      if !IsSafeIntegerLexeme(lexeme) {
        return Some(NumberIssue(lexeme, NotSafe));
      }
      index := index + (|lexeme| - 1);
      index := index + 1;
    }
    return None;
  }

  // ----- the number tokens of a value, in text order

  function Numbers(v: Value): seq<Number> {
    match v
    case Num(n) => [n]
    case Arr(items) => NumbersInItems(items)
    case Obj(members) => NumbersInMembers(members)
    case _ => []
  }

  function NumbersInItems(xs: Items): seq<Number> {
    match xs
    case EndItems => []
    case Item(e, tail) => Numbers(e.v) + NumbersInItems(tail)
  }

  function NumbersInMembers(ms: Members): seq<Number> {
    match ms
    case EndMembers => []
    case Member(e, tail) => Numbers(e.v) + NumbersInMembers(tail)
  }

  // ----- where they stand

  /** The offsets of the number tokens of a value whose text starts at `at`. */
  function Offsets(v: Value, at: nat): seq<nat> {
    match v
    case Num(n) => [at]
    case Arr(items) => OffsetsInItems(items, at + 1)
    case Obj(members) => OffsetsInMembers(members, at + 1)
    case _ => []
  }

  function OffsetsInItems(xs: Items, at: nat): seq<nat> {
    match xs
    case EndItems => []
    case Item(e, tail) => Offsets(e.v, at + |e.before|) + OffsetsInItems(tail, at + |ElementText(e)| + 1)
  }

  function OffsetsInMembers(ms: Members, at: nat): seq<nat> {
    match ms
    case EndMembers => []
    case Member(e, tail) =>
      Offsets(e.v, at + |e.before| + |StringText(e.name)| + |e.gap| + 1 + |e.between|)
      + OffsetsInMembers(tail, at + |EntryText(e)| + 1)
  }

  /** At the offset stands this number and no longer one. */
  predicate StandsAt(s: Text, n: Number, at: nat) {
    at <= |s| && ReadNumber(s, at) == Read(n, at + |NumberText(n)|)
  }

  /** The numbers stand in `s` at their offsets, one after the other, between `lo` and `hi`. */
  predicate Placed(s: Text, ns: seq<Number>, at: seq<nat>, lo: nat, hi: nat) {
    && |at| == |ns|
    && (forall i | 0 <= i < |ns| ::
          lo <= at[i] && at[i] + |NumberText(ns[i])| <= hi && StandsAt(s, ns[i], at[i]))
    && (forall i, j | 0 <= i < j < |ns| :: at[i] + |NumberText(ns[i])| <= at[j])
  }

  lemma PlacedAppend(s: Text, a: seq<Number>, x: seq<nat>, b: seq<Number>, y: seq<nat>, lo: nat, mid: nat, hi: nat)
    requires lo <= mid <= hi && Placed(s, a, x, lo, mid) && Placed(s, b, y, mid, hi)
    ensures Placed(s, a + b, x + y, lo, hi)
  {
    hide StandsAt, NumberText;
    var c, z := a + b, x + y;
    forall i | 0 <= i < |c|
      ensures lo <= z[i] && z[i] + |NumberText(c[i])| <= hi && StandsAt(s, c[i], z[i])
    {
      assert c[i] == if i < |a| then a[i] else b[i - |a|];
    }
    forall i, j | 0 <= i < j < |c| ensures z[i] + |NumberText(c[i])| <= z[j] {
      assert c[i] == if i < |a| then a[i] else b[i - |a|];
      assert c[j] == if j < |a| then a[j] else b[j - |a|];
    }
  }

  lemma PlacedWiden(s: Text, ns: seq<Number>, at: seq<nat>, lo: nat, hi: nat, lo': nat, hi': nat)
    requires lo' <= lo && hi <= hi' && Placed(s, ns, at, lo, hi)
    ensures Placed(s, ns, at, lo', hi')
  {
    hide StandsAt, NumberText;
  }

  /** A number is acceptable on the wire: an integer lexeme of magnitude at most 2^53 - 1. */
  predicate OnWire(n: Number)
    requires ValidNumber(n)
  {
    IsInteger(n) && -MAX_SAFE_INTEGER <= IntegerValue(n) <= MAX_SAFE_INTEGER
  }

  function IssueOf(n: Number): Option<NumberIssue>
    requires ValidNumber(n)
  {
    if OnWire(n) then None
    else Some(NumberIssue(NumberText(n), if IsInteger(n) then NotSafe else NotInteger))
  }

  ghost predicate AllValid(ns: seq<Number>) { forall i | 0 <= i < |ns| :: ValidNumber(ns[i]) }

  function FirstIssue(ns: seq<Number>): Option<NumberIssue>
    requires AllValid(ns)
  {
    if ns == [] then None else First(IssueOf(ns[0]), FirstIssue(ns[1..]))
  }

  lemma {:induction false} FirstIssueAppend(a: seq<Number>, b: seq<Number>)
    requires AllValid(a) && AllValid(b)
    ensures AllValid(a + b) && FirstIssue(a + b) == First(FirstIssue(a), FirstIssue(b))
  {
    if a == [] {
      assert a + b == b;
    } else {
      assert (a + b)[1..] == a[1..] + b;
      FirstIssueAppend(a[1..], b);
    }
  }

  /** The first issue is that of the first number not acceptable on the wire. */
  lemma {:induction false} FirstIssueMeans(ns: seq<Number>)
    requires AllValid(ns)
    ensures FirstIssue(ns).None? <==> forall i | 0 <= i < |ns| :: OnWire(ns[i])
    ensures FirstIssue(ns).Some? ==>
              exists k :: 0 <= k < |ns| && !OnWire(ns[k]) && FirstIssue(ns) == IssueOf(ns[k])
                       && forall i | 0 <= i < k :: OnWire(ns[i])
  {
    if ns != [] {
      FirstIssueMeans(ns[1..]);
      if OnWire(ns[0]) {
        if FirstIssue(ns[1..]).Some? {
          var k :| 0 <= k < |ns[1..]| && !OnWire(ns[1..][k]) && FirstIssue(ns[1..]) == IssueOf(ns[1..][k])
                && forall i | 0 <= i < k :: OnWire(ns[1..][i]);
          assert ns[k + 1] == ns[1..][k];
          forall i | 0 <= i < k + 1 ensures OnWire(ns[i]) {
            assert i > 0 ==> ns[i] == ns[1..][i - 1];
          }
        } else {
          forall i | 0 <= i < |ns| ensures OnWire(ns[i]) {
            assert i > 0 ==> ns[i] == ns[1..][i - 1];
          }
        }
      } else {
        assert !OnWire(ns[0]) && FirstIssue(ns) == IssueOf(ns[0]);
      }
    }
  }

  // ----- the scan of a valid text finds the first issue among its number tokens

  /** Code units outside strings that the scan passes over. */
  predicate Passed(c: int) { c != 0x22 && !StartsNumber(c) }

  lemma {:induction false} FlatPasses(s: Text, i: nat, x: Text)
    requires Has(s, i, x) && forall k | 0 <= k < |x| :: Passed(x[k])
    ensures Flat(s, i, false, false) == Flat(s, i + |x|, false, false)
    decreases x
  {
    hide Has, MatchNumber;
    if x != [] {
      HasFirst(s, i, x);
      FlatPasses(s, i + 1, x[1..]);
    }
  }

  lemma {:induction false} FlatInString(s: Text, i: nat, cs: seq<Char>)
    requires ValidChars(cs) && Has(s, i, CharsText(cs) + [0x22])
    ensures Flat(s, i, true, false) == Flat(s, i + |CharsText(cs)| + 1, false, false)
    decreases cs
  {
    hide Has, MatchNumber;
    if cs == [] {
      HasFirst(s, i, CharsText(cs) + [0x22]);
    } else {
      var x, y := CharText(cs[0]), CharsText(cs[1..]) + [0x22];
      assert CharsText(cs) + [0x22] == x + y;
      HasConcat(s, i, x, y);
      FlatChar(s, i, cs[0]);
      FlatInString(s, i + |x|, cs[1..]);
    }
  }

  lemma FlatChar(s: Text, i: nat, ch: Char)
    requires ValidChar(ch) && Has(s, i, CharText(ch))
    ensures Flat(s, i, true, false) == Flat(s, i + |CharText(ch)|, true, false)
  {
    hide MatchNumber;
    var x := CharText(ch);
    HasFirst(s, i, x);
    if !ch.Plain? {
      HasFirst(s, i + 1, x[1..]);
      assert Flat(s, i + 1, true, true) == Flat(s, i + 2, true, false);
      if ch.Hex? {
        HasFirst(s, i + 2, x[2..]);
        HasFirst(s, i + 3, x[3..]);
        HasFirst(s, i + 4, x[4..]);
        HasFirst(s, i + 5, x[5..]);
        assert Flat(s, i + 2, true, false) == Flat(s, i + 3, true, false);
        assert Flat(s, i + 4, true, false) == Flat(s, i + 5, true, false);
      }
    }
  }

  lemma FlatString(s: Text, i: nat, cs: seq<Char>)
    requires ValidChars(cs) && Has(s, i, StringText(cs))
    ensures Flat(s, i, false, false) == Flat(s, i + |StringText(cs)|, false, false)
  {
    hide Has, MatchNumber, CharsText;
    HasFirst(s, i, StringText(cs));
    HasConcat(s, i, [0x22], CharsText(cs) + [0x22]);
    FlatInString(s, i + 1, cs);
  }

  /** The scan's tests on the text of a number are what the number is. */
  lemma LexemeIssueIs(n: Number)
    requires ValidNumber(n)
    ensures LexemeIssue(NumberText(n)) == IssueOf(n)
  {
    hide IsSafeIntegerLexeme, IntegerValue;
    var t, f, e := NumberText(n), FractionText(n.fraction), ExponentText(n.exponent);
    if n.fraction.Some? {
      assert f[0] == 0x2E;
      assert 0x2E in f;
      assert 0x2E in t;
    }
    if n.exponent.Some? {
      assert e[0] == n.exponent.value.mark;
      assert n.exponent.value.mark in e;
      assert n.exponent.value.mark in t;
    }
    if IsInteger(n) {
      assert t == MinusText(n.minus) + n.whole;
      assert forall c | c in t :: c == 0x2D || IsDigit(c);
      SafeIntegerExact(n);
    }
  }

  lemma FlatNumber(s: Text, i: nat, n: Number)
    requires ValidNumber(n) && Has(s, i, NumberText(n)) && Stops(At(s, i + |NumberText(n)|))
    ensures Flat(s, i, false, false) == First(IssueOf(n), Flat(s, i + |NumberText(n)|, false, false))
  {
    hide Has, LexemeIssue, IssueOf, ReadWhole, ReadFraction, ReadExponent, NumberText;
    NumberComplete(s, i, n);
    HasIs(s, i, NumberText(n));
    LexemeIssueIs(n);
    assert MatchNumber(s, i) == Some(i + |NumberText(n)|);
    ValueStart(Num(n));
    assert ValueText(Num(n)) == NumberText(n);
    HasFirst(s, i, NumberText(n));
  }

  /** Between `i` and `end` the scan meets exactly these numbers, standing at these offsets. */
  ghost predicate FlatSkips(s: Text, i: nat, ns: seq<Number>, at: seq<nat>, end: nat)
    requires i <= end <= |s|
  {
    && AllValid(ns) && Flat(s, i, false, false) == First(FirstIssue(ns), Flat(s, end, false, false))
    && Placed(s, ns, at, i, end)
  }

  lemma FlatJoin(s: Text, i: nat, a: seq<Number>, x: seq<nat>, j: nat, b: seq<Number>, y: seq<nat>, end: nat)
    requires i <= j <= end <= |s| && FlatSkips(s, i, a, x, j) && FlatSkips(s, j, b, y, end)
    ensures FlatSkips(s, i, a + b, x + y, end)
  {
    hide Flat, Placed;
    FirstIssueAppend(a, b);
    PlacedAppend(s, a, x, b, y, i, j, end);
  }

  lemma {:induction false} FlatValue(s: Text, i: nat, v: Value)
    requires ValidValue(v) && Has(s, i, ValueText(v)) && (v.Num? ==> Stops(At(s, i + |ValueText(v)|)))
    ensures FlatSkips(s, i, Numbers(v), Offsets(v, i), i + |ValueText(v)|)
    decreases v, 1
  {
    hide Has, Flat, NumberText, StringText, ItemsText, MembersText, IssueOf, ReadNumber, Placed;
    match v {
      case Num(n) =>
        FlatNumber(s, i, n);
        assert FirstIssue([n]) == IssueOf(n);
        OnePlaced(s, n, i);
      case Str(cs) =>
        FlatString(s, i, cs);
        NonePlaced(s, i, i + |ValueText(v)|);
      case Arr(items) =>
        HasConcat(s, i, [0x5B], ItemsText(items));
        FlatPasses(s, i, [0x5B]);
        FlatItems(s, i + 1, items);
        PlacedWiden(s, Numbers(v), Offsets(v, i), i + 1, i + |ValueText(v)|, i, i + |ValueText(v)|);
      case Obj(members) =>
        HasConcat(s, i, [0x7B], MembersText(members));
        FlatPasses(s, i, [0x7B]);
        FlatMembers(s, i + 1, members);
        PlacedWiden(s, Numbers(v), Offsets(v, i), i + 1, i + |ValueText(v)|, i, i + |ValueText(v)|);
      case _ =>
        FlatPasses(s, i, ValueText(v));
        NonePlaced(s, i, i + |ValueText(v)|);
    }
  }

  lemma OnePlaced(s: Text, n: Number, i: nat)
    requires ValidNumber(n) && Has(s, i, NumberText(n)) && Stops(At(s, i + |NumberText(n)|))
    ensures Placed(s, [n], [i], i, i + |NumberText(n)|)
  {
    hide Has, NumberText, ReadNumber;
    NumberComplete(s, i, n);
  }

  lemma NonePlaced(s: Text, lo: nat, hi: nat)
    ensures Placed(s, [], [], lo, hi)
  {
  }

  lemma {:induction false} FlatItems(s: Text, i: nat, xs: Items)
    requires xs.Item? && ValidItems(xs) && Has(s, i, ItemsText(xs))
    ensures FlatSkips(s, i, NumbersInItems(xs), OffsetsInItems(xs, i), i + |ItemsText(xs)|)
    decreases xs
  {
    hide Has, Flat, FlatSkips, ElementText, ValidElement;
    HasConcat(s, i, ElementText(xs.element), ItemsRest(xs.tail));
    var j, end := i + |ElementText(xs.element)|, i + |ItemsText(xs)|;
    var rest, at := NumbersInItems(xs.tail), OffsetsInItems(xs.tail, j + 1);
    HasFirst(s, j, ItemsRest(xs.tail));
    FlatElement(s, i, xs.element);
    if xs.tail.Item? {
      HasConcat(s, j, [0x2C], ItemsText(xs.tail));
      FlatDelimiter(s, j, 0x2C);
      FlatItems(s, j + 1, xs.tail);
      FlatJoin(s, j, [], [], j + 1, rest, at, end);
      assert [] + rest == rest && [] + at == at;
    } else {
      FlatDelimiter(s, j, 0x5D);
    }
    FlatJoin(s, i, Numbers(xs.element.v), Offsets(xs.element.v, i + |xs.element.before|), j, rest, at, end);
  }

  lemma FlatDelimiter(s: Text, j: nat, c: Unit)
    requires At(s, j) == c && Passed(c)
    ensures j < |s| && FlatSkips(s, j, [], [], j + 1)
  {
    hide MatchNumber;
  }

  lemma {:induction false} FlatElement(s: Text, i: nat, e: Element)
    requires ValidElement(e) && Has(s, i, ElementText(e)) && Delimits(At(s, i + |ElementText(e)|))
    ensures FlatSkips(s, i, Numbers(e.v), Offsets(e.v, i + |e.before|), i + |ElementText(e)|)
    decreases e
  {
    hide Has, Flat, ValueText, ValidValue, Placed;
    HasConcat(s, i, e.before, ValueText(e.v) + e.after);
    FlatPasses(s, i, e.before);
    var j, end := i + |e.before|, i + |ElementText(e)|;
    FlatPadded(s, j, e.v, e.after);
    PlacedWiden(s, Numbers(e.v), Offsets(e.v, j), j, end, i, end);
  }

  lemma {:induction false} FlatPadded(s: Text, i: nat, v: Value, after: Text)
    requires ValidValue(v) && AllIn(after, Space)
    requires Has(s, i, ValueText(v) + after) && Delimits(At(s, i + |ValueText(v) + after|))
    ensures FlatSkips(s, i, Numbers(v), Offsets(v, i), i + |ValueText(v) + after|)
    decreases v, 2
  {
    hide Has, Flat, ValueText, ValidValue, Placed;
    HasConcat(s, i, ValueText(v), after);
    var j := i + |ValueText(v)|;
    if after != [] { HasFirst(s, j, after); }
    FlatValue(s, i, v);
    FlatPasses(s, j, after);
    PlacedWiden(s, Numbers(v), Offsets(v, i), i, j, i, j + |after|);
  }

  lemma {:induction false} FlatMembers(s: Text, i: nat, ms: Members)
    requires ms.Member? && ValidMembers(ms) && Has(s, i, MembersText(ms))
    ensures FlatSkips(s, i, NumbersInMembers(ms), OffsetsInMembers(ms, i), i + |MembersText(ms)|)
    decreases ms
  {
    hide Has, Flat, FlatSkips, EntryText, ValidEntry, StringText;
    var e := ms.entry;
    HasConcat(s, i, EntryText(e), MembersRest(ms.tail));
    var j, end := i + |EntryText(e)|, i + |MembersText(ms)|;
    var d := i + |e.before| + |StringText(e.name)| + |e.gap| + 1 + |e.between|;
    var rest, at := NumbersInMembers(ms.tail), OffsetsInMembers(ms.tail, j + 1);
    HasFirst(s, j, MembersRest(ms.tail));
    FlatEntry(s, i, e);
    if ms.tail.Member? {
      HasConcat(s, j, [0x2C], MembersText(ms.tail));
      FlatDelimiter(s, j, 0x2C);
      FlatMembers(s, j + 1, ms.tail);
      FlatJoin(s, j, [], [], j + 1, rest, at, end);
      assert [] + rest == rest && [] + at == at;
    } else {
      FlatDelimiter(s, j, 0x7D);
    }
    FlatJoin(s, i, Numbers(e.v), Offsets(e.v, d), j, rest, at, end);
  }

  lemma {:induction false} FlatEntry(s: Text, i: nat, e: Entry)
    requires ValidEntry(e) && Has(s, i, EntryText(e)) && Delimits(At(s, i + |EntryText(e)|))
    ensures var d := i + |e.before| + |StringText(e.name)| + |e.gap| + 1 + |e.between|;
            FlatSkips(s, i, Numbers(e.v), Offsets(e.v, d), i + |EntryText(e)|)
    decreases e
  {
    hide Has, Flat, ValueText, ValidValue, StringText, EntryText, Placed;
    var a, n, c, d, v := EntrySplit(s, i, e);
    FlatPasses(s, i, e.before);
    FlatString(s, a, e.name);
    FlatPasses(s, n, e.gap);
    HasUnit(s, c, 0x3A);
    FlatPasses(s, c, [0x3A]);
    FlatPasses(s, c + 1, e.between);
    FlatPadded(s, d, e.v, e.after);
    var end := i + |EntryText(e)|;
    PlacedWiden(s, Numbers(e.v), Offsets(e.v, d), d, end, i, end);
  }

  // ----- the main result

  function DocumentNumbers(d: Document): seq<Number> { Numbers(d.v) }

  /** On valid JSON the number tokens listed stand in the text one after the other; the scan finds nothing
      exactly when every one is acceptable on the wire, and otherwise reports the first that is not. */
  lemma ScanFindsFirstBadNumber(s: Text)
    requires ReadDocument(s).Some?
    ensures var ns, r := DocumentNumbers(ReadDocument(s).value), Flat(s, 0, false, false);
            && AllValid(ns) && Placed(s, ns, Offsets(ReadDocument(s).value.v, |ReadDocument(s).value.lead|), 0, |s|)
            && (r.None? <==> forall i | 0 <= i < |ns| :: OnWire(ns[i]))
            && (r.Some? ==> exists k :: 0 <= k < |ns| && !OnWire(ns[k]) && r == IssueOf(ns[k])
                                     && forall i | 0 <= i < k :: OnWire(ns[i]))
  {
    hide Has, ReadDocument, ValueText, ValidValue, Flat, OnWire, IssueOf, Placed;
    var d := ReadDocument(s).value;
    DocumentSound(s);
    var i, j := DocumentSplit(d);
    FlatPasses(s, 0, d.lead);
    FlatValue(s, i, d.v);
    FlatPasses(s, j, d.trail);
    FlatEnds(s);
    PlacedWiden(s, Numbers(d.v), Offsets(d.v, i), i, j, 0, |s|);
    FirstIssueMeans(DocumentNumbers(d));
  }

  lemma FlatEnds(s: Text)
    ensures Flat(s, |s|, false, false) == None
  {
  }
}
