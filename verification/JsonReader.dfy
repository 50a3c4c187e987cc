/** The tree-building reading of the scanners in contracts/ts/wire-json.ts, and the proof that it is a
    sound, complete and unambiguous parser of the JSON grammar. */
module JsonReader {
  import opened CodeUnits
  import opened Decimal
  import opened Options
  import opened JsonGrammar

  datatype Read<+T> = Fail | Read(tree: T, end: nat)

  /** The first position at or after `i` whose code unit is not in the class. */
  function Span(s: Text, i: nat, k: Class): (r: nat)
    requires i <= |s|
    ensures i <= r <= |s|
    ensures AllIn(s[i..r], k)
    ensures !In(At(s, r), k)
    decreases |s| - i
  {
    if i < |s| && In(s[i], k) then
      var r := Span(s, i + 1, k);
      assert s[i..r] == [s[i]] + s[i + 1..r];
      r
    else i
  }

  lemma {:induction false} SpanIs(s: Text, i: nat, w: Text, k: Class)
    requires Has(s, i, w) && AllIn(w, k) && !In(At(s, i + |w|), k)
    ensures Span(s, i, k) == i + |w|
    decreases w
  {
    if w != [] {
      assert s[i] == s[i..i + |w|][0];
      assert s[i + 1..i + |w|] == w[1..];
      SpanIs(s, i + 1, w[1..], k);
    }
  }

  // ----- strings

  function ReadChar(s: Text, i: nat): (r: Read<Char>)
    requires i < |s|
    ensures r.Read? ==> ValidChar(r.tree) && Has(s, i, CharText(r.tree)) && r.end == i + |CharText(r.tree)|
    ensures r.Read? ==> i < r.end <= |s|
  {
    var c := s[i];
    if c < 0x20 || c == 0x22 then Fail
    else if c != 0x5C then Read(Plain(c), i + 1)
    else if i + 1 >= |s| then Fail
    else if ShortValue(s[i + 1]).Some? then Read(Short(s[i + 1]), i + 2)
    else if s[i + 1] == 0x75 && i + 6 <= |s| && HexFour(s[i + 2..i + 6]) then
      assert s[i..i + 6] == [0x5C, 0x75] + s[i + 2..i + 6];
      Read(Hex(s[i + 2..i + 6]), i + 6)
    else Fail
  }

  /** The characters of a literal from `i` to its closing quotation mark. */
  function ReadChars(s: Text, i: nat): (r: Read<seq<Char>>)
    requires i <= |s|
    ensures r.Read? ==> i < r.end <= |s| && ValidChars(r.tree)
    decreases |s| - i
  {
    if i >= |s| then Fail
    else if s[i] == 0x22 then Read([], i + 1)
    else
      var ch := ReadChar(s, i);
      if ch.Fail? then Fail else
        var rest := ReadChars(s, ch.end);
        if rest.Fail? then Fail else Read([ch.tree] + rest.tree, rest.end)
  }

  lemma {:induction false} CharsSound(s: Text, i: nat)
    requires i <= |s| && ReadChars(s, i).Read?
    ensures var r := ReadChars(s, i); Has(s, i, CharsText(r.tree) + [0x22]) && r.end == i + |CharsText(r.tree)| + 1
    decreases |s| - i
  {
    if s[i] != 0x22 {
      var ch := ReadChar(s, i);
      CharsSound(s, ch.end);
      var rest := ReadChars(s, ch.end);
      var tail := CharsText(rest.tree) + [0x22];
      assert ([ch.tree] + rest.tree)[1..] == rest.tree;
      HasConcat(s, i, CharText(ch.tree), tail);
      assert CharsText([ch.tree] + rest.tree) + [0x22] == CharText(ch.tree) + tail;
    }
  }

  lemma CharComplete(s: Text, i: nat, ch: Char)
    requires ValidChar(ch) && Has(s, i, CharText(ch))
    ensures ReadChar(s, i) == Read(ch, i + |CharText(ch)|)
  {
    var x := CharText(ch);
    forall k | 0 <= k < |x| ensures s[i + k] == x[k] { assert s[i..i + |x|][k] == s[i + k]; }
    match ch {
      case Plain(c) =>
      case Short(e) =>
        assert s[i + 1] == e;
      case Hex(h) =>
        assert s[i + 1] == 0x75;
        assert x[2..] == h;
        assert s[i + 2..i + 6] == h;
    }
  }

  lemma {:induction false} CharsComplete(s: Text, i: nat, cs: seq<Char>)
    requires ValidChars(cs) && Has(s, i, CharsText(cs) + [0x22])
    ensures ReadChars(s, i) == Read(cs, i + |CharsText(cs)| + 1)
    decreases cs
  {
    if cs == [] {
      assert s[i] == s[i..i + 1][0];
    } else {
      var x, y := CharText(cs[0]), CharsText(cs[1..]) + [0x22];
      assert CharsText(cs) + [0x22] == x + y;
      HasConcat(s, i, x, y);
      CharComplete(s, i, cs[0]);
      CharsComplete(s, i + |x|, cs[1..]);
      assert s[i] == s[i..i + |x|][0];
      assert [cs[0]] + cs[1..] == cs;
    }
  }

  // ----- numbers

  function ReadWhole(s: Text, i: nat): (r: Read<Text>)
    requires i <= |s|
    ensures r.Read? ==> Canonical(r.tree) && Has(s, i, r.tree) && i < r.end == i + |r.tree| <= |s|
  {
    if At(s, i) == 0x30 then Read(s[i..i + 1], i + 1)
    else if IsDigit(At(s, i)) then
      var e := Span(s, i + 1, Digit);
      assert s[i..e] == [s[i]] + s[i + 1..e];
      Read(s[i..e], e)
    else Fail
  }

  function ReadFraction(s: Text, i: nat): (r: Read<Option<Text>>)
    requires i <= |s|
    ensures r.Read? ==> Has(s, i, FractionText(r.tree)) && r.end == i + |FractionText(r.tree)| <= |s|
    ensures r.Read? && r.tree.Some? ==> r.tree.value != [] && AllIn(r.tree.value, Digit)
  {
    if At(s, i) != 0x2E then Read(None, i)
    else
      var e := Span(s, i + 1, Digit);
      assert s[i..e] == [0x2E] + s[i + 1..e];
      if e == i + 1 then Fail else Read(Some(s[i + 1..e]), e)
  }

  function SignLength(s: Text, i: nat): (n: nat)
    ensures n <= 1 && (i <= |s| ==> i + n <= |s|)
  {
    if At(s, i) == 0x2B || At(s, i) == 0x2D then 1 else 0
  }

  function ReadExponent(s: Text, i: nat): (r: Read<Option<Exponent>>)
    requires i <= |s|
    ensures r.Read? ==> Has(s, i, ExponentText(r.tree)) && r.end == i + |ExponentText(r.tree)| <= |s|
    ensures r.Read? && r.tree.Some? ==> ValidNumber(Number(false, [0x30], None, r.tree))
  {
    if At(s, i) != 0x65 && At(s, i) != 0x45 then Read(None, i)
    else
      var d := i + 1 + SignLength(s, i + 1);
      var e := Span(s, d, Digit);
      assert s[i..e] == [s[i]] + (s[i + 1..d] + s[d..e]);
      if e == d then Fail else Read(Some(Exponent(s[i], s[i + 1..d], s[d..e])), e)
  }

  function ReadNumber(s: Text, i: nat): (r: Read<Number>)
    requires i <= |s|
    ensures r.Read? ==> i < r.end <= |s|
  {
    var minus := At(s, i) == 0x2D;
    var w := ReadWhole(s, i + |MinusText(minus)|);
    if w.Fail? then Fail else
      var f := ReadFraction(s, w.end);
      if f.Fail? then Fail else
        var e := ReadExponent(s, f.end);
        if e.Fail? then Fail else Read(Number(minus, w.tree, f.tree, e.tree), e.end)
  }

  lemma NumberSound(s: Text, i: nat)
    requires i <= |s| && ReadNumber(s, i).Read?
    ensures var r := ReadNumber(s, i);
            ValidNumber(r.tree) && Has(s, i, NumberText(r.tree)) && r.end == i + |NumberText(r.tree)|
  {
    hide Has, ReadWhole, ReadFraction, ReadExponent, FractionText, ExponentText, Canonical, AllIn;
    var n := ReadNumber(s, i).tree;
    var m := MinusText(n.minus);
    var f, e := FractionText(n.fraction), ExponentText(n.exponent);
    if n.minus { HasUnit(s, i, 0x2D); } else { HasSlice(s, i, i); }
    HasConcat(s, i + |m| + |n.whole|, f, e);
    HasConcat(s, i + |m|, n.whole, f + e);
    HasConcat(s, i, m, n.whole + (f + e));
  }

  /** A code unit that cannot continue a number. */
  predicate Stops(c: int) { !IsDigit(c) && c != 0x2E && c != 0x65 && c != 0x45 }

  lemma HasFirst(s: Text, i: nat, x: Text)
    requires Has(s, i, x) && x != []
    ensures i < |s| && At(s, i) == s[i] == x[0]
    ensures Has(s, i + 1, x[1..])
  {
    assert s[i] == s[i..i + |x|][0];
    assert s[i + 1..i + |x|] == s[i..i + |x|][1..];
  }

  lemma WholeComplete(s: Text, i: nat, w: Text)
    requires Canonical(w) && Has(s, i, w) && !IsDigit(At(s, i + |w|))
    ensures ReadWhole(s, i) == Read(w, i + |w|)
  {
    HasFirst(s, i, w);
    if w[0] == 0x30 {
      assert w == [w[0]];
    } else {
      SpanIs(s, i + 1, w[1..], Digit);
    }
  }

  lemma FractionComplete(s: Text, i: nat, f: Option<Text>)
    requires f.Some? ==> f.value != [] && AllIn(f.value, Digit)
    requires var x := FractionText(f); Has(s, i, x) && !IsDigit(At(s, i + |x|)) && (f.None? ==> At(s, i) != 0x2E)
    ensures ReadFraction(s, i) == Read(f, i + |FractionText(f)|)
  {
    if f.Some? {
      HasFirst(s, i, FractionText(f));
      assert FractionText(f)[1..] == f.value;
      SpanIs(s, i + 1, f.value, Digit);
    }
  }

  lemma SignIs(s: Text, i: nat, sign: Text, digits: Text)
    requires sign == [] || sign == [0x2B] || sign == [0x2D]
    requires Has(s, i, sign) && Has(s, i + |sign|, digits) && digits != [] && AllIn(digits, Digit)
    ensures SignLength(s, i) == |sign|
  {
    hide Has;
    HasFirst(s, i + |sign|, digits);
    if sign != [] { HasFirst(s, i, sign); }
  }

  lemma ExponentComplete(s: Text, i: nat, x: Exponent)
    requires ValidNumber(Number(false, [0x30], None, Some(x)))
    requires var t := ExponentText(Some(x)); Has(s, i, t) && !IsDigit(At(s, i + |t|))
    ensures ReadExponent(s, i) == Read(Some(x), i + |ExponentText(Some(x))|)
  {
    hide Has, AllIn, SignLength, Canonical, Span;
    var t := ExponentText(Some(x));
    var d := i + 1 + |x.sign|;
    HasFirst(s, i, t);
    HasConcat(s, i, [x.mark], x.sign + x.digits);
    HasConcat(s, i + 1, x.sign, x.digits);
    SignIs(s, i + 1, x.sign, x.digits);
    SpanIs(s, d, x.digits, Digit);
    HasIs(s, i + 1, x.sign);
    HasIs(s, d, x.digits);
  }

  /** Where the parts of an occurrence of a number lie, and what follows each. */
  lemma NumberParts(s: Text, i: nat, n: Number)
    requires ValidNumber(n) && Has(s, i, NumberText(n)) && Stops(At(s, i + |NumberText(n)|))
    ensures var w := i + |MinusText(n.minus)|;
            var f := w + |n.whole|;
            var e := f + |FractionText(n.fraction)|;
            && (At(s, i) == 0x2D <==> n.minus)
            && Has(s, w, n.whole) && !IsDigit(At(s, f))
            && Has(s, f, FractionText(n.fraction)) && !IsDigit(At(s, e)) && (n.fraction.None? ==> At(s, f) != 0x2E)
            && Has(s, e, ExponentText(n.exponent)) && (n.exponent.None? ==> Stops(At(s, e)))
            && i + |NumberText(n)| == e + |ExponentText(n.exponent)|
  {
    hide Has;
    var m, f, e := MinusText(n.minus), FractionText(n.fraction), ExponentText(n.exponent);
    HasConcat(s, i, m, n.whole + (f + e));
    HasConcat(s, i + |m|, n.whole, f + e);
    var j := i + |m| + |n.whole|;
    HasConcat(s, j, f, e);
    HasFirst(s, i + |m|, n.whole);
    if n.minus { HasFirst(s, i, m); }
    if e != [] { HasFirst(s, j + |f|, e); }
    if f != [] { HasFirst(s, j, f); }
  }

  lemma NumberComplete(s: Text, i: nat, n: Number)
    requires ValidNumber(n) && Has(s, i, NumberText(n)) && Stops(At(s, i + |NumberText(n)|))
    ensures ReadNumber(s, i) == Read(n, i + |NumberText(n)|)
  {
    hide Has, NumberText, ExponentText, FractionText, ReadWhole, ReadFraction;
    NumberParts(s, i, n);
    var w := i + |MinusText(n.minus)|;
    var f := w + |n.whole|;
    WholeComplete(s, w, n.whole);
    FractionComplete(s, f, n.fraction);
    var e := f + |FractionText(n.fraction)|;
    if n.exponent.Some? {
      ExponentComplete(s, e, n.exponent.value);
    } else {
      assert ReadExponent(s, e) == Read(None, e);
      assert |ExponentText(None)| == 0;
    }
  }

  // ----- values

  function ReadValue(s: Text, i: nat): (r: Read<Value>)
    requires i <= |s|
    ensures r.Read? ==> i < r.end <= |s|
    decreases |s| - i, 1
  {
    var c := At(s, i);
    if c == 0x22 then
      var r := ReadChars(s, i + 1);
      if r.Fail? then Fail else Read(Str(r.tree), r.end)
    else if c == 0x7B then ReadObject(s, i)
    else if c == 0x5B then ReadArray(s, i)
    else if Has(s, i, TRUE) then Read(True, i + 4)
    else if Has(s, i, FALSE) then Read(False, i + 5)
    else if Has(s, i, NULL) then Read(Null, i + 4)
    else if c == 0x2D || IsDigit(c) then
      var r := ReadNumber(s, i);
      if r.Fail? then Fail else Read(Num(r.tree), r.end)
    else Fail
  }

  function ReadArray(s: Text, i: nat): (r: Read<Value>)
    requires i < |s|
    ensures r.Read? ==> i < r.end <= |s|
    decreases |s| - i, 0
  {
    var j := Span(s, i + 1, Space);
    if At(s, j) == 0x5D then Read(EmptyArr(s[i + 1..j]), j + 1) else
      var r := ReadItems(s, i + 1);
      if r.Fail? then Fail else Read(Arr(r.tree), r.end)
  }

  /** Items from just after `[` or `,` to just after the closing bracket. */
  function ReadItems(s: Text, i: nat): (r: Read<Items>)
    requires i <= |s|
    ensures r.Read? ==> i < r.end <= |s| && r.tree.Item?
    decreases |s| - i, 3
  {
    var e := ReadElement(s, i);
    if e.Fail? then Fail
    else if At(s, e.end) == 0x5D then Read(Item(e.tree, EndItems), e.end + 1)
    else if At(s, e.end) != 0x2C then Fail
    else
      var rest := ReadItems(s, e.end + 1);
      if rest.Fail? then Fail else Read(Item(e.tree, rest.tree), rest.end)
  }

  /** One item with the white space around it, up to the delimiter. */
  function ReadElement(s: Text, i: nat): (r: Read<Element>)
    requires i <= |s|
    ensures r.Read? ==> i < r.end <= |s|
    decreases |s| - i, 2
  {
    var a := Span(s, i, Space);
    var v := ReadValue(s, a);
    if v.Fail? then Fail else
      var b := Span(s, v.end, Space);
      Read(Element(s[i..a], v.tree, s[v.end..b]), b)
  }

  function ReadObject(s: Text, i: nat): (r: Read<Value>)
    requires i < |s|
    ensures r.Read? ==> i < r.end <= |s|
    decreases |s| - i, 0
  {
    var j := Span(s, i + 1, Space);
    if At(s, j) == 0x7D then Read(EmptyObj(s[i + 1..j]), j + 1) else
      var r := ReadMembers(s, i + 1);
      if r.Fail? then Fail else Read(Obj(r.tree), r.end)
  }

  /** Members from just after `{` or `,` to just after the closing brace. */
  function ReadMembers(s: Text, i: nat): (r: Read<Members>)
    requires i <= |s|
    ensures r.Read? ==> i < r.end <= |s| && r.tree.Member?
    decreases |s| - i, 3
  {
    var e := ReadEntry(s, i);
    if e.Fail? then Fail
    else if At(s, e.end) == 0x7D then Read(Member(e.tree, EndMembers), e.end + 1)
    else if At(s, e.end) != 0x2C then Fail
    else
      var rest := ReadMembers(s, e.end + 1);
      if rest.Fail? then Fail else Read(Member(e.tree, rest.tree), rest.end)
  }

  /** One member with the white space around it, up to the delimiter. */
  function ReadEntry(s: Text, i: nat): (r: Read<Entry>)
    requires i <= |s|
    ensures r.Read? ==> i < r.end <= |s|
    decreases |s| - i, 2
  {
    var a := Span(s, i, Space);
    if At(s, a) != 0x22 then Fail else
      var name := ReadChars(s, a + 1);
      if name.Fail? then Fail else
        var c := Span(s, name.end, Space);
        if At(s, c) != 0x3A then Fail else
          var d := Span(s, c + 1, Space);
          var v := ReadValue(s, d);
          if v.Fail? then Fail else
            var b := Span(s, v.end, Space);
            Read(Entry(s[i..a], name.tree, s[name.end..c], s[c + 1..d], v.tree, s[v.end..b]), b)
  }

  function ReadDocument(s: Text): (r: Option<Document>) {
    var a := Span(s, 0, Space);
    var v := ReadValue(s, a);
    if v.Fail? || Span(s, v.end, Space) != |s| then None
    else Some(Document(s[..a], v.tree, s[v.end..]))
  }

  // ----- soundness: what is read is a derivation of exactly the text consumed

  lemma {:induction false} ValueSound(s: Text, i: nat)
    requires i <= |s| && ReadValue(s, i).Read?
    ensures var r := ReadValue(s, i);
            ValidValue(r.tree) && Has(s, i, ValueText(r.tree)) && r.end == i + |ValueText(r.tree)|
    decreases |s| - i, 1
  {
    hide Has, CharsText, ReadNumber, NumberText, ReadArray, ReadObject;
    var c := At(s, i);
    var r := ReadValue(s, i);
    if c == 0x22 {
      CharsSound(s, i + 1);
      HasUnit(s, i, c);
      HasConcat(s, i, [0x22], CharsText(r.tree.chars) + [0x22]);
    } else if c == 0x7B {
      ObjectSound(s, i);
    } else if c == 0x5B {
      ArraySound(s, i);
    } else if r.tree.Num? {
      NumberSound(s, i);
    }
  }

  lemma BracketsSound(s: Text, i: nat, j: nat)
    requires i < j < |s|
    ensures Has(s, i, [s[i]] + (s[i + 1..j] + [s[j]]))
  {
    HasSlice(s, i, j + 1);
    assert s[i..j + 1] == [s[i]] + (s[i + 1..j] + [s[j]]);
  }

  lemma {:induction false} ArraySound(s: Text, i: nat)
    requires i < |s| && s[i] == 0x5B && ReadArray(s, i).Read?
    ensures var r := ReadArray(s, i);
            ValidValue(r.tree) && Has(s, i, ValueText(r.tree)) && r.end == i + |ValueText(r.tree)|
    decreases |s| - i, 0
  {
    hide Has, ReadItems, ItemsText;
    var j := Span(s, i + 1, Space);
    if At(s, j) == 0x5D {
      BracketsSound(s, i, j);
    } else {
      ItemsSound(s, i + 1);
      HasUnit(s, i, 0x5B);
      HasConcat(s, i, [0x5B], ItemsText(ReadItems(s, i + 1).tree));
    }
  }

  lemma {:induction false} ItemsSound(s: Text, i: nat)
    requires i <= |s| && ReadItems(s, i).Read?
    ensures var r := ReadItems(s, i);
            ValidItems(r.tree) && Has(s, i, ItemsText(r.tree)) && r.end == i + |ItemsText(r.tree)|
    decreases |s| - i, 3
  {
    hide Has, ReadElement, ElementText, ValidElement;
    ElementSound(s, i);
    var e := ReadElement(s, i);
    var r := ReadItems(s, i);
    HasUnit(s, e.end, At(s, e.end));
    if r.tree.tail.Item? {
      ItemsSound(s, e.end + 1);
      HasConcat(s, e.end, [0x2C], ItemsText(r.tree.tail));
    }
    HasConcat(s, i, ElementText(e.tree), ItemsRest(r.tree.tail));
  }

  lemma {:induction false} ElementSound(s: Text, i: nat)
    requires i <= |s| && ReadElement(s, i).Read?
    ensures var r := ReadElement(s, i);
            ValidElement(r.tree) && Has(s, i, ElementText(r.tree)) && r.end == i + |ElementText(r.tree)|
    decreases |s| - i, 2
  {
    hide Has, ReadValue, ValueText;
    var a := Span(s, i, Space);
    ValueSound(s, a);
    var v := ReadValue(s, a);
    var e := ReadElement(s, i);
    HasSlice(s, i, a);
    HasSlice(s, v.end, e.end);
    HasConcat(s, a, ValueText(v.tree), e.tree.after);
    HasConcat(s, i, e.tree.before, ValueText(v.tree) + e.tree.after);
  }

  lemma {:induction false} ObjectSound(s: Text, i: nat)
    requires i < |s| && s[i] == 0x7B && ReadObject(s, i).Read?
    ensures var r := ReadObject(s, i);
            ValidValue(r.tree) && Has(s, i, ValueText(r.tree)) && r.end == i + |ValueText(r.tree)|
    decreases |s| - i, 0
  {
    hide Has, ReadMembers, MembersText;
    var j := Span(s, i + 1, Space);
    if At(s, j) == 0x7D {
      BracketsSound(s, i, j);
    } else {
      MembersSound(s, i + 1);
      HasUnit(s, i, 0x7B);
      HasConcat(s, i, [0x7B], MembersText(ReadMembers(s, i + 1).tree));
    }
  }

  lemma {:induction false} MembersSound(s: Text, i: nat)
    requires i <= |s| && ReadMembers(s, i).Read?
    ensures var r := ReadMembers(s, i);
            ValidMembers(r.tree) && Has(s, i, MembersText(r.tree)) && r.end == i + |MembersText(r.tree)|
    decreases |s| - i, 3
  {
    hide Has, ReadEntry, EntryText, ValidEntry;
    EntrySound(s, i);
    var e := ReadEntry(s, i);
    var r := ReadMembers(s, i);
    HasUnit(s, e.end, At(s, e.end));
    if r.tree.tail.Member? {
      MembersSound(s, e.end + 1);
      HasConcat(s, e.end, [0x2C], MembersText(r.tree.tail));
    }
    HasConcat(s, i, EntryText(e.tree), MembersRest(r.tree.tail));
  }

  lemma {:induction false} EntrySound(s: Text, i: nat)
    requires i <= |s| && ReadEntry(s, i).Read?
    ensures var r := ReadEntry(s, i);
            ValidEntry(r.tree) && Has(s, i, EntryText(r.tree)) && r.end == i + |EntryText(r.tree)|
    decreases |s| - i, 2
  {
    hide Has, ReadValue, ReadChars, ValueText, CharsText;
    var a := Span(s, i, Space);
    CharsSound(s, a + 1);
    var name := ReadChars(s, a + 1);
    var c := Span(s, name.end, Space);
    var d := Span(s, c + 1, Space);
    ValueSound(s, d);
    var v := ReadValue(s, d);
    EntryGlue(s, i, a, name.end, c, d, v.end, Span(s, v.end, Space), ReadEntry(s, i).tree);
  }

  /** Adjacent parts of a member make up the member. */
  lemma EntryGlue(s: Text, i: nat, a: nat, n: nat, c: nat, d: nat, e: nat, b: nat, m: Entry)
    requires i <= a <= n <= c < d <= e <= b <= |s|
    requires m.before == s[i..a] && m.gap == s[n..c] && m.between == s[c + 1..d] && m.after == s[e..b]
    requires At(s, a) == 0x22 && Has(s, a + 1, CharsText(m.name) + [0x22]) && n == a + 1 + |CharsText(m.name)| + 1
    requires At(s, c) == 0x3A && Has(s, d, ValueText(m.v)) && e == d + |ValueText(m.v)|
    ensures Has(s, i, EntryText(m)) && |EntryText(m)| == b - i
  {
    hide Has, ValueText, CharsText;
    HasUnit(s, a, 0x22);
    HasUnit(s, c, 0x3A);
    HasSlice(s, i, a);
    HasSlice(s, n, c);
    HasSlice(s, c + 1, d);
    HasSlice(s, e, b);
    var t2 := ValueText(m.v) + m.after;
    HasConcat(s, d, ValueText(m.v), m.after);
    var t3 := m.between + t2;
    HasConcat(s, c + 1, m.between, t2);
    var t4 := [0x3A] + t3;
    HasConcat(s, c, [0x3A], t3);
    var t5 := m.gap + t4;
    HasConcat(s, n, m.gap, t4);
    HasConcat(s, a, [0x22], CharsText(m.name) + [0x22]);
    HasConcat(s, a, StringText(m.name), t5);
    HasConcat(s, i, m.before, StringText(m.name) + t5);
  }

  // ----- completeness: every derivation is read back

  lemma HasOnly(s: Text, i: nat, c: Unit)
    requires Has(s, i, [c])
    ensures i < |s| && At(s, i) == s[i] == c
  {
    HasFirst(s, i, [c]);
  }

  predicate StartsValue(c: int) {
    c == 0x22 || c == 0x7B || c == 0x5B || c == 0x74 || c == 0x66 || c == 0x6E || c == 0x2D || IsDigit(c)
  }

  lemma ValueStart(v: Value)
    requires ValidValue(v)
    ensures ValueText(v) != [] && StartsValue(ValueText(v)[0])
    ensures v.Num? ==> ValueText(v)[0] == 0x2D || IsDigit(ValueText(v)[0])
  {
    if v.Num? {
      assert NumberText(v.n) != [] && (NumberText(v.n)[0] == 0x2D || NumberText(v.n)[0] == v.n.whole[0]);
    }
  }

  lemma {:induction false} ValueComplete(s: Text, i: nat, v: Value)
    requires ValidValue(v) && Has(s, i, ValueText(v)) && (v.Num? ==> Stops(At(s, i + |ValueText(v)|)))
    ensures ReadValue(s, i) == Read(v, i + |ValueText(v)|)
    decreases v, 1
  {
    hide Has, CharsText, ReadNumber, NumberText, ReadArray, ReadObject, ReadChars, ItemsText, MembersText;
    ValueStart(v);
    HasFirst(s, i, ValueText(v));
    match v {
      case Num(n) =>
        NumberComplete(s, i, n);
        HasNot(s, i, TRUE);
        HasNot(s, i, FALSE);
        HasNot(s, i, NULL);
      case Str(cs) =>
        HasConcat(s, i, [0x22], CharsText(cs) + [0x22]);
        CharsComplete(s, i + 1, cs);
      case Arr(_) => ArrayComplete(s, i, v);
      case EmptyArr(_) => ArrayComplete(s, i, v);
      case Obj(_) => ObjectComplete(s, i, v);
      case EmptyObj(_) => ObjectComplete(s, i, v);
      case _ =>
        if v != True { HasNot(s, i, TRUE); }
        if v != False { HasNot(s, i, FALSE); }
    }
  }

  lemma HasNot(s: Text, i: nat, x: Text)
    requires x != [] && At(s, i) != x[0]
    ensures !Has(s, i, x)
  {
    if Has(s, i, x) { HasFirst(s, i, x); }
  }

  lemma {:induction false} ArrayComplete(s: Text, i: nat, v: Value)
    requires (v.Arr? || v.EmptyArr?) && ValidValue(v) && Has(s, i, ValueText(v))
    ensures i < |s| && ReadArray(s, i) == Read(v, i + |ValueText(v)|)
    decreases v, 0
  {
    hide Has, ReadItems, ItemsText;
    HasFirst(s, i, ValueText(v));
    if v.Arr? {
      HasConcat(s, i, [0x5B], ItemsText(v.items));
      ItemsComplete(s, i + 1, v.items);
    } else {
      PadComplete(s, i, 0x5B, v.pad, 0x5D);
    }
  }

  lemma PadComplete(s: Text, i: nat, open: Unit, pad: Text, close: Unit)
    requires AllIn(pad, Space) && !In(close, Space) && Has(s, i, [open] + (pad + [close]))
    ensures var j := i + 1 + |pad|; j < |s| && Span(s, i + 1, Space) == j && s[i + 1..j] == pad && At(s, j) == close
  {
    hide Has;
    HasConcat(s, i, [open], pad + [close]);
    HasConcat(s, i + 1, pad, [close]);
    HasOnly(s, i + 1 + |pad|, close);
    SpanIs(s, i + 1, pad, Space);
    HasIs(s, i + 1, pad);
  }

  lemma {:induction false} ItemsComplete(s: Text, i: nat, xs: Items)
    requires xs.Item? && ValidItems(xs) && Has(s, i, ItemsText(xs))
    ensures ReadItems(s, i) == Read(xs, i + |ItemsText(xs)|)
    ensures StartsValue(At(s, Span(s, i, Space)))
    decreases xs
  {
    hide Has, ReadElement, ElementText, ValidElement;
    var e := xs.element;
    HasConcat(s, i, ElementText(e), ItemsRest(xs.tail));
    var j := i + |ElementText(e)|;
    HasFirst(s, j, ItemsRest(xs.tail));
    ElementComplete(s, i, e);
    if xs.tail.Item? {
      HasConcat(s, j, [0x2C], ItemsText(xs.tail));
      ItemsComplete(s, j + 1, xs.tail);
    }
  }

  /** What may follow a value inside a container. */
  predicate Delimits(c: int) { c == 0x2C || c == 0x5D || c == 0x7D }

  lemma {:induction false} ElementComplete(s: Text, i: nat, e: Element)
    requires ValidElement(e) && Has(s, i, ElementText(e)) && Delimits(At(s, i + |ElementText(e)|))
    ensures ReadElement(s, i) == Read(e, i + |ElementText(e)|)
    ensures StartsValue(At(s, Span(s, i, Space)))
    decreases e
  {
    hide Has, ReadValue, ValueText, ValidValue;
    HasConcat(s, i, e.before, ValueText(e.v) + e.after);
    PaddedComplete(s, i + |e.before|, e.v, e.after);
    SpanIs(s, i, e.before, Space);
    HasIs(s, i, e.before);
  }

  /** A value and the white space after it, before a delimiter. */
  lemma {:induction false} PaddedComplete(s: Text, i: nat, v: Value, after: Text)
    requires ValidValue(v) && AllIn(after, Space)
    requires Has(s, i, ValueText(v) + after) && Delimits(At(s, i + |ValueText(v) + after|))
    ensures var j := i + |ValueText(v)|;
            ReadValue(s, i) == Read(v, j) && Span(s, j, Space) == j + |after| && s[j..j + |after|] == after
    ensures StartsValue(At(s, i))
    decreases v, 2
  {
    hide Has, ReadValue, ValueText, ValidValue;
    HasConcat(s, i, ValueText(v), after);
    var j := i + |ValueText(v)|;
    ValueStart(v);
    HasFirst(s, i, ValueText(v));
    if after != [] { HasFirst(s, j, after); }
    ValueComplete(s, i, v);
    SpanIs(s, j, after, Space);
    HasIs(s, j, after);
  }

  lemma {:induction false} ObjectComplete(s: Text, i: nat, v: Value)
    requires (v.Obj? || v.EmptyObj?) && ValidValue(v) && Has(s, i, ValueText(v))
    ensures i < |s| && ReadObject(s, i) == Read(v, i + |ValueText(v)|)
    decreases v, 0
  {
    hide Has, ReadMembers, MembersText;
    HasFirst(s, i, ValueText(v));
    if v.Obj? {
      HasConcat(s, i, [0x7B], MembersText(v.members));
      MembersComplete(s, i + 1, v.members);
    } else {
      PadComplete(s, i, 0x7B, v.pad, 0x7D);
    }
  }

  lemma {:induction false} MembersComplete(s: Text, i: nat, ms: Members)
    requires ms.Member? && ValidMembers(ms) && Has(s, i, MembersText(ms))
    ensures ReadMembers(s, i) == Read(ms, i + |MembersText(ms)|)
    ensures At(s, Span(s, i, Space)) == 0x22
    decreases ms
  {
    hide Has, ReadEntry, EntryText, ValidEntry;
    var e := ms.entry;
    HasConcat(s, i, EntryText(e), MembersRest(ms.tail));
    var j := i + |EntryText(e)|;
    HasFirst(s, j, MembersRest(ms.tail));
    EntryComplete(s, i, e);
    if ms.tail.Member? {
      HasConcat(s, j, [0x2C], MembersText(ms.tail));
      MembersComplete(s, j + 1, ms.tail);
    }
  }

  lemma {:induction false} EntryComplete(s: Text, i: nat, e: Entry)
    requires ValidEntry(e) && Has(s, i, EntryText(e)) && Delimits(At(s, i + |EntryText(e)|))
    ensures ReadEntry(s, i) == Read(e, i + |EntryText(e)|)
    ensures At(s, Span(s, i, Space)) == 0x22
    decreases e
  {
    hide Has, ReadValue, ReadChars, ValueText, ValidValue, CharsText, StringText, EntryText, Delimits, AllIn, Span;
    var a, n, c, d, v := EntrySplit(s, i, e);
    NameComplete(s, i, e.before, e.name);
    SpanIs(s, n, e.gap, Space);
    SpanIs(s, c + 1, e.between, Space);
    PaddedComplete(s, d, e.v, e.after);
  }

  /** White space, a name, and its closing quotation mark. */
  lemma NameComplete(s: Text, i: nat, before: Text, name: seq<Char>)
    requires AllIn(before, Space) && ValidChars(name)
    requires Has(s, i, before) && Has(s, i + |before|, StringText(name))
    ensures var a := i + |before|;
            Span(s, i, Space) == a && At(s, a) == 0x22 && ReadChars(s, a + 1) == Read(name, a + |StringText(name)|)
  {
    hide Has, CharsText, ReadChars;
    var a := i + |before|;
    HasFirst(s, a, StringText(name));
    HasConcat(s, a, [0x22], CharsText(name) + [0x22]);
    SpanIs(s, i, before, Space);
    CharsComplete(s, a + 1, name);
  }

  lemma EntrySplit(s: Text, i: nat, e: Entry) returns (a: nat, n: nat, c: nat, d: nat, v: nat)
    requires ValidEntry(e) && Has(s, i, EntryText(e)) && Delimits(At(s, i + |EntryText(e)|))
    ensures a == i + |e.before| && n == a + |StringText(e.name)| && c == n + |e.gap|
    ensures d == c + 1 + |e.between| && v == d + |ValueText(e.v)| && i + |EntryText(e)| == v + |e.after|
    ensures v + |e.after| <= |s|
    ensures Has(s, i, e.before) && s[i..a] == e.before && Has(s, a, StringText(e.name))
    ensures Has(s, n, e.gap) && s[n..c] == e.gap && At(s, c) == 0x3A
    ensures Has(s, c + 1, e.between) && s[c + 1..d] == e.between && Has(s, d, ValueText(e.v) + e.after)
    ensures !In(At(s, d), Space)
  {
    hide Has, ValueText, ValidValue, StringText;
    var t2 := ValueText(e.v) + e.after;
    var t4 := [0x3A] + (e.between + t2);
    a := i + |e.before|;
    HasConcat(s, i, e.before, StringText(e.name) + (e.gap + t4));
    HasIs(s, i, e.before);
    n := a + |StringText(e.name)|;
    HasConcat(s, a, StringText(e.name), e.gap + t4);
    c := n + |e.gap|;
    HasConcat(s, n, e.gap, t4);
    HasIs(s, n, e.gap);
    HasConcat(s, c, [0x3A], e.between + t2);
    HasOnly(s, c, 0x3A);
    d := c + 1 + |e.between|;
    HasConcat(s, c + 1, e.between, t2);
    HasIs(s, c + 1, e.between);
    ValueStart(e.v);
    HasFirst(s, d, t2);
    v := d + |ValueText(e.v)|;
  }

  // ----- the main results

  /** The reader accepts exactly the valid JSON texts. */
  lemma ReadsExactlyJson(s: Text)
    ensures ReadDocument(s).Some? <==> ValidJson(s)
    ensures ReadDocument(s).Some? ==>
              ValidDocument(ReadDocument(s).value) && DocumentText(ReadDocument(s).value) == s
  {
    if ReadDocument(s).Some? {
      DocumentSound(s);
    }
    if ValidJson(s) {
      var d :| ValidDocument(d) && DocumentText(d) == s;
      DocumentComplete(d);
    }
  }

  lemma DocumentSound(s: Text)
    requires ReadDocument(s).Some?
    ensures var d := ReadDocument(s).value; ValidDocument(d) && DocumentText(d) == s
  {
    hide Has, ReadValue, ValueText, ValidValue;
    var a := Span(s, 0, Space);
    var v := ReadValue(s, a);
    ValueSound(s, a);
    HasIs(s, a, ValueText(v.tree));
    assert s == s[..a] + (s[a..v.end] + s[v.end..]);
    assert s[0..a] == s[..a] && s[v.end..|s|] == s[v.end..];
  }

  /** A derivation is read back from the text it derives; so the grammar is unambiguous. */
  lemma DocumentComplete(d: Document)
    requires ValidDocument(d)
    ensures ReadDocument(DocumentText(d)) == Some(d)
  {
    hide Has, ReadValue, ValueText, ValidValue;
    var s := DocumentText(d);
    var i, j := DocumentSplit(d);
    SpanIs(s, 0, d.lead, Space);
    ValueComplete(s, i, d.v);
    SpanIs(s, j, d.trail, Space);
  }

  lemma DocumentSplit(d: Document) returns (i: nat, j: nat)
    requires ValidDocument(d)
    ensures var s := DocumentText(d);
            && i == |d.lead| && j == i + |ValueText(d.v)| && j + |d.trail| == |s|
            && Has(s, 0, d.lead) && Has(s, i, ValueText(d.v)) && Has(s, j, d.trail)
            && !In(At(s, i), Space) && Stops(At(s, j)) && s[..i] == d.lead && s[j..] == d.trail
  {
    hide Has, ValueText, ValidValue;
    var s := DocumentText(d);
    HasSlice(s, 0, |s|);
    assert s[0..|s|] == s;
    i := |d.lead|;
    HasConcat(s, 0, d.lead, ValueText(d.v) + d.trail);
    HasConcat(s, i, ValueText(d.v), d.trail);
    ValueStart(d.v);
    HasFirst(s, i, ValueText(d.v));
    j := i + |ValueText(d.v)|;
    if d.trail != [] { HasFirst(s, j, d.trail); }
    assert s[0..i] == s[..i] && s[j..|s|] == s[j..];
    HasIs(s, 0, d.lead);
    HasIs(s, j, d.trail);
  }

  lemma Unambiguous(c: Document, d: Document)
    requires ValidDocument(c) && ValidDocument(d) && DocumentText(c) == DocumentText(d)
    ensures c == d
  {
    DocumentComplete(c);
    DocumentComplete(d);
  }
}
