/** The duplicate-member scanner of contracts/ts/wire-json.ts, loop by loop, against the reader. */
module WireJson {
  import opened CodeUnits
  import opened Decimal
  import opened Options
  import opened JsonGrammar
  import opened JsonReader

  datatype Issue = Issue(key: Text, path: Text)

  datatype StringScan = StringScan(end: nat, value: Text)

  datatype ValueScan = ValueScan(end: nat, duplicate: Option<Issue>)

  // ----- what the scanner reports about a tree

  function First<T>(a: Option<T>, b: Option<T>): Option<T> {
    if a.Some? then a else b
  }

  function MemberPath(path: Text, key: Text): Text { path + [0x2E] + key }

  function ElementPath(path: Text, k: nat): Text { path + [0x5B] + Numeral(k) + [0x5D] }

  function DuplicateIn(v: Value, path: Text): Option<Issue> {
    match v
    case Arr(items) => DuplicateInItems(items, 0, path)
    case Obj(members) => DuplicateInMembers(members, {}, path)
    case _ => None
  }

  function DuplicateInItems(xs: Items, k: nat, path: Text): Option<Issue> {
    match xs
    case EndItems => None
    case Item(e, tail) =>
      First(DuplicateIn(e.v, ElementPath(path, k)), DuplicateInItems(tail, k + 1, path))
  }

  function DuplicateInMembers(ms: Members, seen: set<Text>, path: Text): Option<Issue> {
    match ms
    case EndMembers => None
    case Member(e, tail) =>
      var key := CharsValue(e.name);
      if key in seen then Some(Issue(key, path))
      else First(DuplicateIn(e.v, MemberPath(path, key)), DuplicateInMembers(tail, seen + {key}, path))
  }

  /** The scan that a value read calls for. */
  ghost predicate Scans(t: Read<Value>, path: Text, r: Option<ValueScan>) {
    r == if t.Fail? then None else Some(ValueScan(t.end, DuplicateIn(t.tree, path)))
  }

  // ----- the scanners

  method SkipJsonWhitespace(source: Text, start: nat) returns (index: nat)
    requires start <= |source|
    ensures index == Span(source, start, Space)
  {
    index := start;
    while index < |source|
      invariant start <= index <= |source|
      invariant Span(source, start, Space) == Span(source, index, Space)
    {
      var character := source[index];
      if character != 0x20 && character != 0x09 && character != 0x0A && character != 0x0D { break; }
      index := index + 1;
    }
  }

  function HexDigit(codeUnit: int): (d: Option<nat>)
    ensures d.Some? <==> IsHexDigit(codeUnit)
    ensures d.Some? ==> d.value == HexDigitValue(codeUnit)
  {
    if 0x30 <= codeUnit <= 0x39 then Some(codeUnit - 0x30)
    else if 0x41 <= codeUnit <= 0x46 then Some(codeUnit - 0x41 + 10)
    else if 0x61 <= codeUnit <= 0x66 then Some(codeUnit - 0x61 + 10)
    else None
  }

  /** The `\u` escape at `index`: its code unit, or nothing when a digit is missing. */
  method ScanHexEscape(source: Text, index: nat) returns (r: Option<Unit>)
    requires index + 1 < |source|
    ensures r.Some? <==> index + 6 <= |source| && HexFour(source[index + 2..index + 6])
    ensures r.Some? ==> r.value == HexValue(source[index + 2..index + 6])
  {
    var decoded: nat := 0;
    var offset := 2;
    while offset < 6
      invariant 2 <= offset <= 6
      invariant index + offset <= |source|
      invariant forall k | 2 <= k < offset :: IsHexDigit(source[index..][k])
      invariant offset == 2 ==> decoded == 0
      invariant offset == 3 ==> decoded == HexDigitValue(source[index..][2])
      invariant offset == 4 ==> decoded == HexDigitValue(source[index..][2]) * 16 + HexDigitValue(source[index..][3])
      invariant offset == 5 ==> decoded == HexDigitValue(source[index..][2]) * 256
                                         + HexDigitValue(source[index..][3]) * 16 + HexDigitValue(source[index..][4])
      invariant offset == 6 ==> decoded == HexDigitValue(source[index..][2]) * 4096
                                         + HexDigitValue(source[index..][3]) * 256
                                         + HexDigitValue(source[index..][4]) * 16 + HexDigitValue(source[index..][5])
    {
      var digit := HexDigit(At(source, index + offset));
      if digit.None? {
        assert index + 6 <= |source| ==> source[index + 2..index + 6][offset - 2] == source[index + offset];
        return None;
      }
      assert source[index..][offset] == source[index + offset];
      decoded := decoded * 16 + digit.value;
      offset := offset + 1;
    }
    assert source[index + 2..index + 6] == source[index..][2..6];
    return Some(decoded);
  }

  /** The literal opened at `start` is `value` followed by what is read from `index`. */
  ghost predicate Decoded(source: Text, start: nat, index: nat, value: Text)
    requires start < index <= |source|
  {
    var whole, t := ReadChars(source, start + 1), ReadChars(source, index);
    && (whole.Fail? <==> t.Fail?)
    && (t.Read? ==> whole.end == t.end && CharsValue(whole.tree) == value + CharsValue(t.tree))
  }

  lemma DecodeStart(source: Text, start: nat)
    requires start < |source|
    ensures Decoded(source, start, start + 1, [])
  {
  }

  lemma DecodeStep(source: Text, start: nat, index: nat, value: Text)
    requires start < index < |source| && source[index] != 0x22 && Decoded(source, start, index, value)
    ensures var ch := ReadChar(source, index);
            if ch.Fail? then ReadChars(source, start + 1).Fail?
            else Decoded(source, start, ch.end, value + [CharValue(ch.tree)])
  {
    hide ReadChar, CharValue;
    var ch := ReadChar(source, index);
    if ch.Read? {
      var t := ReadChars(source, ch.end);
      if t.Read? {
        var cs := [ch.tree] + t.tree;
        assert cs[1..] == t.tree;
        assert CharsValue(cs) == [CharValue(ch.tree)] + CharsValue(t.tree);
        assert value + CharsValue(cs) == (value + [CharValue(ch.tree)]) + CharsValue(t.tree);
      }
    }
  }

  lemma DecodeEnd(source: Text, start: nat, index: nat, value: Text)
    requires start < index <= |source| && Decoded(source, start, index, value)
    ensures index == |source| ==> ReadChars(source, start + 1).Fail?
    ensures At(source, index) == 0x22 ==>
              var t := ReadChars(source, start + 1); t.Read? && t.end == index + 1 && CharsValue(t.tree) == value
  {
  }

  method ScanJsonString(source: Text, start: nat) returns (r: Option<StringScan>)
    requires start < |source|
    ensures var t := ReadChars(source, start + 1);
            r == if t.Fail? then None else Some(StringScan(t.end, CharsValue(t.tree)))
  {
    hide Decoded, ReadChars, CharsValue, Has, HexFour, HexValue, CharText;
    var index := start + 1;
    var value: Text := [];
    DecodeStart(source, start);
    while index < |source|
      invariant start < index <= |source|
      invariant Decoded(source, start, index, value)
      decreases |source| - index
    {
      var codeUnit := source[index];
      DecodeEnd(source, start, index, value);
      if codeUnit == 0x22 { return Some(StringScan(index + 1, value)); }
      DecodeStep(source, start, index, value);
      if codeUnit < 0x20 { return None; }
      if codeUnit != 0x5C {
        value := value + [codeUnit];
        index := index + 1;
        continue;
      }
      if index + 1 >= |source| { return None; }
      var escape := source[index + 1];
      if escape == 0x75 {
        var decoded := ScanHexEscape(source, index);
        if decoded.None? { return None; }
        value := value + [decoded.value];
        index := index + 6;
      } else {
        var short := ShortValue(escape);
        if short.None? { return None; }
        value := value + [short.value];
        index := index + 2;
      }
    }
    DecodeEnd(source, start, index, value);
    return None;
  }

  /** The end of the digits from `index`, as the digit loops of the number scanner find it. */
  method SkipDigits(source: Text, start: nat) returns (index: nat)
    requires start <= |source|
    ensures index == Span(source, start, Digit)
  {
    index := start;
    while index < |source|
      invariant start <= index <= |source|
      invariant Span(source, start, Digit) == Span(source, index, Digit)
    {
      var digit := source[index];
      if digit < 0x30 || digit > 0x39 { break; }
      index := index + 1;
    }
  }

  /** The fraction part of the number scanner, from where the integer part ended. */
  method ScanFraction(source: Text, start: nat) returns (end: Option<nat>)
    requires start <= |source|
    ensures var t := ReadFraction(source, start); end == if t.Fail? then None else Some(t.end)
  {
    var index := start;
    if At(source, index) == 0x2E {
      index := index + 1;
      var fractionStart := index;
      index := SkipDigits(source, index);
      if index == fractionStart { return None; }
    }
    return Some(index);
  }

  /** The exponent part of the number scanner, from where the fraction ended. */
  method ScanExponent(source: Text, start: nat) returns (end: Option<nat>)
    requires start <= |source|
    ensures var t := ReadExponent(source, start); end == if t.Fail? then None else Some(t.end)
  {
    hide Has, Span, ValidNumber;
    var index := start;
    if At(source, index) == 0x65 || At(source, index) == 0x45 {
      index := index + 1;
      if At(source, index) == 0x2B || At(source, index) == 0x2D { index := index + 1; }
      var exponentStart := index;
      index := SkipDigits(source, index);
      if index == exponentStart { return None; }
    }
    return Some(index);
  }

  method ScanJsonNumber(source: Text, start: nat) returns (end: Option<nat>)
    requires start <= |source|
    ensures var t := ReadNumber(source, start); end == if t.Fail? then None else Some(t.end)
  {
    hide Has, ReadFraction, ReadExponent, Span;
    var index := start;
    if At(source, index) == 0x2D { index := index + 1; }

    var integer := At(source, index);
    if integer == 0x30 {
      index := index + 1;
    } else if 0x31 <= integer <= 0x39 {
      index := SkipDigits(source, index + 1);
    } else {
      return None;
    }
    var fraction := ScanFraction(source, index);
    if fraction.None? { return None; }
    end := ScanExponent(source, fraction.value);
  }

  method ScanJsonValue(source: Text, start: nat, path: Text) returns (r: Option<ValueScan>)
    requires start <= |source|
    ensures Scans(ReadValue(source, Span(source, start, Space)), path, r)
    decreases |source| - start, 1
  {
    var index := SkipJsonWhitespace(source, start);
    var character := At(source, index);
    if character == 0x22 {
      var literal := ScanJsonString(source, index);
      return if literal.None? then None else Some(ValueScan(literal.value.end, None));
    }
    if character == 0x7B { r := ScanJsonObject(source, index, path); return; }
    if character == 0x5B { r := ScanJsonArray(source, index, path); return; }
    if character == 0x74 && Has(source, index, TRUE) { return Some(ValueScan(index + 4, None)); }
    if character == 0x66 && Has(source, index, FALSE) { return Some(ValueScan(index + 5, None)); }
    if character == 0x6E && Has(source, index, NULL) { return Some(ValueScan(index + 4, None)); }
    assert !Has(source, index, TRUE) && !Has(source, index, FALSE) && !Has(source, index, NULL) by {
      if character != 0x74 { HasNot(source, index, TRUE); }
      if character != 0x66 { HasNot(source, index, FALSE); }
      if character != 0x6E { HasNot(source, index, NULL); }
    }
    if character == 0x2D || 0x30 <= character <= 0x39 {
      var end := ScanJsonNumber(source, index);
      return if end.None? then None else Some(ValueScan(end.value, None));
    }
    return None;
  }

  /** In the middle of the object opened at `start`: what remains is read from `p`. */
  ghost predicate InObject(source: Text, start: nat, p: nat, path: Text, seen: set<Text>, duplicate: Option<Issue>)
    requires start < p <= |source|
  {
    var whole, t := ReadMembers(source, start + 1), ReadMembers(source, p);
    && At(source, Span(source, start + 1, Space)) != 0x7D
    && (whole.Fail? <==> t.Fail?)
    && (t.Read? ==>
          && whole.end == t.end
          && DuplicateInMembers(whole.tree, {}, path) == First(duplicate, DuplicateInMembers(t.tree, seen, path)))
  }

  function Report(duplicate: Option<Issue>, seen: set<Text>, path: Text, e: Entry): Option<Issue> {
    var key := CharsValue(e.name);
    First(First(duplicate, if key in seen then Some(Issue(key, path)) else None),
          DuplicateIn(e.v, MemberPath(path, key)))
  }

  lemma ObjectStart(source: Text, start: nat, path: Text)
    requires start < |source|
    ensures var j := Span(source, start + 1, Space);
            if At(source, j) == 0x7D then Scans(ReadObject(source, start), path, Some(ValueScan(j + 1, None)))
            else InObject(source, start, start + 1, path, {}, None)
  {
  }

  lemma ObjectStep(source: Text, start: nat, p: nat, path: Text, seen: set<Text>, duplicate: Option<Issue>)
    requires start < p <= |source| && InObject(source, start, p, path, seen, duplicate)
    ensures var e := ReadEntry(source, p);
            if e.Fail? then Scans(ReadObject(source, start), path, None) else
              var d := Report(duplicate, seen, path, e.tree);
              if At(source, e.end) == 0x7D then Scans(ReadObject(source, start), path, Some(ValueScan(e.end + 1, d)))
              else if At(source, e.end) != 0x2C then Scans(ReadObject(source, start), path, None)
              else InObject(source, start, e.end + 1, path, seen + {CharsValue(e.tree.name)}, d)
  {
    hide ReadEntry, Has;
    var t, whole := ReadMembers(source, p), ReadMembers(source, start + 1);
    if t.Read? {
      assert DuplicateIn(Obj(whole.tree), path) == DuplicateInMembers(whole.tree, {}, path);
      var key, tail := CharsValue(t.tree.entry.name), t.tree.tail;
      assert DuplicateInMembers(Member(t.tree.entry, tail), seen, path)
          == if key in seen then Some(Issue(key, path))
             else First(DuplicateIn(t.tree.entry.v, MemberPath(path, key)),
                 DuplicateInMembers(tail, seen + {key}, path));
      assert tail.EndMembers? ==> DuplicateInMembers(tail, seen + {key}, path) == None;
    }
  }

  /** The stages in which a member is scanned. */
  lemma EntryStages(source: Text, p: nat)
    requires p <= |source|
    ensures var e, a := ReadEntry(source, p), Span(source, p, Space);
            if At(source, a) != 0x22 then e.Fail? else
              var n := ReadChars(source, a + 1);
              if n.Fail? then e.Fail? else
                var c := Span(source, n.end, Space);
                if At(source, c) != 0x3A then e.Fail? else
                  var v := ReadValue(source, Span(source, c + 1, Space));
                  if v.Fail? then e.Fail? else
                    e.Read? && e.end == Span(source, v.end, Space) && e.tree.name == n.tree && e.tree.v == v.tree
  {
    hide ReadChars, ReadValue, Span;
  }

  datatype MemberScan = MemberScan(end: nat, key: Text, duplicate: Option<Issue>)

  /** One turn of the member loop, from the name to the delimiter after the value. */
  method ScanJsonMember(source: Text, start: nat, path: Text, seen: set<Text>, first: Option<Issue>)
    returns (r: Option<MemberScan>)
    requires start <= |source|
    ensures var e := ReadEntry(source, start);
            r == if e.Fail? then None
                 else Some(MemberScan(e.end, CharsValue(e.tree.name), Report(first, seen, path, e.tree)))
    decreases |source| - start, 2
  {
    hide ReadEntry, ReadChars, ReadValue, Span, CharsValue, DuplicateIn, MemberPath;
    EntryStages(source, start);
    var duplicate := first;
    var index := SkipJsonWhitespace(source, start);
    if At(source, index) != 0x22 { return None; }
    var key := ScanJsonString(source, index);
    if key.None? { return None; }
    if key.value.value in seen && duplicate.None? { duplicate := Some(Issue(key.value.value, path)); }

    index := SkipJsonWhitespace(source, key.value.end);
    if At(source, index) != 0x3A { return None; }
    var value := ScanJsonValue(source, index + 1, MemberPath(path, key.value.value));
    if value.None? { return None; }
    if value.value.duplicate.Some? && duplicate.None? { duplicate := value.value.duplicate; }
    index := SkipJsonWhitespace(source, value.value.end);
    return Some(MemberScan(index, key.value.value, duplicate));
  }

  method ScanJsonObject(source: Text, start: nat, path: Text) returns (r: Option<ValueScan>)
    requires start < |source|
    ensures Scans(ReadObject(source, start), path, r)
    decreases |source| - start, 0
  {
    hide InObject, ReadEntry, ReadObject, CharsValue, Report, Scans, DuplicateIn;
    ObjectStart(source, start, path);
    var index := SkipJsonWhitespace(source, start + 1);
    var duplicate: Option<Issue> := None;
    var seen: set<Text> := {};
    if At(source, index) == 0x7D { return Some(ValueScan(index + 1, duplicate)); }
    index := start + 1;
    while true
      invariant start < index <= |source|
      invariant InObject(source, start, index, path, seen, duplicate)
      decreases |source| - index
    {
      ObjectStep(source, start, index, path, seen, duplicate);
      var member := ScanJsonMember(source, index, path, seen, duplicate);
      if member.None? { return None; }
      duplicate := member.value.duplicate;
      seen := seen + {member.value.key};
      index := member.value.end;

      var delimiter := At(source, index);
      if delimiter == 0x7D { return Some(ValueScan(index + 1, duplicate)); }
      if delimiter != 0x2C { return None; }
      index := index + 1;
    }
  }

  /** In the middle of the array opened at `start`: what remains is read from `p`. */
  ghost predicate InArray(source: Text, start: nat, p: nat, path: Text, element: nat, duplicate: Option<Issue>)
    requires start < p <= |source|
  {
    var whole, t := ReadItems(source, start + 1), ReadItems(source, p);
    && At(source, Span(source, start + 1, Space)) != 0x5D
    && (whole.Fail? <==> t.Fail?)
    && (t.Read? ==>
          && whole.end == t.end
          && DuplicateInItems(whole.tree, 0, path) == First(duplicate, DuplicateInItems(t.tree, element, path)))
  }

  lemma ArrayStart(source: Text, start: nat, path: Text)
    requires start < |source|
    ensures var j := Span(source, start + 1, Space);
            if At(source, j) == 0x5D then Scans(ReadArray(source, start), path, Some(ValueScan(j + 1, None)))
            else InArray(source, start, start + 1, path, 0, None)
  {
  }

  lemma ArrayStep(source: Text, start: nat, p: nat, path: Text, element: nat, duplicate: Option<Issue>)
    requires start < p <= |source| && InArray(source, start, p, path, element, duplicate)
    ensures var e := ReadElement(source, p);
            if e.Fail? then Scans(ReadArray(source, start), path, None) else
              var d := First(duplicate, DuplicateIn(e.tree.v, ElementPath(path, element)));
              if At(source, e.end) == 0x5D then Scans(ReadArray(source, start), path, Some(ValueScan(e.end + 1, d)))
              else if At(source, e.end) != 0x2C then Scans(ReadArray(source, start), path, None)
              else InArray(source, start, e.end + 1, path, element + 1, d)
  {
    hide ReadElement, Has, ElementPath;
    var t, whole := ReadItems(source, p), ReadItems(source, start + 1);
    if t.Read? {
      assert DuplicateIn(Arr(whole.tree), path) == DuplicateInItems(whole.tree, 0, path);
      assert DuplicateInItems(Item(t.tree.element, t.tree.tail), element, path)
          == First(DuplicateIn(t.tree.element.v, ElementPath(path, element)),
                   DuplicateInItems(t.tree.tail, element + 1, path));
      assert t.tree.tail.EndItems? ==> DuplicateInItems(t.tree.tail, element + 1, path) == None;
    }
  }

  method ScanJsonArray(source: Text, start: nat, path: Text) returns (r: Option<ValueScan>)
    requires start < |source|
    ensures Scans(ReadArray(source, start), path, r)
    decreases |source| - start, 0
  {
    hide InArray, ReadValue, ReadArray, ElementPath, DuplicateIn, Has, AllIn;
    ArrayStart(source, start, path);
    var index := SkipJsonWhitespace(source, start + 1);
    var element := 0;
    var duplicate: Option<Issue> := None;
    if At(source, index) == 0x5D { return Some(ValueScan(index + 1, duplicate)); }
    ghost var p := start + 1;
    while true
      invariant start < p <= index <= |source| && index == Span(source, p, Space)
      invariant 0 <= element && InArray(source, start, p, path, element, duplicate)
      decreases |source| - index
    {
      ArrayStep(source, start, p, path, element, duplicate);
      assert Span(source, index, Space) == index;
      var value := ScanJsonValue(source, index, ElementPath(path, element));
      if value.None? { return None; }
      if value.value.duplicate.Some? && duplicate.None? { duplicate := value.value.duplicate; }
      index := SkipJsonWhitespace(source, value.value.end);

      var delimiter := At(source, index);
      if delimiter == 0x5D { return Some(ValueScan(index + 1, duplicate)); }
      if delimiter != 0x2C { return None; }
      element := element + 1;
      p := index + 1;
      index := SkipJsonWhitespace(source, index + 1);
    }
  }

  /** The root of every path: `$`. */
  const ROOT: Text := [0x24]

  method FindDuplicateJsonMember(source: Text) returns (r: Option<Issue>)
    ensures r == if ReadDocument(source).None? then None else DuplicateIn(ReadDocument(source).value.v, ROOT)
  {
    var value := ScanJsonValue(source, 0, ROOT);
    if value.None? { return None; }
    var end := SkipJsonWhitespace(source, value.value.end);
    if end != |source| { return None; }
    return value.value.duplicate;
  }
}
