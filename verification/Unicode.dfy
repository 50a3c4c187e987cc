/** UTF-16 well-formedness as contracts/ts/wire-json.ts checks it, against the encoding form itself. */
module Unicode {
  import opened CodeUnits
  import opened Options
  import opened JsonValues
  import opened WireJson

  predicate IsHigh(c: int) { 0xD800 <= c <= 0xDBFF }

  predicate IsLow(c: int) { 0xDC00 <= c <= 0xDFFF }

  /** A Unicode scalar value: a code point that is not a surrogate. */
  type Scalar = n: int | 0 <= n <= 0x10FFFF && !(0xD800 <= n <= 0xDFFF)

  /** The UTF-16 encoding form of a scalar value. */
  function Encode(p: Scalar): Text {
    if p < 0x1_0000 then [p] else [0xD800 + (p - 0x1_0000) / 0x400, 0xDC00 + (p - 0x1_0000) % 0x400]
  }

  function EncodeAll(ps: seq<Scalar>): Text {
    if ps == [] then [] else Encode(ps[0]) + EncodeAll(ps[1..])
  }

  /** Well-formed UTF-16: the encoding of some sequence of scalar values. */
  ghost predicate IsUtf16(s: Text) {
    exists ps: seq<Scalar> :: EncodeAll(ps) == s
  }

  datatype Surrogate = High | Low

  /** The first unpaired surrogate of a text, reading it from the front. */
  function Unpaired(s: Text): Option<Surrogate> {
    if s == [] then None
    else if IsHigh(s[0]) then
      if |s| > 1 && IsLow(s[1]) then Unpaired(s[2..]) else Some(High)
    else if IsLow(s[0]) then Some(Low)
    else Unpaired(s[1..])
  }

  method FindUnpairedSurrogate(value: Text) returns (r: Option<Surrogate>)
    ensures r == Unpaired(value)
  {
    var index := 0;
    while index < |value|
      invariant 0 <= index <= |value|
      invariant Unpaired(value) == Unpaired(value[index..])
    {
      var codeUnit := value[index];
      ghost var rest := value[index..];
      assert rest[1..] == value[index + 1..];
      assert |rest| > 1 ==> rest[2..] == value[index + 2..];
      if 0xD800 <= codeUnit <= 0xDBFF {
        var next := At(value, index + 1);
        if next < 0xDC00 || next > 0xDFFF { return Some(High); }
        index := index + 1;
      } else if 0xDC00 <= codeUnit <= 0xDFFF {
        return Some(Low);
      }
      index := index + 1;
    }
    return None;
  }

  /** The scalar values a text without unpaired surrogates encodes. */
  function Decode(s: Text): (ps: seq<Scalar>)
    requires Unpaired(s).None?
    ensures EncodeAll(ps) == s
  {
    if s == [] then []
    else if IsHigh(s[0]) then
      var high: int, low: int := s[0], s[1];
      var p: int := 0x1_0000 + (high - 0xD800) * 0x400 + (low - 0xDC00);
      var rest := Decode(s[2..]);
      assert Encode(p) == [s[0], s[1]];
      assert s == [s[0], s[1]] + s[2..];
      assert ([p] + rest)[1..] == rest;
      [p] + rest
    else
      var rest := Decode(s[1..]);
      assert s == [s[0]] + s[1..];
      assert ([s[0]] + rest)[1..] == rest;
      [s[0]] + rest
  }

  lemma {:induction false} EncodedIsPaired(ps: seq<Scalar>)
    ensures Unpaired(EncodeAll(ps)).None?
  {
    if ps != [] {
      EncodedIsPaired(ps[1..]);
      var x, y := Encode(ps[0]), EncodeAll(ps[1..]);
      assert (x + y)[|x|..] == y;
    }
  }

  /** The check finds nothing exactly when the text is the UTF-16 encoding of scalar values. */
  lemma SurrogateCheckExact(s: Text)
    ensures Unpaired(s).None? <==> IsUtf16(s)
  {
    if Unpaired(s).None? {
      assert EncodeAll(Decode(s)) == s;
    }
    if ps: seq<Scalar> :| EncodeAll(ps) == s {
      EncodedIsPaired(ps);
    }
  }

  /** The surrogate reported follows the longest well-formed start of the text, and cannot be paired. */
  lemma {:induction false} UnpairedIsFirst(s: Text)
    requires Unpaired(s).Some?
    ensures exists k :: 0 <= k < |s| && Unpaired(s[..k]).None? && Offends(s, k, Unpaired(s).value)
  {
    if IsHigh(s[0]) && |s| > 1 && IsLow(s[1]) {
      UnpairedIsFirst(s[2..]);
      var k :| 0 <= k < |s[2..]| && Unpaired(s[2..][..k]).None? && Offends(s[2..], k, Unpaired(s).value);
      assert s[..k + 2][2..] == s[2..][..k];
      assert s[..k + 2][0] == s[0] && s[..k + 2][1] == s[1];
      assert Offends(s, k + 2, Unpaired(s).value);
    } else if IsHigh(s[0]) || IsLow(s[0]) {
      assert s[..0] == [];
      assert Offends(s, 0, Unpaired(s).value);
    } else {
      UnpairedIsFirst(s[1..]);
      var k :| 0 <= k < |s[1..]| && Unpaired(s[1..][..k]).None? && Offends(s[1..], k, Unpaired(s).value);
      assert s[..k + 1][1..] == s[1..][..k];
      assert s[..k + 1][0] == s[0];
      assert Offends(s, k + 1, Unpaired(s).value);
    }
  }

  /** At `k`, after well-formed text, stands a surrogate of the kind that nothing completes. */
  predicate Offends(s: Text, k: nat, kind: Surrogate)
    requires k < |s|
  {
    match kind
    case High => IsHigh(s[k]) && !(k + 1 < |s| && IsLow(s[k + 1]))
    case Low => IsLow(s[k])
  }

  // ----- the check of a whole value

  datatype UnicodeIssue = UnicodeIssue(path: Text, kind: Surrogate, inKey: bool)

  function FindUnicodeIssue(v: Json, path: Text): Option<UnicodeIssue> {
    match v
    case JStr(s) => if Unpaired(s).Some? then Some(UnicodeIssue(path, Unpaired(s).value, false)) else None
    case JArr(items) => IssueInItems(items, 0, path)
    case JObj(fields) => IssueInFields(fields, path)
    case _ => None
  }

  function IssueInItems(items: seq<Json>, k: nat, path: Text): Option<UnicodeIssue> {
    if items == [] then None
    else First(FindUnicodeIssue(items[0], ElementPath(path, k)), IssueInItems(items[1..], k + 1, path))
  }

  function IssueInFields(fields: seq<Field>, path: Text): Option<UnicodeIssue> {
    if fields == [] then None
    else
      var key := Unpaired(fields[0].key);
      if key.Some? then Some(UnicodeIssue(path, key.value, true))
      else First(FindUnicodeIssue(fields[0].value, MemberPath(path, fields[0].key)), IssueInFields(fields[1..], path))
  }

  /** Every string and every key at every depth is well-formed UTF-16. */
  ghost predicate AllUtf16(v: Json) {
    match v
    case JStr(s) => IsUtf16(s)
    case JArr(items) => forall i | 0 <= i < |items| :: AllUtf16(items[i])
    case JObj(fields) => forall i | 0 <= i < |fields| :: IsUtf16(fields[i].key) && AllUtf16(fields[i].value)
    case _ => true
  }

  lemma {:induction false} UnicodeCheckExact(v: Json, path: Text)
    ensures FindUnicodeIssue(v, path).None? <==> AllUtf16(v)
    decreases v
  {
    hide IsUtf16, Unpaired;
    match v {
      case JStr(s) => SurrogateCheckExact(s);
      case JArr(items) => ItemsCheckExact(items, 0, path);
      case JObj(fields) => FieldsCheckExact(fields, path);
      case _ =>
    }
  }

  lemma {:induction false} ItemsCheckExact(items: seq<Json>, k: nat, path: Text)
    ensures IssueInItems(items, k, path).None? <==> forall i | 0 <= i < |items| :: AllUtf16(items[i])
    decreases items
  {
    hide AllUtf16, FindUnicodeIssue, ElementPath;
    if items != [] {
      UnicodeCheckExact(items[0], ElementPath(path, k));
      ItemsCheckExact(items[1..], k + 1, path);
      assert items == [items[0]] + items[1..];
      assert forall i | 0 <= i < |items[1..]| :: items[1..][i] == items[i + 1];
    }
  }

  lemma {:induction false} FieldsCheckExact(fields: seq<Field>, path: Text)
    ensures IssueInFields(fields, path).None? <==>
            forall i | 0 <= i < |fields| :: IsUtf16(fields[i].key) && AllUtf16(fields[i].value)
    decreases fields
  {
    hide AllUtf16, FindUnicodeIssue, MemberPath, IsUtf16, Unpaired;
    if fields != [] {
      SurrogateCheckExact(fields[0].key);
      UnicodeCheckExact(fields[0].value, MemberPath(path, fields[0].key));
      FieldsCheckExact(fields[1..], path);
      assert fields == [fields[0]] + fields[1..];
      assert forall i | 0 <= i < |fields[1..]| :: fields[1..][i] == fields[i + 1];
    }
  }

  /** A scalar value above U+FFFF is the pair from which it is put together again. */
  lemma EncodeMeans(p: Scalar)
    ensures p < 0x1_0000 ==> Encode(p) == [p]
    ensures p >= 0x1_0000 ==>
              && |Encode(p)| == 2
              && var high: int, low: int := Encode(p)[0], Encode(p)[1];
              && 0xD800 <= high <= 0xDBFF && 0xDC00 <= low <= 0xDFFF
              && p == 0x1_0000 + (high - 0xD800) * 0x400 + (low - 0xDC00)
  {
  }
}
