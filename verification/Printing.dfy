/** `JSON.stringify` on canonical values (section 25.5.2 of ECMA-262) and the round trip through the
    wire decoder of contracts/ts/wire-json.ts. */
module Printing {
  import opened CodeUnits
  import opened Decimal
  import opened Options
  import opened JsonValues
  import opened Unicode
  import G = JsonGrammar
  import R = JsonReader

  // ----- strings

  function HexChar(d: nat): (c: Unit)
    requires d < 16
    ensures G.IsHexDigit(c) && G.HexDigitValue(c) == d
  {
    if d < 10 then 0x30 + d else 0x61 + d - 10
  }

  function HexText(c: Unit): (h: Text)
    ensures G.HexFour(h) && G.HexValue(h) == c
  {
    var x: nat := c / 16;
    var y := x / 16;
    [HexChar(y / 16), HexChar(y % 16), HexChar(x % 16), HexChar(c % 16)]
  }

  /** The character printed for a code unit that is not half of a surrogate pair. */
  function QuoteUnit(c: Unit): (ch: G.Char)
    ensures G.ValidChar(ch) && G.CharValue(ch) == c
  {
    if c == 0x08 then G.Short(0x62)
    else if c == 0x09 then G.Short(0x74)
    else if c == 0x0A then G.Short(0x6E)
    else if c == 0x0C then G.Short(0x66)
    else if c == 0x0D then G.Short(0x72)
    else if c == 0x22 || c == 0x5C then G.Short(c)
    else if c < 0x20 || IsHigh(c) || IsLow(c) then G.Hex(HexText(c))
    else G.Plain(c)
  }

  function QuoteChars(s: Text): (cs: seq<G.Char>)
    ensures G.ValidChars(cs) && G.CharsValue(cs) == s
  {
    if s == [] then []
    else if IsHigh(s[0]) && |s| > 1 && IsLow(s[1]) then
      var rest := QuoteChars(s[2..]);
      var cs := [G.Plain(s[0]), G.Plain(s[1])] + rest;
      assert cs[1..] == [G.Plain(s[1])] + rest && cs[1..][1..] == rest;
      assert s == [s[0]] + ([s[1]] + s[2..]);
      cs
    else
      var rest := QuoteChars(s[1..]);
      var cs := [QuoteUnit(s[0])] + rest;
      assert cs[1..] == rest;
      assert s == [s[0]] + s[1..];
      cs
  }

  // ----- values

  /** `JSON.stringify(v)` without indentation. */
  function Stringify(v: Json): Text {
    match v
    case JNull => G.NULL
    case JBool(b) => if b then G.TRUE else G.FALSE
    case JNum(n) => if n < 0 then [0x2D] + Numeral(-n) else Numeral(n)
    case JStr(s) => G.StringText(QuoteChars(s))
    case JArr(items) => [0x5B] + StringifyItems(items) + [0x5D]
    case JObj(fields) => [0x7B] + StringifyFields(fields) + [0x7D]
  }

  function StringifyItems(items: seq<Json>): Text {
    if items == [] then []
    else if |items| == 1 then Stringify(items[0])
    else Stringify(items[0]) + [0x2C] + StringifyItems(items[1..])
  }

  function StringifyFields(fields: seq<Field>): Text {
    if fields == [] then []
    else if |fields| == 1 then StringifyField(fields[0])
    else StringifyField(fields[0]) + [0x2C] + StringifyFields(fields[1..])
  }

  function StringifyField(f: Field): Text { G.StringText(QuoteChars(f.key)) + [0x3A] + Stringify(f.value) }

  // ----- the derivation of what is printed

  function TreeOf(v: Json): (t: G.Value) {
    match v
    case JNull => G.Null
    case JBool(b) => if b then G.True else G.False
    case JNum(n) => G.Num(NumberOf(n))
    case JStr(s) => G.Str(QuoteChars(s))
    case JArr(items) => if items == [] then G.EmptyArr([]) else G.Arr(TreeOfItems(items))
    case JObj(fields) => if fields == [] then G.EmptyObj([]) else G.Obj(TreeOfFields(fields))
  }

  function NumberOf(n: int): G.Number {
    if n < 0 then G.Number(true, Numeral(-n), None, None) else G.Number(false, Numeral(n), None, None)
  }

  function TreeOfItems(items: seq<Json>): G.Items {
    if items == [] then G.EndItems else G.Item(G.Element([], TreeOf(items[0]), []), TreeOfItems(items[1..]))
  }

  function TreeOfFields(fields: seq<Field>): G.Members {
    if fields == [] then G.EndMembers else G.Member(EntryOf(fields[0]), TreeOfFields(fields[1..]))
  }

  function EntryOf(f: Field): G.Entry { G.Entry([], QuoteChars(f.key), [], [], TreeOf(f.value), []) }

  /** The tree is a derivation of the printed text and denotes the printed value. */
  lemma {:induction false} PrintedTree(v: Json)
    ensures G.ValidValue(TreeOf(v)) && G.ValueText(TreeOf(v)) == Stringify(v) && Denote(TreeOf(v)) == v
    decreases v
  {
    hide G.StringText, TreeOfItems, TreeOfFields, G.ItemsText, G.MembersText, QuoteChars, Numeral;
    match v {
      case JNum(n) =>
        var m := NumberOf(n);
        assert G.NumberText(m) == G.MinusText(m.minus) + m.whole;
      case JArr(items) =>
        if items != [] {
          PrintedItems(items);
          assert [0x5B] + (StringifyItems(items) + [0x5D]) == [0x5B] + StringifyItems(items) + [0x5D];
        } else {
          assert [0x5B] + (StringifyItems(items) + [0x5D]) == [0x5B] + StringifyItems(items) + [0x5D];
        }
      case JObj(fields) =>
        if fields != [] {
          PrintedFields(fields);
          assert [0x7B] + (StringifyFields(fields) + [0x7D]) == [0x7B] + StringifyFields(fields) + [0x7D];
        } else {
          assert [0x7B] + (StringifyFields(fields) + [0x7D]) == [0x7B] + StringifyFields(fields) + [0x7D];
        }
      case _ =>
    }
  }

  lemma {:induction false} PrintedItems(items: seq<Json>)
    requires items != []
    ensures var t := TreeOfItems(items);
            G.ValidItems(t) && G.ItemsText(t) == StringifyItems(items) + [0x5D] && DenoteItems(t) == items
    decreases items
  {
    hide Stringify, TreeOf, G.ValueText, G.ValidValue, Denote;
    PrintedTree(items[0]);
    var e := G.Element([], TreeOf(items[0]), []);
    assert G.ElementText(e) == Stringify(items[0]);
    assert items == [items[0]] + items[1..];
    var rest := TreeOfItems(items[1..]);
    if |items| == 1 {
      assert rest == G.EndItems;
      assert DenoteItems(rest) == items[1..];
    } else {
      PrintedItems(items[1..]);
      var x, y := Stringify(items[0]), StringifyItems(items[1..]);
      assert x + ([0x2C] + (y + [0x5D])) == (x + [0x2C] + y) + [0x5D];
    }
  }

  lemma {:induction false} PrintedFields(fields: seq<Field>)
    requires fields != []
    ensures var t := TreeOfFields(fields);
            G.ValidMembers(t) && G.MembersText(t) == StringifyFields(fields) + [0x7D] && DenoteMembers(t) == fields
    decreases fields
  {
    hide EntryOf, StringifyField, G.EntryText, G.ValidEntry, G.CharsValue, Denote;
    PrintedField(fields[0]);
    assert fields == [fields[0]] + fields[1..];
    var rest := TreeOfFields(fields[1..]);
    if |fields| == 1 {
      assert rest == G.EndMembers;
      assert DenoteMembers(rest) == fields[1..];
    } else {
      PrintedFields(fields[1..]);
      var x, y := StringifyField(fields[0]), StringifyFields(fields[1..]);
      assert x + ([0x2C] + (y + [0x7D])) == (x + [0x2C] + y) + [0x7D];
    }
  }

  lemma {:induction false} PrintedField(f: Field)
    ensures G.ValidEntry(EntryOf(f)) && G.EntryText(EntryOf(f)) == StringifyField(f)
    ensures G.CharsValue(EntryOf(f).name) == f.key && Denote(EntryOf(f).v) == f.value
    decreases f
  {
    PrintedTree(f.value);
    var x, y := G.StringText(QuoteChars(f.key)), Stringify(f.value);
    assert [] + (x + ([] + ([0x3A] + ([] + (y + []))))) == x + [0x3A] + y;
  }

  /** Printing is read back: the whole text is consumed and the value rebuilt. */
  lemma PrintedIsRead(v: Json)
    ensures R.ReadDocument(Stringify(v)) == Some(G.Document([], TreeOf(v), []))
    ensures Denote(TreeOf(v)) == v
  {
    hide Stringify, TreeOf, G.ValidValue, G.ValueText, R.ReadDocument;
    PrintedTree(v);
    var d := G.Document([], TreeOf(v), []);
    assert G.DocumentText(d) == Stringify(v);
    R.DocumentComplete(d);
  }

  /** Distinct values print differently. */
  lemma PrintingInjective(a: Json, b: Json)
    requires Stringify(a) == Stringify(b)
    ensures a == b
  {
    hide Stringify, TreeOf, R.ReadDocument, Denote;
    PrintedIsRead(a);
    PrintedIsRead(b);
  }
}
