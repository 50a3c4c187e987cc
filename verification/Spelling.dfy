/** The grammar, the escapes and the printer in character literals: what each piece of text is, said without the
    tables that the models share. */
module Spelling {
  import opened CodeUnits
  import opened Decimal
  import opened Options
  import opened JsonValues
  import opened Printing
  import G = JsonGrammar
  import R = JsonReader
  import W = WireJson
  import N = WireNumbers
  import D = WireDecoder
  import U = Unicode

  /** A text of characters below U+10000, one code unit each. */
  function Units(s: string): Text { seq(|s|, i requires 0 <= i < |s| => s[i] as int % 0x1_0000) }

  // ----- the lexical classes and the punctuation

  lemma ClassesSpelled(c: int)
    ensures G.In(c, G.Space) <==> c == ' ' as int || c == '\t' as int || c == '\n' as int || c == '\r' as int
    ensures G.In(c, G.Digit) <==> '0' as int <= c <= '9' as int
    ensures IsDigit(c) <==> '0' as int <= c <= '9' as int
  {
  }

  lemma LiteralsSpelled()
    ensures G.NULL == Units("null") && G.TRUE == Units("true") && G.FALSE == Units("false")
    ensures W.ROOT == Units("$")
  {
  }

  /** A numeral is read in base ten, its digits in their order. */
  lemma NumeralSpelled(s: Text, d: nat)
    requires Digits(s) && d < 10
    ensures var t := s + [LOWER[d] as int]; Digits(t) && Magnitude(t) == 10 * Magnitude(s) + d
    ensures Magnitude([]) == 0
  {
    var t := s + [LOWER[d] as int];
    assert LOWER[d] as int == 0x30 + d;
    assert t[..|t| - 1] == s;
  }

  lemma NumberSpelled(n: G.Number)
    ensures G.NumberText(n) ==
            (if n.minus then Units("-") else []) + n.whole
            + (if n.fraction.Some? then Units(".") + n.fraction.value else [])
            + (if n.exponent.Some?
               then [n.exponent.value.mark] + n.exponent.value.sign + n.exponent.value.digits else [])
    ensures G.ValidNumber(n) && n.exponent.Some? ==>
              var e := n.exponent.value;
              && ([e.mark] == Units("e") || [e.mark] == Units("E"))
              && (e.sign == [] || e.sign == Units("+") || e.sign == Units("-"))
  {
    assert [0x65] == Units("e") && [0x45] == Units("E");
    assert [0x2B] == Units("+") && [0x2D] == Units("-") && [0x2E] == Units(".");
  }

  lemma PunctuationSpelled()
    ensures Units("[") == [0x5B] && Units("]") == [0x5D] && Units("{") == [0x7B] && Units("}") == [0x7D]
    ensures Units(",") == [0x2C] && Units(":") == [0x3A] && Units("\"") == [0x22] && Units(".") == [0x2E]
  {
  }

  lemma ArraySpelled(pad: Text, e: G.Element, tail: G.Items)
    ensures G.ValueText(G.EmptyArr(pad)) == Units("[") + pad + Units("]")
    ensures G.ValueText(G.Arr(G.Item(e, tail))) == Units("[") + G.ItemsText(G.Item(e, tail))
    ensures G.ItemsText(G.Item(e, tail)) == e.before + G.ValueText(e.v) + e.after
                                            + (if tail.EndItems? then Units("]") else Units(",") + G.ItemsText(tail))
  {
    hide Units;
    PunctuationSpelled();
  }

  lemma EntrySpelled(e: G.Entry)
    ensures G.EntryText(e) ==
            e.before + G.StringText(e.name) + e.gap + Units(":") + e.between + G.ValueText(e.v) + e.after
    ensures G.StringText(e.name) == Units("\"") + G.CharsText(e.name) + Units("\"")
  {
    hide Units, G.CharsText, G.ValueText;
    PunctuationSpelled();
  }

  lemma ObjectSpelled(pad: Text, e: G.Entry, tail: G.Members)
    ensures G.ValueText(G.EmptyObj(pad)) == Units("{") + pad + Units("}")
    ensures G.ValueText(G.Obj(G.Member(e, tail))) == Units("{") + G.MembersText(G.Member(e, tail))
    ensures G.MembersText(G.Member(e, tail)) ==
            G.EntryText(e) + (if tail.EndMembers? then Units("}") else Units(",") + G.MembersText(tail))
  {
    hide Units, G.EntryText;
    PunctuationSpelled();
  }

  lemma PathsSpelled(path: Text, key: Text, k: nat)
    ensures W.MemberPath(path, key) == path + Units(".") + key
    ensures W.ElementPath(path, k) == path + Units("[") + Numeral(k) + Units("]")
  {
    hide Units;
    PunctuationSpelled();
  }

  // ----- escapes (section 7 of RFC 8259)

  /** The character after the backslash, and the character it stands for. */
  const ESCAPES: seq<(char, char)> := [
    ('\"', '\"'), ('\\', '\\'), ('/', '/'), ('b', '\U{0008}'), ('f', '\U{000C}'), ('n', '\n'), ('r', '\r'), ('t', '\t')
  ]

  const BACKSLASH: Text := Units("\\")

  /** What stands between the quotation marks before and after an escape. */
  function Around(pre: seq<G.Char>, escape: Text, post: seq<G.Char>): Text {
    G.CharsText(pre) + escape + G.CharsText(post)
  }

  lemma {:induction false} CharsAppend(a: seq<G.Char>, b: seq<G.Char>)
    ensures G.CharsText(a + b) == G.CharsText(a) + G.CharsText(b)
    ensures G.CharsValue(a + b) == G.CharsValue(a) + G.CharsValue(b)
  {
    hide G.CharText, G.CharValue;
    if a == [] {
      assert a + b == b;
    } else {
      assert (a + b)[1..] == a[1..] + b;
      CharsAppend(a[1..], b);
    }
  }

  lemma CharsAround(pre: seq<G.Char>, ch: G.Char, post: seq<G.Char>)
    ensures G.CharsText(pre + [ch] + post) == Around(pre, G.CharText(ch), post)
    ensures G.CharsValue(pre + [ch] + post) == G.CharsValue(pre) + [G.CharValue(ch)] + G.CharsValue(post)
  {
    hide G.CharText, G.CharValue;
    CharsAppend(pre + [ch], post);
    CharsAppend(pre, [ch]);
    assert [ch][1..] == [];
    assert G.CharsText([ch]) == G.CharText(ch) + G.CharsText([]);
    assert G.CharsValue([ch]) == [G.CharValue(ch)] + G.CharsValue([]);
  }

  lemma ShortSpelled(k: nat)
    requires k < 8
    ensures var e := ESCAPES[k].0 as int; G.ValidChar(G.Short(e)) && G.CharText(G.Short(e)) == BACKSLASH + [e]
    ensures G.CharValue(G.Short(ESCAPES[k].0 as int)) == ESCAPES[k].1 as int
  {
    if k < 4 { if k < 2 { assert k == 0 || k == 1; } } else { if k < 6 { assert k == 4 || k == 5; } }
  }

  /** A string literal with one escape written out decodes to what the escape stands for, between what the rest of
      the literal denotes. */
  lemma EscapeDecoded(pre: seq<G.Char>, k: nat, post: seq<G.Char>)
    requires G.ValidChars(pre) && G.ValidChars(post) && k < 8
    ensures var text := Units("\"") + Around(pre, BACKSLASH + [ESCAPES[k].0 as int], post) + Units("\"");
            D.Parse(text) == D.Ok(JStr(G.CharsValue(pre) + [ESCAPES[k].1 as int] + G.CharsValue(post)))
  {
    hide D.Parse, G.CharsText, G.CharsValue, G.ValidChar, G.CharText, G.CharValue, Units;
    ShortSpelled(k);
    LiteralDecoded(pre, G.Short(ESCAPES[k].0 as int), post);
  }

  lemma LiteralDecoded(pre: seq<G.Char>, ch: G.Char, post: seq<G.Char>)
    requires G.ValidChars(pre) && G.ValidChars(post) && G.ValidChar(ch)
    ensures D.Parse(Units("\"") + Around(pre, G.CharText(ch), post) + Units("\""))
         == D.Ok(JStr(G.CharsValue(pre) + [G.CharValue(ch)] + G.CharsValue(post)))
  {
    hide N.Flat, R.ReadDocument, G.CharsText, G.CharsValue, G.ValidChar, G.CharText, G.CharValue, Units;
    PunctuationSpelled();
    var cs := pre + [ch] + post;
    CharsAround(pre, ch, post);
    var d := G.Document([], G.Str(cs), []);
    var text := Units("\"") + Around(pre, G.CharText(ch), post) + Units("\"");
    assert G.DocumentText(d) == text;
    assert G.ValidChars(cs);
    R.DocumentComplete(d);
    N.ScanFindsFirstBadNumber(text);
    assert N.DocumentNumbers(d) == [];
  }

  const LOWER: string := "0123456789abcdef"

  const UPPER: string := "0123456789ABCDEF"

  /** A hexadecimal digit of either case has the value at which it stands in the list of digits. */
  lemma HexDigitSpelled(d: nat)
    requires d < 16
    ensures G.IsHexDigit(LOWER[d] as int) && G.HexDigitValue(LOWER[d] as int) == d
    ensures G.IsHexDigit(UPPER[d] as int) && G.HexDigitValue(UPPER[d] as int) == d
    ensures HexChar(d) == LOWER[d] as int
  {
  }

  /** Four digits after "\u" give the code unit they are the hexadecimal number of. */
  lemma HexDecoded(pre: seq<G.Char>, h: Text, a: nat, b: nat, c: nat, d: nat, post: seq<G.Char>)
    requires G.ValidChars(pre) && G.ValidChars(post) && a < 16 && b < 16 && c < 16 && d < 16 && |h| == 4
    requires h[0] == LOWER[a] as int || h[0] == UPPER[a] as int
    requires h[1] == LOWER[b] as int || h[1] == UPPER[b] as int
    requires h[2] == LOWER[c] as int || h[2] == UPPER[c] as int
    requires h[3] == LOWER[d] as int || h[3] == UPPER[d] as int
    ensures var text := Units("\"") + Around(pre, Units("\\u") + h, post) + Units("\"");
            D.Parse(text) == D.Ok(JStr(G.CharsValue(pre) + [((a * 16 + b) * 16 + c) * 16 + d] + G.CharsValue(post)))
  {
    hide D.Parse, G.CharsText, G.CharsValue, G.HexDigitValue, G.IsHexDigit;
    HexDigitSpelled(a);
    HexDigitSpelled(b);
    HexDigitSpelled(c);
    HexDigitSpelled(d);
    assert Units("\\u") == [0x5C, 0x75];
    LiteralDecoded(pre, G.Hex(h), post);
  }

  // ----- the printer (section 25.5.2 of ECMA-262)

  /** How a code unit that is no surrogate is printed inside a string. */
  function Piece(u: Unit): Text {
    if u == '\"' as int then Units("\\\"")
    else if u == '\\' as int then Units("\\\\")
    else if u == '\U{0008}' as int then Units("\\b")
    else if u == '\U{000C}' as int then Units("\\f")
    else if u == '\n' as int then Units("\\n")
    else if u == '\r' as int then Units("\\r")
    else if u == '\t' as int then Units("\\t")
    else if u < ' ' as int then Units("\\u00") + [LOWER[u / 16] as int, LOWER[u % 16] as int]
    else [u]
  }

  /** Four lower-case hexadecimal digits after "\u", for a surrogate without its other half. */
  function SurrogatePiece(u: Unit): Text {
    Units("\\u") + [LOWER[u / 4096] as int, LOWER[u / 256 % 16] as int, LOWER[u / 16 % 16] as int, LOWER[u % 16] as int]
  }

  lemma ShortPieces()
    ensures Units("\\\"") == [0x5C, 0x22] && Units("\\\\") == [0x5C, 0x5C] && Units("\\b") == [0x5C, 0x62]
    ensures Units("\\f") == [0x5C, 0x66] && Units("\\n") == [0x5C, 0x6E] && Units("\\r") == [0x5C, 0x72]
    ensures Units("\\t") == [0x5C, 0x74] && Units("\\u00") == [0x5C, 0x75, 0x30, 0x30] && Units("\\u") == [0x5C, 0x75]
  {
  }

  lemma HexPrinted(u: Unit)
    ensures HexText(u) ==
            [LOWER[u / 4096] as int, LOWER[u / 256 % 16] as int, LOWER[u / 16 % 16] as int, LOWER[u % 16] as int]
  {
    hide HexChar;
    HexDigitSpelled(u / 4096);
    HexDigitSpelled(u / 256 % 16);
    HexDigitSpelled(u / 16 % 16);
    HexDigitSpelled(u % 16);
    assert u / 16 / 16 / 16 == u / 4096 && u / 16 / 16 % 16 == u / 256 % 16;
  }

  lemma ControlPrinted(u: Unit)
    requires u < 0x20
    ensures [0x5C, 0x75] + HexText(u) == [0x5C, 0x75, 0x30, 0x30] + [LOWER[u / 16] as int, LOWER[u % 16] as int]
  {
    hide HexText;
    HexPrinted(u);
    assert u / 4096 == 0 && u / 256 % 16 == 0 && u / 16 % 16 == u / 16;
    assert LOWER[0] as int == 0x30;
  }

  lemma SurrogatePrinted(u: Unit)
    requires U.IsHigh(u) || U.IsLow(u)
    ensures G.CharText(QuoteUnit(u)) == SurrogatePiece(u)
  {
    hide Units, HexText;
    ShortPieces();
    HexPrinted(u);
  }

  lemma OtherPrinted(u: Unit)
    requires !U.IsHigh(u) && !U.IsLow(u)
    ensures G.CharText(QuoteUnit(u)) == Piece(u)
  {
    hide Units, HexText;
    ShortPieces();
    if u < 0x20 { ControlPrinted(u); }
  }

  lemma UnitPrinted(u: Unit)
    ensures G.CharText(QuoteUnit(u)) == if U.IsHigh(u) || U.IsLow(u) then SurrogatePiece(u) else Piece(u)
  {
    hide QuoteUnit, Piece, SurrogatePiece, G.CharText;
    if U.IsHigh(u) || U.IsLow(u) { SurrogatePrinted(u); } else { OtherPrinted(u); }
  }

  /** A string is printed piece by piece, unless a cut would separate the halves of a surrogate pair. */
  lemma {:induction false} QuoteSplit(a: Text, b: Text)
    requires a == [] || b == [] || !(U.IsHigh(a[|a| - 1]) && U.IsLow(b[0]))
    ensures QuoteChars(a + b) == QuoteChars(a) + QuoteChars(b)
    decreases |a|
  {
    hide QuoteUnit;
    if a == [] {
      assert a + b == b;
    } else if U.IsHigh(a[0]) && |a| > 1 && U.IsLow(a[1]) {
      assert (a + b)[2..] == a[2..] + b;
      QuoteSplit(a[2..], b);
    } else {
      assert (a + b)[1..] == a[1..] + b;
      QuoteSplit(a[1..], b);
    }
  }

  /** What is printed for a string, without the quotation marks. */
  function Inner(s: Text): Text { G.CharsText(QuoteChars(s)) }

  lemma StringPrinted(s: Text)
    ensures Stringify(JStr(s)) == Units("\"") + Inner(s) + Units("\"")
  {
    hide Units, G.CharsText;
    PunctuationSpelled();
  }

  lemma InnerSplit(a: Text, b: Text)
    requires a == [] || b == [] || !(U.IsHigh(a[|a| - 1]) && U.IsLow(b[0]))
    ensures Inner(a + b) == Inner(a) + Inner(b)
  {
    hide QuoteChars, G.CharsText;
    QuoteSplit(a, b);
    CharsAppend(QuoteChars(a), QuoteChars(b));
  }

  lemma InnerOne(u: Unit)
    ensures Inner([u]) == if U.IsHigh(u) || U.IsLow(u) then SurrogatePiece(u) else Piece(u)
  {
    hide QuoteUnit, Piece, SurrogatePiece, G.CharText;
    UnitPrinted(u);
    assert [u][1..] == [];
    assert QuoteChars([u]) == [QuoteUnit(u)] + QuoteChars([]);
    assert [QuoteUnit(u)][1..] == [];
    assert G.CharsText([QuoteUnit(u)]) == G.CharText(QuoteUnit(u)) + G.CharsText([]);
  }

  /** Any code unit that is no surrogate, anywhere in a string, is printed as its piece. */
  lemma PiecePrinted(pre: Text, u: Unit, post: Text)
    requires !U.IsHigh(u) && !U.IsLow(u)
    ensures Stringify(JStr(pre + [u] + post)) == Units("\"") + Inner(pre) + Piece(u) + Inner(post) + Units("\"")
  {
    hide Units, Inner, Piece, Stringify;
    StringPrinted(pre + [u] + post);
    InnerSplit(pre + [u], post);
    InnerSplit(pre, [u]);
    InnerOne(u);
  }

  /** A surrogate pair is printed as it is. */
  lemma PairPrinted(pre: Text, hi: Unit, lo: Unit, post: Text)
    requires U.IsHigh(hi) && U.IsLow(lo)
    ensures Stringify(JStr(pre + [hi, lo] + post)) == Units("\"") + Inner(pre) + [hi, lo] + Inner(post) + Units("\"")
  {
    hide Units, Stringify, Inner;
    StringPrinted(pre + [hi, lo] + post);
    InnerSplit(pre + [hi, lo], post);
    InnerSplit(pre, [hi, lo]);
    InnerPair(hi, lo);
  }

  lemma InnerPair(hi: Unit, lo: Unit)
    requires U.IsHigh(hi) && U.IsLow(lo)
    ensures Inner([hi, lo]) == [hi, lo]
  {
    assert [hi, lo][2..] == [];
    var cs := [G.Plain(hi), G.Plain(lo)];
    assert QuoteChars([hi, lo]) == cs + QuoteChars([]) == cs;
    assert cs[1..] == [G.Plain(lo)] && cs[1..][1..] == [];
    assert G.CharsText([G.Plain(lo)]) == [lo] + G.CharsText([]);
    assert G.CharsText(cs) == [hi] + G.CharsText([G.Plain(lo)]);
  }

  /** Texts with a comma between them. */
  function Joined(ts: seq<Text>): Text {
    if ts == [] then [] else if |ts| == 1 then ts[0] else ts[0] + Units(",") + Joined(ts[1..])
  }

  function ItemTexts(items: seq<Json>): seq<Text> {
    seq(|items|, i requires 0 <= i < |items| => Stringify(items[i]))
  }

  function FieldTexts(fields: seq<Field>): seq<Text> {
    seq(|fields|, i requires 0 <= i < |fields| =>
      Stringify(JStr(fields[i].key)) + Units(":") + Stringify(fields[i].value))
  }

  lemma {:induction false} ItemsPrinted(items: seq<Json>)
    ensures StringifyItems(items) == Joined(ItemTexts(items))
    decreases items
  {
    hide Units, Stringify;
    PunctuationSpelled();
    if |items| > 1 {
      assert ItemTexts(items)[1..] == ItemTexts(items[1..]);
      ItemsPrinted(items[1..]);
    }
  }

  lemma FieldPrinted(f: Field)
    ensures StringifyField(f) == Stringify(JStr(f.key)) + Units(":") + Stringify(f.value)
  {
    hide Units;
    PunctuationSpelled();
  }

  lemma {:induction false} FieldsPrinted(fields: seq<Field>)
    ensures StringifyFields(fields) == Joined(FieldTexts(fields))
    decreases fields
  {
    hide Units, Stringify, StringifyField;
    PunctuationSpelled();
    if fields != [] { FieldPrinted(fields[0]); }
    if |fields| > 1 {
      assert FieldTexts(fields)[1..] == FieldTexts(fields[1..]);
      FieldsPrinted(fields[1..]);
    }
  }

  /** Every other value is printed without white space: its items or its keys and values in the order listed. */
  lemma ValuePrinted(v: Json)
    ensures v.JNull? ==> Stringify(v) == Units("null")
    ensures v.JBool? ==> Stringify(v) == if v.b then Units("true") else Units("false")
    ensures v.JNum? ==> Stringify(v) == if v.n < 0 then Units("-") + Numeral(-v.n) else Numeral(v.n)
    ensures v.JArr? ==> Stringify(v) == Units("[") + Joined(ItemTexts(v.items)) + Units("]")
    ensures v.JObj? ==> Stringify(v) == Units("{") + Joined(FieldTexts(v.fields)) + Units("}")
  {
    hide Units, Joined, ItemTexts, FieldTexts, Numeral, G.StringText, QuoteChars;
    PunctuationSpelled();
    LiteralsSpelled();
    MinusSpelled();
    if v.JArr? { ItemsPrinted(v.items); }
    if v.JObj? { FieldsPrinted(v.fields); }
  }

  lemma MinusSpelled()
    ensures Units("-") == [0x2D]
  {
  }
}
