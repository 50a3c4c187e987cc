/** Optional values, shared by the models. */
module Options {
  datatype Option<+T> = None | Some(value: T)
}

/** Parse trees of the JSON grammar (sections 2 to 7 of RFC 8259) over UTF-16 code units, the text
    each tree derives, and what a tree says: its names, its numbers and its strings.

    A text is valid JSON exactly when it is `DocumentText(d)` for some well-formed `d`. */
module JsonGrammar {
  import opened CodeUnits
  import opened Decimal
  import opened Options

  // ----- lexical classes

  datatype Class = Space | Digit

  predicate In(c: int, k: Class) {
    match k
    case Space => c == 0x20 || c == 0x09 || c == 0x0A || c == 0x0D
    case Digit => IsDigit(c)
  }

  predicate AllIn(s: Text, k: Class) { forall i | 0 <= i < |s| :: In(s[i], k) }

  // ----- strings (section 7)

  datatype Char =
    | Plain(c: Unit)
    | Short(escape: Unit)
    | Hex(digits: Text)

  predicate IsHexDigit(c: int) {
    0x30 <= c <= 0x39 || 0x41 <= c <= 0x46 || 0x61 <= c <= 0x66
  }

  function HexDigitValue(c: int): (v: nat)
    requires IsHexDigit(c)
    ensures v < 16
  {
    if c <= 0x39 then c - 0x30 else if c <= 0x46 then c - 0x41 + 10 else c - 0x61 + 10
  }

  /** What each two-character escape stands for. */
  function ShortValue(escape: int): Option<Unit> {
    match escape
    case 0x22 => Some(0x22)
    case 0x5C => Some(0x5C)
    case 0x2F => Some(0x2F)
    case 0x62 => Some(0x08)
    case 0x66 => Some(0x0C)
    case 0x6E => Some(0x0A)
    case 0x72 => Some(0x0D)
    case 0x74 => Some(0x09)
    case _ => None
  }

  predicate HexFour(h: Text) { |h| == 4 && forall i | 0 <= i < |h| :: IsHexDigit(h[i]) }

  predicate ValidChar(ch: Char) {
    match ch
    case Plain(c) => c >= 0x20 && c != 0x22 && c != 0x5C
    case Short(e) => ShortValue(e).Some?
    case Hex(h) => HexFour(h)
  }

  function CharText(ch: Char): Text {
    match ch
    case Plain(c) => [c]
    case Short(e) => [0x5C, e]
    case Hex(h) => [0x5C, 0x75] + h
  }

  function HexValue(h: Text): Unit
    requires HexFour(h)
  {
    HexDigitValue(h[0]) * 4096 + HexDigitValue(h[1]) * 256 + HexDigitValue(h[2]) * 16 + HexDigitValue(h[3])
  }

  /** The code unit a character of a literal denotes (of no interest unless the character is valid). */
  function CharValue(ch: Char): Unit {
    match ch
    case Plain(c) => c
    case Short(e) => if ShortValue(e).Some? then ShortValue(e).value else 0
    case Hex(h) => if HexFour(h) then HexValue(h) else 0
  }

  predicate ValidChars(cs: seq<Char>) { forall i | 0 <= i < |cs| :: ValidChar(cs[i]) }

  function CharsText(cs: seq<Char>): Text {
    if cs == [] then [] else CharText(cs[0]) + CharsText(cs[1..])
  }

  /** The string a literal denotes once its escapes are resolved. */
  function CharsValue(cs: seq<Char>): Text {
    if cs == [] then [] else [CharValue(cs[0])] + CharsValue(cs[1..])
  }

  function StringText(cs: seq<Char>): Text { [0x22] + (CharsText(cs) + [0x22]) }

  // ----- numbers (section 6)

  datatype Exponent = Exponent(mark: Unit, sign: Text, digits: Text)

  datatype Number = Number(minus: bool, whole: Text, fraction: Option<Text>, exponent: Option<Exponent>)

  predicate ValidNumber(n: Number) {
    && Canonical(n.whole)
    && (n.fraction.Some? ==> n.fraction.value != [] && AllIn(n.fraction.value, Digit))
    && (n.exponent.Some? ==>
          var e := n.exponent.value;
          && (e.mark == 0x65 || e.mark == 0x45)
          && (e.sign == [] || e.sign == [0x2B] || e.sign == [0x2D])
          && e.digits != [] && AllIn(e.digits, Digit))
  }

  function MinusText(minus: bool): Text { if minus then [0x2D] else [] }

  function FractionText(f: Option<Text>): Text {
    if f.Some? then [0x2E] + f.value else []
  }

  function ExponentText(e: Option<Exponent>): Text {
    if e.Some? then [e.value.mark] + (e.value.sign + e.value.digits) else []
  }

  function NumberText(n: Number): Text {
    MinusText(n.minus) + (n.whole + (FractionText(n.fraction) + ExponentText(n.exponent)))
  }

  predicate IsInteger(n: Number) { n.fraction.None? && n.exponent.None? }

  function IntegerValue(n: Number): int
    requires ValidNumber(n)
  {
    if n.minus then 0 - Magnitude(n.whole) else Magnitude(n.whole)
  }

  // ----- values (sections 2 to 5)

  datatype Value =
    | Null | True | False
    | Num(n: Number)
    | Str(chars: seq<Char>)
    | EmptyArr(pad: Text)
    | Arr(items: Items)
    | EmptyObj(pad: Text)
    | Obj(members: Members)

  datatype Items = EndItems | Item(element: Element, tail: Items)

  datatype Element = Element(before: Text, v: Value, after: Text)

  datatype Members = EndMembers | Member(entry: Entry, tail: Members)

  datatype Entry = Entry(before: Text, name: seq<Char>, gap: Text, between: Text, v: Value, after: Text)

  datatype Document = Document(lead: Text, v: Value, trail: Text)

  const NULL: Text := [0x6E, 0x75, 0x6C, 0x6C]
  const TRUE: Text := [0x74, 0x72, 0x75, 0x65]
  const FALSE: Text := [0x66, 0x61, 0x6C, 0x73, 0x65]

  predicate ValidValue(v: Value) {
    match v
    case Null => true
    case True => true
    case False => true
    case Num(n) => ValidNumber(n)
    case Str(cs) => ValidChars(cs)
    case EmptyArr(pad) => AllIn(pad, Space)
    case Arr(items) => items.Item? && ValidItems(items)
    case EmptyObj(pad) => AllIn(pad, Space)
    case Obj(members) => members.Member? && ValidMembers(members)
  }

  predicate ValidItems(xs: Items) {
    xs.Item? ==> ValidElement(xs.element) && ValidItems(xs.tail)
  }

  predicate ValidElement(e: Element) {
    AllIn(e.before, Space) && ValidValue(e.v) && AllIn(e.after, Space)
  }

  predicate ValidMembers(ms: Members) {
    ms.Member? ==> ValidEntry(ms.entry) && ValidMembers(ms.tail)
  }

  predicate ValidEntry(e: Entry) {
    && AllIn(e.before, Space) && ValidChars(e.name) && AllIn(e.gap, Space) && AllIn(e.between, Space)
    && ValidValue(e.v) && AllIn(e.after, Space)
  }

  predicate ValidDocument(d: Document) {
    AllIn(d.lead, Space) && ValidValue(d.v) && AllIn(d.trail, Space)
  }

  function ValueText(v: Value): Text
    decreases v, 0
  {
    match v
    case Null => NULL
    case True => TRUE
    case False => FALSE
    case Num(n) => NumberText(n)
    case Str(cs) => StringText(cs)
    case EmptyArr(pad) => [0x5B] + (pad + [0x5D])
    case Arr(items) => [0x5B] + ItemsText(items)
    case EmptyObj(pad) => [0x7B] + (pad + [0x7D])
    case Obj(members) => [0x7B] + MembersText(members)
  }

  /** The items of an array up to and including its closing bracket. */
  function ItemsText(xs: Items): Text
    decreases xs, 0
  {
    match xs
    case EndItems => [0x5D]
    case Item(e, tail) => ElementText(e) + ItemsRest(tail)
  }

  function ElementText(e: Element): Text
    decreases e, 0
  {
    e.before + (ValueText(e.v) + e.after)
  }

  /** A separator and the further items, or the closing bracket. */
  function ItemsRest(xs: Items): Text
    decreases xs, 1
  {
    if xs.EndItems? then [0x5D] else [0x2C] + ItemsText(xs)
  }

  function MembersText(ms: Members): Text
    decreases ms, 0
  {
    match ms
    case EndMembers => [0x7D]
    case Member(e, tail) => EntryText(e) + MembersRest(tail)
  }

  /** A member with the white space around it. */
  function EntryText(e: Entry): Text
    decreases e, 0
  {
    e.before + (StringText(e.name) + (e.gap + ([0x3A] + (e.between + (ValueText(e.v) + e.after)))))
  }

  function MembersRest(ms: Members): Text
    decreases ms, 1
  {
    if ms.EndMembers? then [0x7D] else [0x2C] + MembersText(ms)
  }

  function DocumentText(d: Document): Text { d.lead + (ValueText(d.v) + d.trail) }

  /** Valid JSON: the text derives from the grammar. */
  ghost predicate ValidJson(s: Text) {
    exists d :: ValidDocument(d) && DocumentText(d) == s
  }
}
