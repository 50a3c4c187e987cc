/** The language of the tokenizer of scripts/ci/literal-pid-reuse-helper.c, as trees and the text each derives:
    objects whose members are quoted names and values, where a value is a quoted string, a bare word or an object.
    The reader accepts exactly the texts of such trees within its limits, and reads the tree that derives them. */
module HelperGrammar {
  import opened CodeUnits
  import opened HelperTokens
  import R = JsonReader

  datatype Tree = Quoted(chars: Text) | Bare(word: Text) | Empty(pad: Text) | Full(members: Members)

  datatype Members = Last(entry: Entry) | More(entry: Entry, rest: Members)

  datatype Entry = Entry(before: Text, key: Text, gap: Text, between: Text, value: Tree, after: Text)

  datatype Document = Document(lead: Text, root: Tree, trail: Text)

  // ----- texts

  const QUOTE: Text := ['\"' as int]
  const OPEN: Text := ['{' as int]
  const CLOSE: Text := ['}' as int]
  const COLON: Text := [':' as int]
  const COMMA: Text := [',' as int]

  function TreeText(v: Tree): Text
    decreases v, 0
  {
    match v
    case Quoted(chars) => QUOTE + (chars + QUOTE)
    case Bare(word) => word
    case Empty(pad) => OPEN + (pad + CLOSE)
    case Full(members) => OPEN + MembersText(members)
  }

  function MembersText(ms: Members): Text
    decreases ms, 0
  {
    match ms
    case Last(e) => EntryText(e) + CLOSE
    case More(e, rest) => EntryText(e) + (COMMA + MembersText(rest))
  }

  function EntryText(e: Entry): Text
    decreases e, 0
  {
    e.before + (NameText(e.key) + (e.gap + (COLON + (e.between + (TreeText(e.value) + e.after)))))
  }

  function NameText(key: Text): Text { QUOTE + (key + QUOTE) }

  function DocumentText(d: Document): Text { d.lead + (TreeText(d.root) + d.trail) }

  // ----- well-formed trees

  predicate IsWhite(c: int) { c == ' ' as int || c == '\n' as int || c == '\r' as int || c == '\t' as int }

  predicate White(s: Text) { forall i | 0 <= i < |s| :: IsWhite(s[i]) }

  /** No quotation mark, no backslash, no control character. */
  predicate Verbatim(s: Text) {
    forall i | 0 <= i < |s| :: s[i] != '\"' as int && s[i] != '\\' as int && s[i] >= ' ' as int
  }

  predicate EndsWord(c: int) { c == ',' as int || c == '}' as int || c == ']' as int || IsWhite(c) }

  /** Not empty, not starting like something else, and without a separator. */
  predicate Word(s: Text) {
    && |s| > 0 && s[0] != '\"' as int && s[0] != '{' as int && s[0] != '[' as int
    && forall i | 0 <= i < |s| :: !EndsWord(s[i])
  }

  predicate ValidTree(v: Tree) {
    match v
    case Quoted(chars) => Verbatim(chars)
    case Bare(word) => Word(word)
    case Empty(pad) => White(pad)
    case Full(members) => ValidMembers(members)
  }

  predicate ValidMembers(ms: Members) { ValidEntry(ms.entry) && (ms.More? ==> ValidMembers(ms.rest)) }

  predicate ValidEntry(e: Entry) {
    White(e.before) && Verbatim(e.key) && White(e.gap) && White(e.between) && ValidTree(e.value) && White(e.after)
  }

  predicate ValidDocument(d: Document) {
    White(d.lead) && ValidTree(d.root) && (d.root.Empty? || d.root.Full?) && White(d.trail)
  }

  // ----- limits

  function Tokens(v: Tree): (n: nat)
    ensures n > 0
  {
    if v.Full? then 1 + MembersTokens(v.members) else 1
  }

  function MembersTokens(ms: Members): nat {
    1 + Tokens(ms.entry.value) + if ms.More? then MembersTokens(ms.rest) else 0
  }

  function Max(a: nat, b: nat): nat { if a < b then b else a }

  /** Objects with members nested inside one another. */
  function Levels(v: Tree): nat { if v.Full? then 1 + MembersLevels(v.members) else 0 }

  function MembersLevels(ms: Members): nat {
    if ms.More? then Max(Levels(ms.entry.value), MembersLevels(ms.rest)) else Levels(ms.entry.value)
  }

  // ----- the tree read

  function NodeOf(v: Tree, at: nat): (n: Node)
    ensures Size(n) == Tokens(v)
    decreases v
  {
    match v
    case Quoted(chars) => Leaf(StringToken, at + 1, at + 1 + |chars|)
    case Bare(word) => Leaf(Primitive, at, at + |word|)
    case Empty(_) => Object(at, at + |TreeText(v)|, EndPairs)
    case Full(members) => Object(at, at + |TreeText(v)|, PairsOf(members, at + 1))
  }

  function ValueAt(e: Entry, at: nat): nat {
    at + |e.before| + |NameText(e.key)| + |e.gap| + 1 + |e.between|
  }

  function PairsOf(ms: Members, at: nat): (p: Pairs)
    ensures p.Pair? && PairsSize(p) == MembersTokens(ms)
    decreases ms
  {
    var e := ms.entry;
    var key := at + |e.before| + 1;
    Pair(key, key + |e.key|, NodeOf(e.value, ValueAt(e, at)),
         if ms.More? then PairsOf(ms.rest, at + |EntryText(e)| + 1) else EndPairs)
  }

  // ----- white space

  lemma {:induction false} SkipIs(text: Text, i: nat, w: Text)
    requires White(w) && Has(text, i, w) && !IsWhite(At(text, i + |w|))
    ensures SkipWs(text, i) == i + |w|
    decreases |w|
  {
    if w != [] {
      R.HasFirst(text, i, w);
      SkipIs(text, i + 1, w[1..]);
    }
  }

  lemma {:induction false} SkipSound(text: Text, i: nat)
    requires i <= |text|
    ensures var j := SkipWs(text, i); White(text[i..j]) && !IsWhite(At(text, j)) && SkipWs(text, j) == j
    decreases |text| - i
  {
    if i < |text| && IsSpace(text[i]) {
      SkipSound(text, i + 1);
      var j := SkipWs(text, i);
      assert text[i..j] == [text[i]] + text[i + 1..j];
    }
  }

  // ----- strings and words

  lemma {:induction false} QuoteIs(text: Text, i: nat, chars: Text)
    requires Verbatim(chars) && Has(text, i, chars) && At(text, i + |chars|) == '\"' as int
    ensures CloseQuote(text, i) == Ok(i + |chars|)
    decreases |chars|
  {
    if chars != [] {
      R.HasFirst(text, i, chars);
      assert text[i] == chars[0];
      QuoteIs(text, i + 1, chars[1..]);
    }
  }

  lemma StringIs(text: Text, i: nat, chars: Text, count: nat)
    requires Verbatim(chars) && Has(text, i, NameText(chars)) && count < 512
    ensures ReadString(text, i, count) == Ok(Span(i + 1, i + 1 + |chars|))
  {
    hide Has, CloseQuote, Verbatim;
    HasConcat(text, i, QUOTE, chars + QUOTE);
    HasConcat(text, i + 1, chars, QUOTE);
    R.HasFirst(text, i, QUOTE);
    R.HasFirst(text, i + 1 + |chars|, QUOTE);
    QuoteIs(text, i + 1, chars);
  }

  lemma StringSound(text: Text, i: nat, count: nat) returns (chars: Text)
    requires i <= |text| && ReadString(text, i, count).Ok?
    ensures Verbatim(chars) && Has(text, i, NameText(chars)) && At(text, i) == '\"' as int
    ensures ReadString(text, i, count).value == Span(i + 1, i + 1 + |chars|)
  {
    hide Has, CloseQuote;
    var q := CloseQuote(text, i + 1).value;
    chars := text[i + 1..q];
    CloseQuoteSpan(text, i + 1);
    HasSlice(text, i + 1, q);
    HasUnit(text, i, '\"' as int);
    HasUnit(text, q, '\"' as int);
    HasConcat(text, i + 1, chars, QUOTE);
    HasConcat(text, i, QUOTE, chars + QUOTE);
  }

  lemma {:induction false} WordIs(text: Text, i: nat, word: Text)
    requires Has(text, i, word) && (forall k | 0 <= k < |word| :: !EndsWord(word[k]))
    requires i + |word| == |text| || EndsWord(At(text, i + |word|))
    ensures PrimitiveEnd(text, i) == i + |word|
    decreases |word|
  {
    if word != [] {
      R.HasFirst(text, i, word);
      assert text[i] == word[0];
      WordIs(text, i + 1, word[1..]);
    }
  }

  // ----- every tree within the limits is read

  /** What must follow a tree: something that ends a bare word. */
  predicate Closed(text: Text, v: Tree, end: nat) { v.Bare? ==> end == |text| || EndsWord(At(text, end)) }

  lemma TreeStart(v: Tree)
    requires ValidTree(v)
    ensures TreeText(v) != [] && !IsWhite(TreeText(v)[0])
    ensures v.Quoted? <==> TreeText(v)[0] == '\"' as int
    ensures v.Empty? || v.Full? <==> TreeText(v)[0] == '{' as int
    ensures v.Bare? ==> !EndsWord(TreeText(v)[0]) && TreeText(v)[0] != '[' as int
  {
    hide MembersText;
  }

  lemma {:induction false} TreeComplete(text: Text, i: nat, w: Text, v: Tree, depth: nat, count: nat)
    requires White(w) && ValidTree(v) && Has(text, i, w) && Has(text, i + |w|, TreeText(v))
    requires Closed(text, v, i + |w| + |TreeText(v)|)
    requires depth + Levels(v) <= 16 && count + Tokens(v) <= 512
    ensures ReadNode(text, i, depth, count) == Ok(Parsed(NodeOf(v, i + |w|), i + |w| + |TreeText(v)|))
    decreases v, 1
  {
    hide Has, White, TreeText, ReadObject, ReadString, PrimitiveEnd, Verbatim, MembersLevels, MembersTokens, PairsOf;
    var at := i + |w|;
    TreeStart(v);
    R.HasFirst(text, at, TreeText(v));
    SkipIs(text, i, w);
    match v {
      case Quoted(chars) =>
        TextOf(v);
        StringIs(text, at, chars, count);
      case Bare(word) =>
        TextOf(v);
        WordIs(text, at, word);
      case _ => ObjectComplete(text, at, v, depth, count);
    }
  }

  lemma TextOf(v: Tree)
    ensures v.Quoted? ==> TreeText(v) == NameText(v.chars)
    ensures v.Bare? ==> TreeText(v) == v.word
    ensures v.Empty? ==> TreeText(v) == OPEN + (v.pad + CLOSE)
    ensures v.Full? ==> TreeText(v) == OPEN + MembersText(v.members)
  {
  }

  lemma {:induction false} ObjectComplete(text: Text, at: nat, v: Tree, depth: nat, count: nat)
    requires ValidTree(v) && (v.Empty? || v.Full?) && Has(text, at, TreeText(v))
    requires depth + Levels(v) <= 16 && count + Tokens(v) <= 512
    ensures at < |text| && ReadObject(text, at, depth, count) == Ok(Parsed(NodeOf(v, at), at + |TreeText(v)|))
    decreases v, 0
  {
    hide Has, White, TreeText, MembersText, ReadPairs, SkipWs, Tokens, Levels, PairsOf, EntryText, ValidEntry;
    TextOf(v);
    TreeStart(v);
    R.HasFirst(text, at, TreeText(v));
    Limits(v);
    if v.Empty? {
      HasConcat(text, at, OPEN, v.pad + CLOSE);
      HasConcat(text, at + 1, v.pad, CLOSE);
      R.HasFirst(text, at + 1 + |v.pad|, CLOSE);
      SkipIs(text, at + 1, v.pad);
    } else {
      HasConcat(text, at, OPEN, MembersText(v.members));
      MembersComplete(text, at + 1, v.members, depth, count + 1);
      MembersSkipped(text, at + 1, v.members);
      PairsFrom(text, at + 1, depth, count + 1);
    }
  }

  lemma Limits(v: Tree)
    ensures v.Empty? ==> Tokens(v) == 1
    ensures v.Full? ==> Tokens(v) == 1 + MembersTokens(v.members) && Levels(v) == 1 + MembersLevels(v.members)
  {
  }

  /** Members start, after white space, with a quotation mark. */
  lemma MembersSkipped(text: Text, i: nat, ms: Members)
    requires ValidMembers(ms) && Has(text, i, MembersText(ms))
    ensures i <= |text| && At(text, SkipWs(text, i)) == '\"' as int
  {
    hide Has, White, TreeText, SkipWs, Verbatim;
    var e := ms.entry;
    var rest := e.gap + (COLON + (e.between + (TreeText(e.value) + e.after)));
    HasConcat(text, i, EntryText(e), if ms.Last? then CLOSE else COMMA + MembersText(ms.rest));
    HasConcat(text, i, e.before, NameText(e.key) + rest);
    HasConcat(text, i + |e.before|, NameText(e.key), rest);
    HasConcat(text, i + |e.before|, QUOTE, e.key + QUOTE);
    R.HasFirst(text, i + |e.before|, QUOTE);
    SkipIs(text, i, e.before);
  }

  /** Reading members may start anywhere in the white space before them. */
  lemma PairsFrom(text: Text, i: nat, depth: nat, count: nat)
    requires i <= |text|
    ensures ReadPairs(text, SkipWs(text, i), depth, count) == ReadPairs(text, i, depth, count)
  {
    hide SkipWs, ReadNode, ReadString;
    SkipSound(text, i);
    assert ReadMember(text, SkipWs(text, i), depth, count) == ReadMember(text, i, depth, count);
  }

  lemma {:induction false} MembersComplete(text: Text, i: nat, ms: Members, depth: nat, count: nat)
    requires ValidMembers(ms) && Has(text, i, MembersText(ms))
    requires depth + 1 + MembersLevels(ms) <= 16 && count + MembersTokens(ms) <= 512
    ensures i <= |text| && ReadPairs(text, i, depth, count) == Ok(Parsed(PairsOf(ms, i), i + |MembersText(ms)|))
    decreases ms
  {
    hide Has, White, EntryText, ReadMember, SkipWs, ValidEntry, NodeOf, Tokens, Levels;
    var e := ms.entry;
    var j := i + |EntryText(e)|;
    HasConcat(text, i, EntryText(e), if ms.Last? then CLOSE else COMMA + MembersText(ms.rest));
    if ms.Last? {
      R.HasFirst(text, j, CLOSE);
    } else {
      HasConcat(text, j, COMMA, MembersText(ms.rest));
      R.HasFirst(text, j, COMMA);
      MembersComplete(text, j + 1, ms.rest, depth, count + 1 + Tokens(e.value));
    }
    EntryComplete(text, i, e, depth, count);
  }

  /** Where the parts of a member stand. */
  lemma EntrySplit(text: Text, i: nat, e: Entry) returns (n: nat, c: nat, d: nat, v: nat)
    requires Has(text, i, EntryText(e))
    ensures n == i + |e.before| && c == n + |NameText(e.key)| + |e.gap| && d == c + 1 && v == ValueAt(e, i)
    ensures v == d + |e.between| && i + |EntryText(e)| == v + |TreeText(e.value)| + |e.after| <= |text|
    ensures Has(text, i, e.before) && Has(text, n, NameText(e.key)) && Has(text, n + |NameText(e.key)|, e.gap)
    ensures At(text, n) == '\"' as int && At(text, c) == ':' as int
    ensures Has(text, d, e.between) && Has(text, v, TreeText(e.value)) && Has(text, v + |TreeText(e.value)|, e.after)
  {
    hide Has, TreeText;
    var t1 := TreeText(e.value) + e.after;
    var t2 := e.between + t1;
    n := i + |e.before|;
    var m := n + |NameText(e.key)|;
    c := m + |e.gap|;
    d := c + 1;
    v := d + |e.between|;
    HasConcat(text, i, e.before, NameText(e.key) + (e.gap + (COLON + t2)));
    HasConcat(text, n, NameText(e.key), e.gap + (COLON + t2));
    HasConcat(text, n, QUOTE, e.key + QUOTE);
    R.HasFirst(text, n, QUOTE);
    HasConcat(text, m, e.gap, COLON + t2);
    HasConcat(text, c, COLON, t2);
    R.HasFirst(text, c, COLON);
    HasConcat(text, d, e.between, t1);
    HasConcat(text, v, TreeText(e.value), e.after);
    HasEnd(text, v + |TreeText(e.value)|, e.after);
  }

  lemma HasEnd(text: Text, i: nat, x: Text)
    requires Has(text, i, x)
    ensures i + |x| <= |text|
  {
  }

  lemma {:induction false} EntryComplete(text: Text, i: nat, e: Entry, depth: nat, count: nat)
    requires ValidEntry(e) && Has(text, i, EntryText(e))
    requires At(text, i + |EntryText(e)|) == '}' as int || At(text, i + |EntryText(e)|) == ',' as int
    requires depth + 1 + Levels(e.value) <= 16 && count + 1 + Tokens(e.value) <= 512
    ensures i <= |text|
    ensures var key, v := i + |e.before| + 1, ValueAt(e, i);
            var cursor := v + |TreeText(e.value)|;
            && ReadMember(text, i, depth, count)
               == Ok(Parsed(MemberTree(Span(key, key + |e.key|), NodeOf(e.value, v)), cursor))
            && SkipWs(text, cursor) == i + |EntryText(e)|
    decreases e
  {
    hide Has, White, TreeText, EntryText, ReadNode, ReadString, SkipWs, NodeOf, ValidTree, Verbatim, Tokens, Levels;
    var n, c, d, v := EntrySplit(text, i, e);
    var end := v + |TreeText(e.value)|;
    SkipIs(text, i, e.before);
    StringIs(text, n, e.key, count);
    SkipIs(text, n + |NameText(e.key)|, e.gap);
    AfterValue(text, end, e.after);
    SkipIs(text, end, e.after);
    TreeComplete(text, d, e.between, e.value, depth + 1, count + 1);
  }

  lemma AfterValue(text: Text, end: nat, after: Text)
    requires White(after) && Has(text, end, after)
    requires At(text, end + |after|) == '}' as int || At(text, end + |after|) == ',' as int
    ensures EndsWord(At(text, end))
  {
    if after != [] { R.HasFirst(text, end, after); }
  }

  // ----- whatever is read derives the text

  lemma {:induction false} TreeSound(text: Text, i: nat, depth: nat, count: nat) returns (w: Text, v: Tree)
    requires i <= |text| && ReadNode(text, i, depth, count).Ok?
    ensures White(w) && ValidTree(v) && Has(text, i, w) && Has(text, i + |w|, TreeText(v))
    ensures ReadNode(text, i, depth, count).value == Parsed(NodeOf(v, i + |w|), i + |w| + |TreeText(v)|)
    ensures depth + Levels(v) <= 16
    decreases |text| - i, 1
  {
    hide Has, White, TreeText, ReadObject, ReadString, PrimitiveEnd, Verbatim, SkipWs, PairsOf;
    var at := SkipWs(text, i);
    w := text[i..at];
    SkipSound(text, i);
    HasSlice(text, i, at);
    if text[at] == 0x22 {
      var chars := StringSound(text, at, count);
      v := Quoted(chars);
      TextOf(v);
    } else if text[at] == 0x7B {
      v := ObjectSound(text, at, depth, count);
    } else {
      var e := PrimitiveEnd(text, at);
      PrimitiveEndSpan(text, at);
      v := Bare(text[at..e]);
      HasSlice(text, at, e);
      TextOf(v);
    }
  }

  lemma {:induction false} ObjectSound(text: Text, at: nat, depth: nat, count: nat) returns (v: Tree)
    requires at < |text| && text[at] == '{' as int && depth <= 16 && ReadObject(text, at, depth, count).Ok?
    ensures ValidTree(v) && (v.Empty? || v.Full?) && Has(text, at, TreeText(v)) && depth + Levels(v) <= 16
    ensures ReadObject(text, at, depth, count).value == Parsed(NodeOf(v, at), at + |TreeText(v)|)
    decreases |text| - at, 0
  {
    hide Has, White, TreeText, MembersText, ReadPairs, SkipWs, ValidMembers, MembersLevels, PairsOf;
    var j := SkipWs(text, at + 1);
    SkipSound(text, at + 1);
    HasUnit(text, at, '{' as int);
    if At(text, j) == 0x7D {
      v := Empty(text[at + 1..j]);
      HasSlice(text, at + 1, j);
      HasUnit(text, j, '}' as int);
      HasConcat(text, at + 1, v.pad, CLOSE);
      HasConcat(text, at, OPEN, v.pad + CLOSE);
    } else {
      PairsFrom(text, at + 1, depth, count + 1);
      var ms := MembersSound(text, at + 1, depth, count + 1);
      v := Full(ms);
      HasConcat(text, at, OPEN, MembersText(ms));
    }
    TextOf(v);
    Limits(v);
  }

  lemma {:induction false} MembersSound(text: Text, i: nat, depth: nat, count: nat) returns (ms: Members)
    requires i <= |text| && ReadPairs(text, i, depth, count).Ok?
    ensures ValidMembers(ms) && Has(text, i, MembersText(ms)) && depth + 1 + MembersLevels(ms) <= 16
    ensures ReadPairs(text, i, depth, count).value == Parsed(PairsOf(ms, i), i + |MembersText(ms)|)
    decreases |text| - i, 3
  {
    hide Has, White, EntryText, ReadMember, SkipWs, ValidEntry, NodeOf, Tokens, Levels;
    var e := EntrySound(text, i, depth, count);
    var j := i + |EntryText(e)|;
    if text[j] == 0x7D {
      ms := Last(e);
      HasUnit(text, j, '}' as int);
      HasConcat(text, i, EntryText(e), CLOSE);
    } else {
      var rest := MembersSound(text, j + 1, depth, count + 1 + Tokens(e.value));
      ms := More(e, rest);
      HasUnit(text, j, ',' as int);
      HasConcat(text, j, COMMA, MembersText(rest));
      HasConcat(text, i, EntryText(e), COMMA + MembersText(rest));
    }
  }

  /** A member read, with the white space after its value. */
  lemma {:induction false} EntrySound(text: Text, i: nat, depth: nat, count: nat) returns (e: Entry)
    requires i <= |text| && ReadMember(text, i, depth, count).Ok?
    ensures ValidEntry(e) && Has(text, i, EntryText(e)) && depth + 1 + Levels(e.value) <= 16
    ensures var m := ReadMember(text, i, depth, count).value;
            var key := i + |e.before| + 1;
            && m.tree == MemberTree(Span(key, key + |e.key|), NodeOf(e.value, ValueAt(e, i)))
            && SkipWs(text, m.cursor) == i + |EntryText(e)|
            && i < i + |EntryText(e)|
    decreases |text| - i, 2
  {
    hide Has, White, TreeText, EntryText, ReadNode, ReadString, SkipWs, NodeOf, ValidTree, Verbatim, Levels;
    var n := SkipWs(text, i);
    SkipSound(text, i);
    var key := StringSound(text, n, count);
    var m := n + |NameText(key)|;
    var c := SkipWs(text, m);
    SkipSound(text, m);
    var between, value := TreeSound(text, c + 1, depth + 1, count + 1);
    var end := c + 1 + |between| + |TreeText(value)|;
    var j := SkipWs(text, end);
    SkipSound(text, end);
    e := Entry(text[i..n], key, text[m..c], between, value, text[end..j]);
    HasSlice(text, i, n);
    HasSlice(text, m, c);
    HasSlice(text, end, j);
    HasUnit(text, c, ':' as int);
    EntryJoin(text, i, e);
  }

  lemma EntryJoin(text: Text, i: nat, e: Entry)
    requires var n := i + |e.before|;
             var m := n + |NameText(e.key)|;
             var c := m + |e.gap|;
             var v := c + 1 + |e.between|;
             && Has(text, i, e.before) && Has(text, n, NameText(e.key)) && Has(text, m, e.gap) && Has(text, c, COLON)
             && Has(text, c + 1, e.between) && Has(text, v, TreeText(e.value))
             && Has(text, v + |TreeText(e.value)|, e.after)
    ensures Has(text, i, EntryText(e)) && i + |EntryText(e)| == ValueAt(e, i) + |TreeText(e.value)| + |e.after|
  {
    hide Has, TreeText, NameText;
    var n := i + |e.before|;
    var m := n + |NameText(e.key)|;
    var c := m + |e.gap|;
    var v := c + 1 + |e.between|;
    var t1 := TreeText(e.value) + e.after;
    var t2 := e.between + t1;
    HasConcat(text, v, TreeText(e.value), e.after);
    HasConcat(text, c + 1, e.between, t1);
    HasConcat(text, c, COLON, t2);
    HasConcat(text, m, e.gap, COLON + t2);
    HasConcat(text, n, NameText(e.key), e.gap + (COLON + t2));
    HasConcat(text, i, e.before, NameText(e.key) + (e.gap + (COLON + t2)));
  }

  // ----- the main result

  /** A document of this language, an object at its root, with at most 16 levels below it and 512 tokens. */
  ghost predicate Derives(d: Document, text: Text) {
    ValidDocument(d) && DocumentText(d) == text && Levels(d.root) <= 16 && Tokens(d.root) <= 512
  }

  lemma DocumentComplete(d: Document, text: Text)
    requires Derives(d, text)
    ensures ReadJson(text) == Ok(NodeOf(d.root, |d.lead|))
  {
    hide Has, White, TreeText, ReadNode, SkipWs, NodeOf, Tokens, Levels, ValidTree;
    var i := |d.lead|;
    var j := i + |TreeText(d.root)|;
    Whole(text);
    HasConcat(text, 0, d.lead, TreeText(d.root) + d.trail);
    HasConcat(text, i, TreeText(d.root), d.trail);
    TreeStart(d.root);
    R.HasFirst(text, i, TreeText(d.root));
    SkipIs(text, 0, d.lead);
    SkipIs(text, j, d.trail);
    NoneHere(text, i);
    TreeComplete(text, i, [], d.root, 0, 0);
    RootIsObject(d.root, i);
  }

  lemma Whole(text: Text)
    ensures Has(text, 0, text)
  {
    assert text[0..|text|] == text;
  }

  lemma NoneHere(text: Text, i: nat)
    requires i <= |text|
    ensures Has(text, i, []) && White([])
  {
  }

  lemma RootIsObject(v: Tree, at: nat)
    ensures NodeOf(v, at).Object? <==> v.Empty? || v.Full?
  {
  }

  lemma DocumentSound(text: Text) returns (d: Document)
    requires ReadJson(text).Ok?
    ensures Derives(d, text) && ReadJson(text).value == NodeOf(d.root, |d.lead|)
  {
    hide Has, White, TreeText, ReadNode, SkipWs, NodeOf, Levels, ValidTree;
    var i := SkipWs(text, 0);
    SkipSound(text, 0);
    var w, v := TreeSound(text, i, 0, 0);
    var j := i + |w| + |TreeText(v)|;
    SkipSound(text, j);
    d := Document(text[..i] + w, v, text[j..]);
    RootIsObject(v, i + |w|);
    WhiteJoin(text[..i], w);
    HasIs(text, i, w);
    HasIs(text, i + |w|, TreeText(v));
    assert text[..i] == text[0..i] && text[j..] == text[j..|text|];
    assert text == text[..i] + text[i..i + |w|] + (text[i + |w|..j] + text[j..]);
    assert DocumentText(d) == text;
    assert Tokens(v) == Size(ReadNode(text, i, 0, 0).value.tree);
  }

  lemma WhiteJoin(a: Text, b: Text)
    requires White(a) && White(b)
    ensures White(a + b)
  {
  }

  /** The tokenizer accepts exactly the texts that a document within the limits derives, and reads that document's
      tree. */
  lemma ReadsExactly(text: Text)
    ensures ReadJson(text).Ok? <==> exists d :: Derives(d, text)
    ensures forall d | Derives(d, text) :: ReadJson(text) == Ok(NodeOf(d.root, |d.lead|))
  {
    hide Derives, ReadJson, NodeOf;
    if ReadJson(text).Ok? { var d := DocumentSound(text); }
    forall d | Derives(d, text) ensures ReadJson(text) == Ok(NodeOf(d.root, |d.lead|)) { DocumentComplete(d, text); }
  }
}
