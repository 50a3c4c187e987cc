/** What the JSON tokenizer of scripts/ci/literal-pid-reuse-helper.c computes, as functions of the text:
    the tree it recognises and the flat token array that lays the tree out. */
module HelperTokens {
  import opened CodeUnits

  const MAX_TOKENS := 512
  const MAX_DEPTH := 16

  datatype Kind = ObjectToken | StringToken | Primitive

  datatype Token = Token(kind: Kind, start: nat, end: nat, next: nat, parent: int)

  /** The stages at which the helper gives up. */
  datatype Stage =
    | TokenLimit | JsonString | StringEscape | StringEnd | JsonDepth | JsonValue | JsonColon | ObjectEnd
    | ObjectSeparator | ArrayUnsupported | JsonPrimitive | TrailingData
    | ObjectRequired | ObjectPair | DuplicateKey | RequiredField | NotUint

  datatype Outcome<+T> = Ok(value: T) | Fail(stage: Stage)

  // ----- trees and their layout

  datatype Node =
    | Leaf(kind: Kind, start: nat, end: nat)
    | Object(start: nat, end: nat, pairs: Pairs)

  datatype Pairs = EndPairs | Pair(keyStart: nat, keyEnd: nat, value: Node, rest: Pairs)

  function Size(n: Node): (k: nat)
    ensures k > 0
  {
    if n.Leaf? then 1 else 1 + PairsSize(n.pairs)
  }

  function PairsSize(p: Pairs): nat {
    if p.EndPairs? then 0 else 1 + Size(p.value) + PairsSize(p.rest)
  }

  /** The tokens of a node laid out from index `at`: a node, then everything inside it. */
  function Layout(n: Node, at: nat, parent: int): (ts: seq<Token>)
    ensures |ts| == Size(n)
  {
    match n
    case Leaf(kind, start, end) => [Token(kind, start, end, at + 1, parent)]
    case Object(start, end, pairs) =>
      [Token(ObjectToken, start, end, at + 1 + PairsSize(pairs), parent)] + LayoutPairs(pairs, at + 1, at)
  }

  function LayoutPairs(p: Pairs, at: nat, parent: int): (ts: seq<Token>)
    ensures |ts| == PairsSize(p)
  {
    match p
    case EndPairs => []
    case Pair(ks, ke, value, rest) =>
      [Token(StringToken, ks, ke, at + 1, parent)]
      + (Layout(value, at + 1, parent) + LayoutPairs(rest, at + 1 + Size(value), parent))
  }

  // ----- reading

  predicate IsSpace(c: int) { c == 0x20 || c == 0x0A || c == 0x0D || c == 0x09 }

  function SkipWs(text: Text, i: nat): (r: nat)
    requires i <= |text|
    ensures i <= r <= |text|
    decreases |text| - i
  {
    if i < |text| && IsSpace(text[i]) then SkipWs(text, i + 1) else i
  }

  datatype Span = Span(start: nat, end: nat)

  /** The closing quotation mark at or after `i`. */
  function CloseQuote(text: Text, i: nat): (r: Outcome<nat>)
    requires i <= |text|
    ensures r.Ok? ==> i <= r.value < |text|
    decreases |text| - i
  {
    if i == |text| then Fail(StringEnd)
    else if text[i] == 0x22 then Ok(i)
    else if text[i] == 0x5C || text[i] < 0x20 then Fail(StringEscape)
    else CloseQuote(text, i + 1)
  }

  function ReadString(text: Text, i: nat, count: nat): (r: Outcome<Span>)
    requires i <= |text|
    ensures r.Ok? ==> i < r.value.end < |text| && count < MAX_TOKENS
  {
    if i >= |text| || text[i] != 0x22 then Fail(JsonString)
    else if count >= MAX_TOKENS then Fail(TokenLimit)
    else
      var q := CloseQuote(text, i + 1);
      if q.Fail? then Fail(q.stage) else Ok(Span(i + 1, q.value))
  }

  predicate EndsPrimitive(c: int) { c == 0x2C || c == 0x7D || c == 0x5D || IsSpace(c) }

  function PrimitiveEnd(text: Text, i: nat): (r: nat)
    requires i <= |text|
    ensures i <= r <= |text|
    decreases |text| - i
  {
    if i < |text| && !EndsPrimitive(text[i]) then PrimitiveEnd(text, i + 1) else i
  }

  datatype Parsed<+T> = Parsed(tree: T, cursor: nat)

  /** A value at or after `i`, `depth` objects deep, with `count` tokens already used. */
  function ReadNode(text: Text, i: nat, depth: nat, count: nat): (r: Outcome<Parsed<Node>>)
    requires i <= |text|
    ensures r.Ok? ==> i < r.value.cursor <= |text| && count + Size(r.value.tree) <= MAX_TOKENS
    decreases |text| - i, 1
  {
    if depth > MAX_DEPTH then Fail(JsonDepth) else
      var at := SkipWs(text, i);
      if at >= |text| then Fail(JsonValue)
      else if text[at] == 0x22 then
        var s := ReadString(text, at, count);
        if s.Fail? then Fail(s.stage)
        else Ok(Parsed(Leaf(StringToken, s.value.start, s.value.end), s.value.end + 1))
      else if text[at] == 0x7B then ReadObject(text, at, depth, count)
      else if text[at] == 0x5B || text[at] == 0x5D || text[at] == 0x7D then Fail(ArrayUnsupported)
      else
        var e := PrimitiveEnd(text, at);
        if e == at then Fail(JsonPrimitive)
        else if count >= MAX_TOKENS then Fail(TokenLimit)
        else Ok(Parsed(Leaf(Primitive, at, e), e))
  }

  function ReadObject(text: Text, at: nat, depth: nat, count: nat): (r: Outcome<Parsed<Node>>)
    requires at < |text|
    ensures r.Ok? ==> at < r.value.cursor <= |text| && count + Size(r.value.tree) <= MAX_TOKENS
    decreases |text| - at, 0
  {
    if count >= MAX_TOKENS then Fail(TokenLimit) else
      var j := SkipWs(text, at + 1);
      if At(text, j) == 0x7D then Ok(Parsed(Object(at, j + 1, EndPairs), j + 1)) else
        var ps := ReadPairs(text, j, depth, count + 1);
        if ps.Fail? then Fail(ps.stage)
        else Ok(Parsed(Object(at, ps.value.cursor, ps.value.tree), ps.value.cursor))
  }

  datatype MemberTree = MemberTree(key: Span, value: Node)

  /** A name, a colon and a value. */
  function ReadMember(text: Text, i: nat, depth: nat, count: nat): (r: Outcome<Parsed<MemberTree>>)
    requires i <= |text|
    ensures r.Ok? ==> i < r.value.cursor <= |text| && count + 1 + Size(r.value.tree.value) <= MAX_TOKENS
    decreases |text| - i, 2
  {
    var key := ReadString(text, SkipWs(text, i), count);
    if key.Fail? then Fail(key.stage) else
      var c := SkipWs(text, key.value.end + 1);
      if At(text, c) != 0x3A then Fail(JsonColon) else
        var v := ReadNode(text, c + 1, depth + 1, count + 1);
        if v.Fail? then Fail(v.stage) else Ok(Parsed(MemberTree(key.value, v.value.tree), v.value.cursor))
  }

  /** Members up to and including the closing brace. */
  function ReadPairs(text: Text, i: nat, depth: nat, count: nat): (r: Outcome<Parsed<Pairs>>)
    requires i <= |text|
    ensures r.Ok? ==> i < r.value.cursor <= |text| && r.value.tree.Pair?
    ensures r.Ok? ==> count + PairsSize(r.value.tree) <= MAX_TOKENS
    decreases |text| - i, 3
  {
    var m := ReadMember(text, i, depth, count);
    if m.Fail? then Fail(m.stage) else
      var s := SkipWs(text, m.value.cursor);
      var key, value := m.value.tree.key, m.value.tree.value;
      if s >= |text| then Fail(ObjectEnd)
      else if text[s] == 0x7D then Ok(Parsed(Pair(key.start, key.end, value, EndPairs), s + 1))
      else if text[s] != 0x2C then Fail(ObjectSeparator)
      else
        var rest := ReadPairs(text, s + 1, depth, count + 1 + Size(value));
        if rest.Fail? then Fail(rest.stage)
        else Ok(Parsed(Pair(key.start, key.end, value, rest.value.tree), rest.value.cursor))
  }

  function ReadJson(text: Text): Outcome<Node> {
    var n := ReadNode(text, SkipWs(text, 0), 0, 0);
    if n.Fail? then Fail(n.stage)
    else if SkipWs(text, n.value.cursor) != |text| || !n.value.tree.Object? then Fail(TrailingData)
    else Ok(n.value.tree)
  }

  // ----- nesting

  /** Intervals `[i, next)` from index `at` on stay inside `[at, end)`, are not empty, and never cross. */
  ghost predicate Nested(ts: seq<Token>, at: nat) {
    && (forall i | 0 <= i < |ts| :: at + i < ts[i].next <= at + |ts|)
    && (forall i, j | 0 <= i < j < |ts| && at + j < ts[i].next :: ts[j].next <= ts[i].next)
  }

  lemma NestedConcat(a: seq<Token>, b: seq<Token>, at: nat)
    requires Nested(a, at) && Nested(b, at + |a|)
    ensures Nested(a + b, at)
  {
    var c := a + b;
    forall i | 0 <= i < |c| ensures at + i < c[i].next <= at + |c| {
      assert c[i] == if i < |a| then a[i] else b[i - |a|];
    }
    forall i, j | 0 <= i < j < |c| && at + j < c[i].next ensures c[j].next <= c[i].next {
      assert c[i] == if i < |a| then a[i] else b[i - |a|];
      assert c[j] == if j < |a| then a[j] else b[j - |a|];
    }
  }

  lemma {:induction false} LayoutNested(n: Node, at: nat, parent: int)
    ensures Nested(Layout(n, at, parent), at)
    decreases n
  {
    if n.Object? {
      LayoutPairsNested(n.pairs, at + 1, at);
      var inner := LayoutPairs(n.pairs, at + 1, at);
      var ts := Layout(n, at, parent);
      assert ts == [ts[0]] + inner;
      forall i | 0 < i < |ts| ensures ts[i] == inner[i - 1] {}
    }
  }

  lemma {:induction false} LayoutPairsNested(p: Pairs, at: nat, parent: int)
    ensures Nested(LayoutPairs(p, at, parent), at)
    decreases p
  {
    if p.Pair? {
      LayoutNested(p.value, at + 1, parent);
      LayoutPairsNested(p.rest, at + 1 + Size(p.value), parent);
      var k, v := [Token(StringToken, p.keyStart, p.keyEnd, at + 1, parent)], Layout(p.value, at + 1, parent);
      var r := LayoutPairs(p.rest, at + 1 + Size(p.value), parent);
      NestedConcat(v, r, at + 1);
      NestedConcat(k, v + r, at);
    }
  }

  // ----- what the tree says about the text

  /** A string token is what stands between two quotation marks, free of quotes, escapes and controls. */
  predicate QuotedSpan(text: Text, start: nat, end: nat) {
    && 0 < start <= end < |text| && text[start - 1] == 0x22 && text[end] == 0x22
    && forall i | start <= i < end :: text[i] != 0x22 && text[i] != 0x5C && text[i] >= 0x20
  }

  /** A primitive token is a maximal run without separators or white space. */
  predicate PrimitiveSpan(text: Text, start: nat, end: nat) {
    && start < end <= |text| && (end < |text| ==> EndsPrimitive(text[end]))
    && forall i | start <= i < end :: !EndsPrimitive(text[i])
  }

  predicate Spelled(text: Text, n: Node) {
    match n
    case Leaf(kind, start, end) =>
      !kind.ObjectToken? && if kind.StringToken? then QuotedSpan(text, start, end) else PrimitiveSpan(text, start, end)
    case Object(start, end, pairs) =>
      start < end <= |text| && text[start] == 0x7B && text[end - 1] == 0x7D && PairsSpelled(text, pairs)
  }

  predicate PairsSpelled(text: Text, p: Pairs) {
    p.Pair? ==> QuotedSpan(text, p.keyStart, p.keyEnd) && Spelled(text, p.value) && PairsSpelled(text, p.rest)
  }

  lemma {:induction false} CloseQuoteSpan(text: Text, i: nat)
    requires i <= |text| && CloseQuote(text, i).Ok?
    ensures var q := CloseQuote(text, i).value;
            text[q] == 0x22 && forall k | i <= k < q :: text[k] != 0x22 && text[k] != 0x5C && text[k] >= 0x20
    decreases |text| - i
  {
    if text[i] != 0x22 { CloseQuoteSpan(text, i + 1); }
  }

  lemma {:induction false} PrimitiveEndSpan(text: Text, i: nat)
    requires i <= |text|
    ensures var e := PrimitiveEnd(text, i);
            (e < |text| ==> EndsPrimitive(text[e])) && forall k | i <= k < e :: !EndsPrimitive(text[k])
    decreases |text| - i
  {
    if i < |text| && !EndsPrimitive(text[i]) { PrimitiveEndSpan(text, i + 1); }
  }

  lemma {:induction false} NodeSpelled(text: Text, i: nat, depth: nat, count: nat)
    requires i <= |text| && ReadNode(text, i, depth, count).Ok?
    ensures Spelled(text, ReadNode(text, i, depth, count).value.tree)
    decreases |text| - i, 1
  {
    hide ReadPairs, CloseQuote, PrimitiveEnd;
    var at := SkipWs(text, i);
    if text[at] == 0x22 {
      CloseQuoteSpan(text, at + 1);
    } else if text[at] == 0x7B {
      var j := SkipWs(text, at + 1);
      if At(text, j) != 0x7D { PairsAreSpelled(text, j, depth, count + 1); }
    } else {
      PrimitiveEndSpan(text, at);
    }
  }

  lemma {:induction false} PairsAreSpelled(text: Text, i: nat, depth: nat, count: nat)
    requires i <= |text| && ReadPairs(text, i, depth, count).Ok?
    ensures var ps := ReadPairs(text, i, depth, count).value;
            PairsSpelled(text, ps.tree) && text[ps.cursor - 1] == 0x7D
    decreases |text| - i, 3
  {
    hide ReadMember, QuotedSpan, Spelled;
    MemberSpelled(text, i, depth, count);
    var m := ReadMember(text, i, depth, count).value;
    var s := SkipWs(text, m.cursor);
    if text[s] != 0x7D { PairsAreSpelled(text, s + 1, depth, count + 1 + Size(m.tree.value)); }
  }

  lemma {:induction false} MemberSpelled(text: Text, i: nat, depth: nat, count: nat)
    requires i <= |text| && ReadMember(text, i, depth, count).Ok?
    ensures var m := ReadMember(text, i, depth, count).value.tree;
            QuotedSpan(text, m.key.start, m.key.end) && Spelled(text, m.value)
    decreases |text| - i, 2
  {
    hide ReadNode, CloseQuote, Spelled;
    CloseQuoteSpan(text, SkipWs(text, i) + 1);
    var key := ReadString(text, SkipWs(text, i), count).value;
    NodeSpelled(text, SkipWs(text, key.end + 1) + 1, depth + 1, count + 1);
  }

  lemma JsonSpelled(text: Text)
    requires ReadJson(text).Ok?
    ensures Spelled(text, ReadJson(text).value) && ReadJson(text).value.Object?
  {
    hide ReadNode;
    NodeSpelled(text, SkipWs(text, 0), 0, 0);
  }

  // ----- finding nodes by token index

  /** The node whose tokens start at index `i`, inside a node laid out from `at`. */
  function Find(n: Node, at: nat, i: nat): Node
    requires at <= i < at + Size(n)
    decreases n
  {
    if i == at then n else FindInPairs(n.pairs, at + 1, i)
  }

  function FindInPairs(p: Pairs, at: nat, i: nat): Node
    requires at <= i < at + PairsSize(p)
    decreases p
  {
    if i == at then Leaf(StringToken, p.keyStart, p.keyEnd)
    else if i < at + 1 + Size(p.value) then Find(p.value, at + 1, i)
    else FindInPairs(p.rest, at + 1 + Size(p.value), i)
  }

  /** Every token starts the layout of the node found there. */
  lemma {:induction false} FindLaidOut(text: Text, n: Node, at: nat, parent: int, i: nat) returns (p: int)
    requires at <= i < at + Size(n) && Spelled(text, n)
    ensures var m := Find(n, at, i);
            && Spelled(text, m) && i + Size(m) <= at + Size(n)
            && Layout(n, at, parent)[i - at..i - at + Size(m)] == Layout(m, i, p)
    decreases n
  {
    p := parent;
    if i > at {
      p := FindInPairsLaidOut(text, n.pairs, at + 1, at, i);
      var m, inner := Find(n, at, i), LayoutPairs(n.pairs, at + 1, at);
      var all := Layout(n, at, parent);
      assert all[i - at..i - at + Size(m)] == inner[i - at - 1..i - at - 1 + Size(m)] by {
        assert all[1..] == inner;
        Shifted(all, inner, 1, i - at - 1, Size(m));
      }
    }
  }

  lemma Shifted(all: seq<Token>, inner: seq<Token>, k: nat, i: nat, size: nat)
    requires k <= |all| && all[k..] == inner && i + size <= |inner|
    ensures all[k + i..k + i + size] == inner[i..i + size]
  {
    var x, y := all[k + i..k + i + size], inner[i..i + size];
    forall j | 0 <= j < size ensures x[j] == y[j] {
      assert all[k + i + j] == all[k..][i + j];
    }
  }

  lemma Sliced(v: seq<Token>, r: seq<Token>, i: nat, size: nat)
    requires i + size <= |v|
    ensures (v + r)[i..i + size] == v[i..i + size]
  {
  }

  lemma PairLayout(ps: Pairs, at: nat, parent: int)
    requires ps.Pair?
    ensures var all := LayoutPairs(ps, at, parent);
            var v, r := Layout(ps.value, at + 1, parent), LayoutPairs(ps.rest, at + 1 + Size(ps.value), parent);
            && all == [Token(StringToken, ps.keyStart, ps.keyEnd, at + 1, parent)] + (v + r)
            && all[1..] == v + r && all[1 + |v|..] == r
            && all[..1] == Layout(Leaf(StringToken, ps.keyStart, ps.keyEnd), at, parent)
  {
    var v, r := Layout(ps.value, at + 1, parent), LayoutPairs(ps.rest, at + 1 + Size(ps.value), parent);
    assert (v + r)[|v|..] == r;
  }

  lemma {:induction false} FindInPairsLaidOut(text: Text, ps: Pairs, at: nat, parent: int, i: nat) returns (p: int)
    requires at <= i < at + PairsSize(ps) && PairsSpelled(text, ps)
    ensures var m := FindInPairs(ps, at, i);
            && Spelled(text, m) && i + Size(m) <= at + PairsSize(ps)
            && LayoutPairs(ps, at, parent)[i - at..i - at + Size(m)] == Layout(m, i, p)
    decreases ps
  {
    hide Layout, LayoutPairs, Size, PairsSize, Spelled, PairsSpelled, Find;
    PairFacts(text, ps);
    if i == at {
      p := parent;
      PairLayout(ps, at, parent);
    } else if i < at + 1 + Size(ps.value) {
      p := FindLaidOut(text, ps.value, at + 1, parent, i);
      InValue(ps, at, parent, i, Find(ps.value, at + 1, i), p);
    } else {
      p := FindInPairsLaidOut(text, ps.rest, at + 1 + Size(ps.value), parent, i);
      InRest(ps, at, parent, i, FindInPairs(ps.rest, at + 1 + Size(ps.value), i), p);
    }
  }

  lemma PairFacts(text: Text, ps: Pairs)
    requires PairsSize(ps) > 0 && PairsSpelled(text, ps)
    ensures ps.Pair? && PairsSize(ps) == 1 + Size(ps.value) + PairsSize(ps.rest)
    ensures Spelled(text, ps.value) && PairsSpelled(text, ps.rest)
    ensures var key := Leaf(StringToken, ps.keyStart, ps.keyEnd); Spelled(text, key) && Size(key) == 1
  {
  }

  lemma InValue(ps: Pairs, at: nat, parent: int, i: nat, m: Node, p: int)
    requires ps.Pair? && at < i && i + Size(m) <= at + 1 + Size(ps.value)
    requires Layout(ps.value, at + 1, parent)[i - at - 1..i - at - 1 + Size(m)] == Layout(m, i, p)
    ensures LayoutPairs(ps, at, parent)[i - at..i - at + Size(m)] == Layout(m, i, p)
  {
    hide Layout, LayoutPairs;
    var v, r := Layout(ps.value, at + 1, parent), LayoutPairs(ps.rest, at + 1 + Size(ps.value), parent);
    PairLayout(ps, at, parent);
    Shifted(LayoutPairs(ps, at, parent), v + r, 1, i - at - 1, Size(m));
    Sliced(v, r, i - at - 1, Size(m));
  }

  lemma InRest(ps: Pairs, at: nat, parent: int, i: nat, m: Node, p: int)
    requires ps.Pair? && at + 1 + Size(ps.value) <= i && i + Size(m) <= at + PairsSize(ps)
    requires var rest := at + 1 + Size(ps.value);
             LayoutPairs(ps.rest, rest, parent)[i - rest..i - rest + Size(m)] == Layout(m, i, p)
    ensures LayoutPairs(ps, at, parent)[i - at..i - at + Size(m)] == Layout(m, i, p)
  {
    hide Layout, LayoutPairs;
    var v, r := Layout(ps.value, at + 1, parent), LayoutPairs(ps.rest, at + 1 + Size(ps.value), parent);
    PairLayout(ps, at, parent);
    Shifted(LayoutPairs(ps, at, parent), r, 1 + |v|, i - at - 1 - |v|, Size(m));
  }

  // ----- members by name

  /** Token indices of the values of the direct members with the given name. */
  function ValuesNamed(text: Text, p: Pairs, at: nat, name: Text): seq<nat>
    requires PairsSpelled(text, p)
    decreases p
  {
    if p.EndPairs? then []
    else (if text[p.keyStart..p.keyEnd] == name then [at + 1] else [])
         + ValuesNamed(text, p.rest, at + 1 + Size(p.value), name)
  }
}
