/** The tokenizer of scripts/ci/literal-pid-reuse-helper.c, filling its token array in place. Where the
    helper exits through `fail`, a method returns the stage at which it gave up. */
module HelperParser {
  import opened CodeUnits
  import opened Decimal
  import opened HelperTokens
  import opened Options

  /** In the middle of the object laid out at `index`: its members were read from `j`, those from
      `cursor` on are still to be read, and the tokens `laid` are already in place. */
  ghost predicate InObject(text: Text, j: nat, depth: nat, index: nat, cursor: nat, laid: seq<Token>)
    requires j <= |text| && cursor <= |text|
  {
    var count := index + 1 + |laid|;
    var whole, rest := ReadPairs(text, j, depth, index + 1), ReadPairs(text, cursor, depth, count);
    if whole.Fail? then rest == whole
    else rest.Ok? && rest.value.cursor == whole.value.cursor
         && LayoutPairs(whole.value.tree, index + 1, index) == laid + LayoutPairs(rest.value.tree, count, index)
  }

  lemma InObjectStart(text: Text, j: nat, depth: nat, index: nat)
    requires j <= |text|
    ensures InObject(text, j, depth, index, j, [])
  {
    var whole := ReadPairs(text, j, depth, index + 1);
    if whole.Ok? {
      assert [] + LayoutPairs(whole.value.tree, index + 1, index) == LayoutPairs(whole.value.tree, index + 1, index);
    }
  }

  /** What one more member makes of the object. */
  lemma MemberStep(text: Text, j: nat, depth: nat, index: nat, cursor: nat, laid: seq<Token>)
    requires j <= |text| && cursor <= |text| && InObject(text, j, depth, index, cursor, laid)
    ensures var count := index + 1 + |laid|;
            var whole := ReadPairs(text, j, depth, index + 1);
            var m := ReadMember(text, cursor, depth, count);
            if m.Fail? then whole == Fail(m.stage) else
              var s := SkipWs(text, m.value.cursor);
              var laid' := laid + MemberTokens(m.value.tree, count, index);
              if s >= |text| then whole == Fail(ObjectEnd)
              else if text[s] == 0x7D then
                whole.Ok? && whole.value.cursor == s + 1 && LayoutPairs(whole.value.tree, index + 1, index) == laid'
              else if text[s] != 0x2C then whole == Fail(ObjectSeparator)
              else InObject(text, j, depth, index, s + 1, laid')
  {
    hide SkipWs, ReadMember, Layout;
    var count := index + 1 + |laid|;
    var rest := ReadPairs(text, cursor, depth, count);
    if rest.Ok? {
      var p := rest.value.tree;
      var k, v := [Token(StringToken, p.keyStart, p.keyEnd, count + 1, index)], Layout(p.value, count + 1, index);
      var r := LayoutPairs(p.rest, count + 1 + Size(p.value), index);
      assert laid + (k + (v + r)) == (laid + (k + v)) + r;
      assert p.rest.EndPairs? ==> (laid + (k + v)) + r == laid + (k + v);
    }
  }

  function KeyToken(s: Span, at: nat, parent: int): Token {
    Token(StringToken, s.start, s.end, at + 1, parent)
  }

  function MemberTokens(m: MemberTree, at: nat, parent: int): (ts: seq<Token>)
    ensures |ts| == 1 + Size(m.value)
  {
    [KeyToken(m.key, at, parent)] + Layout(m.value, at + 1, parent)
  }

  lemma EmptyLayout(index: nat)
    ensures LayoutPairs(EndPairs, index + 1, index) == []
  {
  }

  lemma CloseFirst(before: seq<Token>, open: Token, laid: seq<Token>, closed: Token)
    ensures (before + [open] + laid)[|before| := closed] == before + ([closed] + laid)
    ensures (before + [open] + laid)[|before|] == open
  {
  }

  /** Members still to be looked at: laid out in `ts` from `i` up to `next`. */
  ghost predicate Ahead(text: Text, ts: seq<Token>, p: Pairs, i: nat, next: nat, object_: nat) {
    && PairsSpelled(text, p) && i + PairsSize(p) == next <= |ts|
    && ts[i..next] == LayoutPairs(p, i, object_)
  }

  lemma ObjectAhead(text: Text, root: Node, at: nat)
    requires Spelled(text, root) && at < Size(root)
    ensures var ts, n := Layout(root, 0, -1), Find(root, 0, at);
            && (ts[at].kind.ObjectToken? <==> n.Object?)
            && (n.Object? ==> at < ts[at].next && Ahead(text, ts, n.pairs, at + 1, ts[at].next, at))
  {
    var ts, n := Layout(root, 0, -1), Find(root, 0, at);
    var parent := FindLaidOut(text, root, 0, -1, at);
    hide Layout, LayoutPairs, Find;
    var mine := ts[at..at + Size(n)];
    HeadToken(n, at, parent);
    assert ts[at] == mine[0];
    if n.Object? {
      assert ts[at + 1..at + Size(n)] == mine[1..];
    }
  }

  lemma HeadToken(n: Node, at: nat, parent: int)
    ensures var ts := Layout(n, at, parent);
            && ts[0].next == at + Size(n)
            && ts[0].kind == (if n.Object? then ObjectToken else n.kind)
            && (n.Object? ==> ts[1..] == LayoutPairs(n.pairs, at + 1, at))
  {
  }

  /** The next member: its name token, its value token, and what lies ahead after it. */
  lemma NextMember(text: Text, ts: seq<Token>, p: Pairs, i: nat, next: nat, object_: nat)
    requires p.Pair? && Ahead(text, ts, p, i, next, object_)
    ensures i + 1 < next <= |ts|
    ensures ts[i] == Token(StringToken, p.keyStart, p.keyEnd, i + 1, object_)
    ensures ts[i + 1].next == i + 1 + Size(p.value)
    ensures Ahead(text, ts, p.rest, i + 1 + Size(p.value), next, object_)
  {
    hide Layout, LayoutPairs;
    PairLayout(p, i, object_);
    HeadToken(p.value, i + 1, object_);
    var all := LayoutPairs(p, i, object_);
    var v, r := Layout(p.value, i + 1, object_), LayoutPairs(p.rest, i + 1 + Size(p.value), object_);
    assert ts[i] == ts[i..next][0] == all[0];
    assert ts[i + 1] == ts[i..next][1] == all[1] == all[1..][0] == v[0];
    assert ts[i + 1 + Size(p.value)..next] == all[1 + |v|..];
  }

  /** At most one, as the scan keeps it. */
  function AsSeq(found: Option<nat>): seq<nat> { if found.Some? then [found.value] else [] }

  class Parser {
    const text: Text
    var cursor: nat
    var tokens: array<Token>
    var count: nat

    ghost predicate Valid()
      reads this
    {
      tokens.Length == MAX_TOKENS && count <= MAX_TOKENS && cursor <= |text|
    }

    constructor (text: Text)
      ensures Valid() && fresh(tokens) && this.text == text && cursor == 0 && count == 0
    {
      this.text := text;
      cursor, count := 0, 0;
      tokens := new Token[MAX_TOKENS](_ => Token(Primitive, 0, 0, 0, 0));
    }

    method SkipSpace()
      requires Valid()
      modifies this`cursor
      ensures Valid() && cursor == SkipWs(text, old(cursor))
    {
      while cursor < |text| && IsSpace(text[cursor])
        invariant Valid() && SkipWs(text, cursor) == SkipWs(text, old(cursor))
        decreases |text| - cursor
      {
        cursor := cursor + 1;
      }
    }

    method AddToken(kind: Kind, start: nat, parent: int) returns (r: Outcome<nat>)
      requires Valid()
      modifies this`count, tokens
      ensures Valid()
      ensures old(count) >= MAX_TOKENS ==> r == Fail(TokenLimit)
      ensures old(count) < MAX_TOKENS ==>
                && r == Ok(old(count)) && count == old(count) + 1
                && tokens[..count] == old(tokens[..count]) + [Token(kind, start, start, old(count) + 1, parent)]
    {
      if count >= MAX_TOKENS { return Fail(TokenLimit); }
      var index := count;
      count := count + 1;
      tokens[index] := Token(kind, start, start, index + 1, parent);
      return Ok(index);
    }

    /** Sets the end of a token and where the next sibling stands. */
    method CloseToken(index: nat)
      requires Valid() && index < count
      modifies tokens
      ensures var t := old(tokens[index]);
              tokens[..count] == old(tokens[..count])[index := Token(t.kind, t.start, cursor, count, t.parent)]
    {
      tokens[index] := tokens[index].(end := cursor, next := count);
    }

    method ParseString(parent: int) returns (r: Outcome<nat>)
      requires Valid()
      modifies this`cursor, this`count, tokens
      ensures Valid()
      ensures var s := ReadString(text, old(cursor), old(count));
              if s.Fail? then r == Fail(s.stage)
              else && r == Ok(old(count)) && count == old(count) + 1 && cursor == s.value.end + 1
                   && tokens[..count] == old(tokens[..count]) + [KeyToken(s.value, old(count), parent)]
    {
      if cursor >= |text| || text[cursor] != 0x22 { return Fail(JsonString); }
      cursor := cursor + 1;
      var start := cursor;
      var index := AddToken(StringToken, start, parent);
      if index.Fail? { return index; }
      while cursor < |text| && text[cursor] != 0x22
        invariant start <= cursor && Valid() && count == old(count) + 1
        invariant CloseQuote(text, start) == CloseQuote(text, cursor)
        invariant tokens[..count] == old(tokens[..count]) + [Token(StringToken, start, start, old(count) + 1, parent)]
        decreases |text| - cursor
      {
        var c := text[cursor];
        if c == 0x5C || c < 0x20 { return Fail(StringEscape); }
        cursor := cursor + 1;
      }
      if cursor >= |text| { return Fail(StringEnd); }
      CloseToken(index.value);
      cursor := cursor + 1;
      return index;
    }

    method SkipPrimitive()
      requires Valid()
      modifies this`cursor
      ensures Valid() && cursor == PrimitiveEnd(text, old(cursor))
    {
      while cursor < |text| && !EndsPrimitive(text[cursor])
        invariant Valid() && PrimitiveEnd(text, cursor) == PrimitiveEnd(text, old(cursor))
        decreases |text| - cursor
      {
        cursor := cursor + 1;
      }
    }

    /** The value at the cursor: its tokens are appended, laid out as its tree. */
    method ParseValue(parent: int, depth: nat) returns (r: Outcome<nat>)
      requires Valid()
      modifies this`cursor, this`count, tokens
      ensures Valid()
      ensures var n := ReadNode(text, old(cursor), depth, old(count));
              if n.Fail? then r == Fail(n.stage)
              else && r == Ok(old(count)) && cursor == n.value.cursor && count == old(count) + Size(n.value.tree)
                   && tokens[..count] == old(tokens[..count]) + Layout(n.value.tree, old(count), parent)
      decreases |text| - cursor, 1
    {
      hide SkipWs, PrimitiveEnd, ReadString, ReadPairs;
      if depth > MAX_DEPTH { return Fail(JsonDepth); }
      SkipSpace();
      if cursor >= |text| { return Fail(JsonValue); }
      var c := text[cursor];
      if c == 0x22 { r := ParseString(parent); return; }
      if c == 0x7B { r := ParseObject(parent, depth); return; }
      if c == 0x5B || c == 0x5D || c == 0x7D { return Fail(ArrayUnsupported); }
      var start := cursor;
      SkipPrimitive();
      if cursor == start { return Fail(JsonPrimitive); }
      var index := AddToken(Primitive, start, parent);
      if index.Fail? { return index; }
      CloseToken(index.value);
      return index;
    }

    /** One turn of the member loop of `parse_value`, up to the separator. */
    method ParseMember(index: nat, depth: nat) returns (r: Outcome<nat>)
      requires Valid()
      modifies this`cursor, this`count, tokens
      ensures Valid()
      ensures var m := ReadMember(text, old(cursor), depth, old(count));
              if m.Fail? then r == Fail(m.stage)
              else && r.Ok? && cursor == m.value.cursor && count == old(count) + 1 + Size(m.value.tree.value)
                   && tokens[..count] == old(tokens[..count]) + MemberTokens(m.value.tree, old(count), index)
      decreases |text| - cursor, 2
    {
      hide SkipWs, ReadString, ReadNode, Layout;
      SkipSpace();
      var key := ParseString(index);
      if key.Fail? { return key; }
      SkipSpace();
      if cursor >= |text| || text[cursor] != 0x3A { return Fail(JsonColon); }
      cursor := cursor + 1;
      r := ParseValue(index, depth + 1);
    }

    /** The member loop of `parse_value`, up to and including the closing brace. */
    method ParseMembers(index: nat, depth: nat) returns (r: Outcome<nat>)
      requires Valid() && count == index + 1
      modifies this`cursor, this`count, tokens
      ensures Valid()
      ensures var ps := ReadPairs(text, old(cursor), depth, index + 1);
              if ps.Fail? then r == Fail(ps.stage)
              else && r.Ok? && cursor == ps.value.cursor && count == index + 1 + PairsSize(ps.value.tree)
                   && tokens[..count] == old(tokens[..count]) + LayoutPairs(ps.value.tree, index + 1, index)
      decreases |text| - cursor, 3
    {
      hide SkipWs, ReadMember, ReadPairs, InObject, MemberTokens, LayoutPairs;
      ghost var before := tokens[..count];
      ghost var j := cursor;
      ghost var laid: seq<Token> := [];
      InObjectStart(text, j, depth, index);
      while true
        invariant Valid() && j <= cursor && count == index + 1 + |laid| && tokens == old(tokens)
        invariant j <= |text| && InObject(text, j, depth, index, cursor, laid)
        invariant tokens[..count] == before + laid
        decreases |text| - cursor
      {
        MemberStep(text, j, depth, index, cursor, laid);
        ghost var m := ReadMember(text, cursor, depth, count);
        ghost var at := count;
        r := ParseMember(index, depth);
        if r.Fail? { return; }
        laid := laid + MemberTokens(m.value.tree, at, index);
        SkipSpace();
        if cursor >= |text| { return Fail(ObjectEnd); }
        var separator := text[cursor];
        cursor := cursor + 1;
        if separator == 0x7D { return; }
        if separator != 0x2C { return Fail(ObjectSeparator); }
      }
    }

    /** The object branch of `parse_value`, from its opening brace. */
    method ParseObject(parent: int, depth: nat) returns (r: Outcome<nat>)
      requires Valid() && cursor < |text|
      modifies this`cursor, this`count, tokens
      ensures Valid()
      ensures var n := ReadObject(text, old(cursor), depth, old(count));
              if n.Fail? then r == Fail(n.stage)
              else && r == Ok(old(count)) && cursor == n.value.cursor && count == old(count) + Size(n.value.tree)
                   && tokens[..count] == old(tokens[..count]) + Layout(n.value.tree, old(count), parent)
      decreases |text| - cursor, 0
    {
      hide SkipWs, ReadPairs, LayoutPairs;
      ghost var before := tokens[..count];
      var start := cursor;
      var added := AddToken(ObjectToken, start, parent);
      if added.Fail? { return added; }
      var index := added.value;
      ghost var n := ReadObject(text, start, depth, index);
      ghost var open := Token(ObjectToken, start, start, index + 1, parent);
      cursor := cursor + 1;
      SkipSpace();
      if cursor < |text| && text[cursor] == 0x7D {
        cursor := cursor + 1;
        EmptyLayout(index);
      } else {
        var members := ParseMembers(index, depth);
        if members.Fail? { return members; }
      }
      ghost var laid := LayoutPairs(n.value.tree.pairs, index + 1, index);
      assert tokens[..count] == before + [open] + laid;
      CloseFirst(before, open, laid, Token(ObjectToken, start, cursor, count, parent));
      CloseToken(index);
      return added;
    }

    method ParseJson() returns (r: Outcome<nat>)
      requires Valid() && cursor == 0 && count == 0
      modifies this`cursor, this`count, tokens
      ensures Valid()
      ensures var n := ReadJson(text);
              if n.Fail? then r == Fail(n.stage) else r == Ok(0) && Holds(n.value)
    {
      hide SkipWs, ReadNode;
      SkipSpace();
      r := ParseValue(-1, 0);
      if r.Fail? { return; }
      SkipSpace();
      ghost var n := ReadNode(text, SkipWs(text, 0), 0, 0).value.tree;
      assert tokens[r.value] == tokens[..count][0] == Layout(n, 0, -1)[0];
      if cursor != |text| || !tokens[r.value].kind.ObjectToken? {
        if n.Leaf? { NodeSpelled(text, SkipWs(text, 0), 0, 0); }
        return Fail(TrailingData);
      }
      NodeSpelled(text, SkipWs(text, 0), 0, 0);
    }

    /** The token array holds exactly the layout of the document's tree. */
    ghost predicate Holds(root: Node)
      reads this, tokens
    {
      Valid() && count == Size(root) && Spelled(text, root) && tokens[..count] == Layout(root, 0, -1)
    }

    predicate TokenEquals(index: nat, value: Text)
      requires index < tokens.Length
      reads this, tokens
    {
      var t := tokens[index];
      && t.kind.StringToken? && t.start <= t.end <= |text|
      && t.end - t.start == |value| && text[t.start..t.end] == value
    }

    /** The scan shared by `object_field` and `optional_object_field`. */
    method FindField(ghost root: Node, at: nat, field: Text) returns (r: Outcome<Option<nat>>)
      requires Holds(root)
      ensures if at >= count || !Find(root, 0, at).Object? then r == Fail(ObjectRequired) else
                var vs := NamedIn(root, at, field);
                r == if vs == [] then Ok(None) else if |vs| == 1 then Ok(Some(vs[0])) else Fail(DuplicateKey)
    {
      hide Layout, LayoutPairs, Find, Ahead, ValuesNamed, QuotedSpan, Spelled;
      ghost var ts := tokens[..count];
      if at >= count { return Fail(ObjectRequired); }
      ObjectAhead(text, root, at);
      assert tokens[at] == ts[at];
      if !tokens[at].kind.ObjectToken? { return Fail(ObjectRequired); }
      var next := tokens[at].next;
      var found: Option<nat> := None;
      var i := at + 1;
      ghost var p := Find(root, 0, at).pairs;
      AheadEnds(text, ts, p, i, next, at);
      while i < next
        invariant Ahead(text, ts, p, i, next, at) && PairsSpelled(text, p) &&
            (i < next <==> p.Pair?) && i <= next <= count
        invariant NamedIn(root, at, field) == AsSeq(found) + ValuesNamed(text, p, i, field)
        decreases next - i
      {
        NextMember(text, ts, p, i, next, at);
        NameStep(text, p, i, field);
        var key := i;
        assert tokens[key] == ts[key] && tokens[key + 1] == ts[key + 1];
        if key + 1 >= next || tokens[key].parent != at { return Fail(ObjectPair); }
        var value := key + 1;
        if TokenEquals(key, field) {
          if found.Some? { return Fail(DuplicateKey); }
          found := Some(value);
        }
        i := tokens[value].next;
        p := p.rest;
        AheadEnds(text, ts, p, i, next, at);
      }
      NameStep(text, p, i, field);
      return Ok(found);
    }

    method OptionalObjectField(ghost root: Node, at: nat, field: Text) returns (r: Outcome<Option<nat>>)
      requires Holds(root)
      ensures r == Fail(ObjectRequired) <==> at >= count || !Find(root, 0, at).Object?
      ensures r != Fail(ObjectRequired) ==>
                var vs := NamedIn(root, at, field);
                r == if vs == [] then Ok(None) else if |vs| == 1 then Ok(Some(vs[0])) else Fail(DuplicateKey)
    {
      hide Find, ValuesNamed, Spelled;
      r := FindField(root, at, field);
    }

    /** Succeeds exactly when the token is an object with exactly one direct member of that name, and
        then yields that member's value. */
    method ObjectField(ghost root: Node, at: nat, field: Text) returns (r: Outcome<nat>)
      requires Holds(root)
      ensures r == Fail(ObjectRequired) <==> at >= count || !Find(root, 0, at).Object?
      ensures r != Fail(ObjectRequired) ==>
                var vs := NamedIn(root, at, field);
                r == if vs == [] then Fail(RequiredField) else if |vs| == 1 then Ok(vs[0]) else Fail(DuplicateKey)
    {
      hide Find, ValuesNamed, Spelled;
      var found := FindField(root, at, field);
      if found.Fail? { return Fail(found.stage); }
      if found.value.None? { return Fail(RequiredField); }
      return Ok(found.value.value);
    }

    ghost function NamedIn(root: Node, at: nat, field: Text): seq<nat>
      requires Spelled(text, root) && at < Size(root) && Find(root, 0, at).Object?
    {
      FindSpelled(text, root, at);
      ValuesNamed(text, Find(root, 0, at).pairs, at + 1, field)
    }

    /** The decimal value of a primitive token, guarding every step against overflow. */
    method TokenUint(token: nat) returns (r: Outcome<nat>)
      requires Valid() && token < count && tokens[token].start <= tokens[token].end <= |text|
      ensures var t := tokens[token];
              var digits := text[t.start..t.end];
              if t.kind.Primitive? && Canonical(digits) && Magnitude(digits) <= 0xFFFF_FFFF_FFFF_FFFF
              then r == Ok(Magnitude(digits)) else r == Fail(NotUint)
    {
      hide Magnitude;
      var t := tokens[token];
      ghost var digits := text[t.start..t.end];
      if !t.kind.Primitive? || t.end == t.start || (t.end - t.start > 1 && text[t.start] == 0x30) {
        return Fail(NotUint);
      }
      var value := 0;
      var i := t.start;
      MagnitudeEmpty();
      assert digits[..0] == [];
      while i < t.end
        invariant t.start <= i <= t.end
        invariant Digits(digits[..i - t.start]) && value == Magnitude(digits[..i - t.start]) <= UINT64_MAX
      {
        var c := text[i];
        ghost var k := i - t.start;
        assert c == digits[k];
        if c < 0x30 || c > 0x39 {
          return Fail(NotUint);
        }
        DigitNext(digits, k);
        if value > (UINT64_MAX - (c - 0x30)) / 10 {
          PrefixLarge(digits, k + 1);
          return Fail(NotUint);
        }
        value := value * 10 + (c - 0x30);
        i := i + 1;
      }
      assert digits[..i - t.start] == digits;
      return Ok(value);
    }
  }

  const UINT64_MAX := 0xFFFF_FFFF_FFFF_FFFF

  lemma MagnitudeEmpty()
    ensures Magnitude([]) == 0
  {
  }

  lemma DigitNext(s: Text, k: nat)
    requires k < |s| && Digits(s[..k]) && IsDigit(s[k])
    ensures Digits(s[..k + 1]) && Magnitude(s[..k + 1]) == Magnitude(s[..k]) * 10 + (s[k] - 0x30)
  {
    assert s[..k + 1][..k] == s[..k];
  }

  /** A numeral is worth at least as much as its first digits. */
  lemma {:induction false} PrefixLarge(s: Text, k: nat)
    requires k <= |s| && Digits(s[..k])
    ensures Digits(s) ==> Magnitude(s[..k]) <= Magnitude(s)
    decreases |s| - k
  {
    if k == |s| {
      assert s[..k] == s;
    } else if Digits(s) {
      DigitNext(s, k);
      PrefixLarge(s, k + 1);
    }
  }

  lemma FindSpelled(text: Text, root: Node, at: nat)
    requires Spelled(text, root) && at < Size(root)
    ensures Spelled(text, Find(root, 0, at))
  {
    var p := FindLaidOut(text, root, 0, -1, at);
  }

  lemma AheadEnds(text: Text, ts: seq<Token>, p: Pairs, i: nat, next: nat, object_: nat)
    requires Ahead(text, ts, p, i, next, object_)
    ensures PairsSpelled(text, p) && i <= next <= |ts| && (i < next <==> p.Pair?)
  {
  }

  lemma NameStep(text: Text, p: Pairs, i: nat, field: Text)
    requires PairsSpelled(text, p)
    ensures p.EndPairs? ==> ValuesNamed(text, p, i, field) == []
    ensures p.Pair? ==> p.keyStart <= p.keyEnd <= |text| && PairsSpelled(text, p.rest)
    ensures p.Pair? ==>
              var named := if text[p.keyStart..p.keyEnd] == field then Some(i + 1) else None;
              ValuesNamed(text, p, i, field) == AsSeq(named) + ValuesNamed(text, p.rest, i + 1 + Size(p.value), field)
  {
  }
}
