/** Texts as JavaScript sees them: sequences of 16-bit code units. */
module CodeUnits {

  type Unit = n: int | 0 <= n < 0x1_0000

  type Text = seq<Unit>

  /** The code unit at `i`, or -1 where JavaScript's indexing yields `undefined`. */
  function At(s: Text, i: nat): int {
    if i < |s| then s[i] else -1
  }

  /** `x` occurs in `s` at position `i`. */
  predicate Has(s: Text, i: nat, x: Text)
    ensures Has(s, i, x) ==> i + |x| <= |s|
  {
    i + |x| <= |s| && s[i..i + |x|] == x
  }

  /** An occurrence of a concatenation is two adjacent occurrences. */
  lemma HasConcat(s: Text, i: nat, x: Text, y: Text)
    ensures Has(s, i, x + y) <==> Has(s, i, x) && Has(s, i + |x|, y)
  {
    if Has(s, i, x + y) {
      assert s[i..i + |x|] == s[i..i + |x + y|][..|x|];
      assert s[i + |x|..i + |x| + |y|] == s[i..i + |x + y|][|x|..];
    }
    if Has(s, i, x) && Has(s, i + |x|, y) {
      assert s[i..i + |x + y|] == s[i..i + |x|] + s[i + |x|..i + |x| + |y|];
    }
  }

  lemma HasUnit(s: Text, i: nat, c: Unit)
    requires At(s, i) == c
    ensures Has(s, i, [c])
  {
    assert s[i..i + 1] == [c];
  }

  lemma HasSlice(s: Text, i: nat, j: nat)
    requires i <= j <= |s|
    ensures Has(s, i, s[i..j])
  {
  }

  lemma HasIs(s: Text, i: nat, x: Text)
    requires Has(s, i, x)
    ensures s[i..i + |x|] == x
  {
  }

  /** JavaScript's `<` on strings: lexicographic by code unit. */
  predicate LexLess(a: Text, b: Text) {
    b != [] && (a == [] || a[0] < b[0] || (a[0] == b[0] && LexLess(a[1..], b[1..])))
  }

  lemma {:induction false} LexTotal(a: Text, b: Text)
    ensures LexLess(a, b) || LexLess(b, a) || a == b
    ensures !(LexLess(a, b) && LexLess(b, a))
    ensures a == b ==> !LexLess(a, b)
  {
    if a != [] && b != [] {
      LexTotal(a[1..], b[1..]);
      assert a == [a[0]] + a[1..] && b == [b[0]] + b[1..];
    }
  }

  lemma {:induction false} LexTransitive(a: Text, b: Text, c: Text)
    requires LexLess(a, b) && LexLess(b, c)
    ensures LexLess(a, c)
  {
    if a != [] && a[0] == b[0] == c[0] {
      LexTransitive(a[1..], b[1..], c[1..]);
    }
  }
}
