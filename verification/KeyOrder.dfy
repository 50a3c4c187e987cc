/** The order in which JavaScript lists the own properties of an object built by `Object.fromEntries`
    from sorted keys: array indices by number first, then the other keys by code unit. */
module KeyOrder {
  import opened CodeUnits
  import opened Decimal
  import opened JsonValues

  /** An array index: the canonical numeral of an integer below 2^32 - 1. */
  predicate IsIndex(key: Text) { Canonical(key) && Magnitude(key) < 4294967295 }

  datatype Order = ByText | ByIndex | ByKey

  /** `ByText` is `Array.prototype.sort`'s default comparison, `ByIndex` orders array indices by number,
      and `ByKey` is the resulting enumeration order. */
  predicate Less(o: Order, a: Text, b: Text) {
    match o
    case ByText => LexLess(a, b)
    case ByIndex => IsIndex(a) && IsIndex(b) && Magnitude(a) < Magnitude(b)
    case ByKey =>
      if IsIndex(a) then IsIndex(b) ==> Magnitude(a) < Magnitude(b)
      else !IsIndex(b) && LexLess(a, b)
  }

  /** The keys an order is total on. */
  predicate Ordered(o: Order, a: Text) { o.ByIndex? ==> IsIndex(a) }

  lemma LessTotal(o: Order, a: Text, b: Text)
    requires Ordered(o, a) && Ordered(o, b)
    ensures Less(o, a, b) || Less(o, b, a) || a == b
    ensures !(Less(o, a, b) && Less(o, b, a))
    ensures !Less(o, a, a)
  {
    LexTotal(a, b);
    LexTotal(a, a);
    if IsIndex(a) && IsIndex(b) && Magnitude(a) == Magnitude(b) { CanonicalInjective(a, b); }
  }

  lemma LessTransitive(o: Order, a: Text, b: Text, c: Text)
    requires Less(o, a, b) && Less(o, b, c)
    ensures Less(o, a, c)
  {
    hide Magnitude, Canonical;
    if LexLess(a, b) && LexLess(b, c) { LexTransitive(a, b, c); }
  }

  ghost predicate Sorted(o: Order, fields: seq<Field>) {
    forall i, j | 0 <= i < j < |fields| :: Less(o, fields[i].key, fields[j].key)
  }

  ghost predicate SameElements(a: seq<Field>, b: seq<Field>) {
    forall f :: f in a <==> f in b
  }

  // ----- sorting

  function Insert(o: Order, f: Field, fields: seq<Field>): seq<Field> {
    if fields == [] || Less(o, f.key, fields[0].key) then [f] + fields
    else [fields[0]] + Insert(o, f, fields[1..])
  }

  function Sort(o: Order, fields: seq<Field>): seq<Field> {
    if fields == [] then [] else Insert(o, fields[0], Sort(o, fields[1..]))
  }

  lemma ConsSorted(o: Order, f: Field, r: seq<Field>)
    requires Sorted(o, r) && forall g | g in r :: Less(o, f.key, g.key)
    ensures Sorted(o, [f] + r)
    ensures forall g :: g in [f] + r <==> g == f || g in r
  {
    hide Less;
    var c := [f] + r;
    forall i, j | 0 <= i < j < |c| ensures Less(o, c[i].key, c[j].key) {
      assert c[j] == r[j - 1] && (i > 0 ==> c[i] == r[i - 1]);
    }
  }

  lemma SortedEmpty(o: Order)
    ensures Sorted(o, [])
  {
  }

  lemma HeadIn(fields: seq<Field>)
    ensures fields != [] ==> fields[0] in fields
  {
  }

  lemma ConcatSorted(o: Order, a: seq<Field>, b: seq<Field>)
    requires Sorted(o, a) && Sorted(o, b) && forall f, g | f in a && g in b :: Less(o, f.key, g.key)
    ensures Sorted(o, a + b)
  {
    hide Less;
    var c := a + b;
    forall i, j | 0 <= i < j < |c| ensures Less(o, c[i].key, c[j].key) {
      if i < |a| <= j {
        assert a[i] in a && b[j - |a|] in b;
      }
    }
  }

  lemma HeadLess(o: Order, fields: seq<Field>)
    requires fields != [] && Sorted(o, fields)
    ensures Sorted(o, fields[1..]) && forall g | g in fields[1..] :: Less(o, fields[0].key, g.key)
    ensures forall g :: g in fields <==> g == fields[0] || g in fields[1..]
  {
    hide Less;
    var rest := fields[1..];
    assert fields == [fields[0]] + rest;
    assert forall i | 0 <= i < |rest| :: rest[i] == fields[i + 1];
  }

  lemma {:induction false} InsertSorts(o: Order, f: Field, fields: seq<Field>)
    requires Sorted(o, fields) && Ordered(o, f.key) && forall g | g in fields :: Ordered(o, g.key) && g.key != f.key
    ensures Sorted(o, Insert(o, f, fields))
    ensures forall g :: g in Insert(o, f, fields) <==> g == f || g in fields
  {
    hide Less, Sorted;
    SortedEmpty(o);
    if fields != [] {
      HeadLess(o, fields);
      LessTotal(o, f.key, fields[0].key);
      if Less(o, f.key, fields[0].key) {
        forall g | g in fields ensures Less(o, f.key, g.key) {
          if g != fields[0] { LessTransitive(o, f.key, fields[0].key, g.key); }
        }
        ConsSorted(o, f, fields);
      } else {
        InsertSorts(o, f, fields[1..]);
        ConsSorted(o, fields[0], Insert(o, f, fields[1..]));
      }
    } else {
      ConsSorted(o, f, fields);
    }
  }

  lemma {:induction false} SortSorts(o: Order, fields: seq<Field>)
    requires DistinctKeys(fields) && forall f | f in fields :: Ordered(o, f.key)
    ensures Sorted(o, Sort(o, fields)) && SameElements(Sort(o, fields), fields)
  {
    hide Less;
    if fields != [] {
      var rest := fields[1..];
      assert fields == [fields[0]] + rest;
      assert forall i | 0 <= i < |rest| :: rest[i] == fields[i + 1];
      SortSorts(o, rest);
      assert forall g | g in rest :: g.key != fields[0].key;
      InsertSorts(o, fields[0], Sort(o, rest));
    }
  }

  /** A strictly sorted listing is determined by its elements. */
  lemma {:induction false} SortedUnique(o: Order, a: seq<Field>, b: seq<Field>)
    requires Sorted(o, a) && Sorted(o, b) && SameElements(a, b) && forall f | f in a :: Ordered(o, f.key)
    ensures a == b
  {
    hide Less;
    if a == [] {
      HeadIn(b);
    } else {
      assert a[0] in a && a[0] in b;
      var j :| 0 <= j < |b| && b[j] == a[0];
      assert b[0] in b && b[0] in a;
      var i :| 0 <= i < |a| && a[i] == b[0];
      LessTotal(o, a[0].key, b[0].key);
      LessTotal(o, a[0].key, a[0].key);
      assert a[0] == b[0];
      TailElements(o, a);
      TailElements(o, b);
      SortedUnique(o, a[1..], b[1..]);
      assert a == [a[0]] + a[1..] && b == [b[0]] + b[1..];
    }
  }

  lemma TailElements(o: Order, a: seq<Field>)
    requires a != [] && Sorted(o, a) && forall f | f in a :: Ordered(o, f.key)
    ensures forall f :: f in a[1..] <==> f in a && f != a[0]
    ensures Sorted(o, a[1..])
  {
    hide Less;
    LessTotal(o, a[0].key, a[0].key);
    assert a == [a[0]] + a[1..];
    assert forall i | 0 <= i < |a[1..]| :: a[1..][i] == a[i + 1];
  }

  // ----- enumeration

  function Select(fields: seq<Field>, indices: bool): seq<Field> {
    if fields == [] then []
    else if IsIndex(fields[0].key) == indices then [fields[0]] + Select(fields[1..], indices)
    else Select(fields[1..], indices)
  }

  /** Own properties in the order they are listed, given the order in which they were created. */
  function Enumerate(created: seq<Field>): seq<Field> {
    Sort(ByIndex, Select(created, true)) + Select(created, false)
  }

  lemma {:induction false} SelectSorted(o: Order, fields: seq<Field>, indices: bool)
    requires Sorted(o, fields)
    ensures Sorted(o, Select(fields, indices))
    ensures forall f :: f in Select(fields, indices) <==> f in fields && IsIndex(f.key) == indices
  {
    hide Less, IsIndex, Sorted;
    if fields != [] {
      HeadLess(o, fields);
      SelectSorted(o, fields[1..], indices);
      if IsIndex(fields[0].key) == indices { ConsSorted(o, fields[0], Select(fields[1..], indices)); }
    } else {
      SortedEmpty(o);
    }
  }

  lemma SortedDistinct(o: Order, fields: seq<Field>)
    requires Sorted(o, fields) && forall f | f in fields :: Ordered(o, f.key)
    ensures DistinctKeys(fields)
  {
    hide Less;
    forall i, j | 0 <= i < j < |fields| ensures fields[i].key != fields[j].key {
      LessTotal(o, fields[i].key, fields[i].key);
    }
  }

  /** Properties created in text order are listed in key order. */
  lemma EnumerateSorts(created: seq<Field>)
    requires Sorted(ByText, created)
    ensures Sorted(ByKey, Enumerate(created)) && SameElements(Enumerate(created), created)
  {
    hide Sorted;
    var xs, ys := Select(created, true), Select(created, false);
    SelectSorted(ByText, created, true);
    SelectSorted(ByText, created, false);
    SortedDistinct(ByText, xs);
    SortSorts(ByIndex, xs);
    var zs := Sort(ByIndex, xs);
    SortedByKey(ByIndex, zs);
    SortedByKey(ByText, ys);
    ConcatSorted(ByKey, zs, ys);
  }

  lemma SortedByKey(o: Order, fields: seq<Field>)
    requires Sorted(o, fields) && !o.ByKey? && forall f | f in fields :: IsIndex(f.key) == o.ByIndex?
    ensures Sorted(ByKey, fields)
  {
    hide IsIndex, LexLess;
    forall i, j | 0 <= i < j < |fields| ensures Less(ByKey, fields[i].key, fields[j].key) {
      assert fields[i] in fields && fields[j] in fields;
    }
  }

  lemma {:induction false} SelectElements(fields: seq<Field>, indices: bool)
    requires DistinctKeys(fields)
    ensures DistinctKeys(Select(fields, indices))
    ensures forall f :: f in Select(fields, indices) <==> f in fields && IsIndex(f.key) == indices
  {
    hide IsIndex;
    if fields != [] {
      var rest := fields[1..];
      assert fields == [fields[0]] + rest;
      assert forall i | 0 <= i < |rest| :: rest[i] == fields[i + 1];
      SelectElements(rest, indices);
      assert forall g | g in rest :: g.key != fields[0].key;
    }
  }

  /** Enumeration only rearranges. */
  lemma EnumerateKeeps(created: seq<Field>)
    requires DistinctKeys(created)
    ensures SameElements(Enumerate(created), created) && DistinctKeys(Enumerate(created))
  {
    hide IsIndex, Sorted, Sort, Select;
    var xs, ys := Select(created, true), Select(created, false);
    SelectElements(created, true);
    SelectElements(created, false);
    assert forall f | f in xs :: Ordered(ByIndex, f.key);
    SortSorts(ByIndex, xs);
    var zs := Sort(ByIndex, xs);
    SortedDistinct(ByIndex, zs);
    var r := zs + ys;
    forall i, j | 0 <= i < j < |r| ensures r[i].key != r[j].key {
      if i < |zs| <= j {
        assert r[i] in xs && r[j] in ys;
      } else if |zs| <= i {
        assert r[i] == ys[i - |zs|] && r[j] == ys[j - |zs|];
      }
    }
  }

  /** Properties created in key order are listed as they were created. */
  lemma EnumerateKeepsOrder(fields: seq<Field>)
    requires Sorted(ByKey, fields)
    ensures Enumerate(fields) == fields
  {
    hide IsIndex, Sorted, Sort, Select, Less;
    var xs, ys := Select(fields, true), Select(fields, false);
    SelectSorted(ByKey, fields, true);
    SelectSorted(ByKey, fields, false);
    assert forall f | f in xs :: Ordered(ByIndex, f.key);
    SortedByIndex(xs);
    SortedDistinct(ByIndex, xs);
    SortSorts(ByIndex, xs);
    SortedUnique(ByIndex, Sort(ByIndex, xs), xs);
    forall f, g | f in xs && g in ys ensures Less(ByKey, f.key, g.key) { IndicesFirst(f.key, g.key); }
    ConcatSorted(ByKey, xs, ys);
    assert forall f | f in fields :: Ordered(ByKey, f.key);
    SortedUnique(ByKey, xs + ys, fields);
  }

  lemma IndicesFirst(a: Text, b: Text)
    requires IsIndex(a) && !IsIndex(b)
    ensures Less(ByKey, a, b)
  {
  }

  lemma SortedByIndex(fields: seq<Field>)
    requires Sorted(ByKey, fields) && forall f | f in fields :: IsIndex(f.key)
    ensures Sorted(ByIndex, fields)
  {
    hide IsIndex, LexLess;
    forall i, j | 0 <= i < j < |fields| ensures Less(ByIndex, fields[i].key, fields[j].key) {
      assert fields[i] in fields && fields[j] in fields;
    }
  }

  // ----- the order, said without `Less`

  /** At `p` the texts part: `x` ends first or has the smaller code unit there. */
  predicate PartsAt(x: Text, y: Text, p: nat) {
    p <= |x| && p < |y| && x[..p] == y[..p] && (p == |x| || x[p] < y[p])
  }

  ghost predicate TextBefore(x: Text, y: Text) { exists p: nat :: PartsAt(x, y, p) }

  lemma {:induction false} LexLessMeans(x: Text, y: Text)
    ensures LexLess(x, y) <==> TextBefore(x, y)
  {
    if x == [] || y == [] || x[0] != y[0] {
      if LexLess(x, y) { assert PartsAt(x, y, 0); }
      if TextBefore(x, y) {
        var p: nat :| PartsAt(x, y, p);
        assert p > 0 ==> x[..p][0] == y[..p][0];
      }
    } else {
      LexLessMeans(x[1..], y[1..]);
      if TextBefore(x[1..], y[1..]) {
        var p: nat :| PartsAt(x[1..], y[1..], p);
        assert x == [x[0]] + x[1..] && y == [y[0]] + y[1..];
        assert x[..p + 1] == [x[0]] + x[1..][..p] && y[..p + 1] == [y[0]] + y[1..][..p];
        assert PartsAt(x, y, p + 1);
      }
      if TextBefore(x, y) {
        var p: nat :| PartsAt(x, y, p);
        assert p > 0;
        assert x[1..][..p - 1] == x[..p][1..] && y[1..][..p - 1] == y[..p][1..];
        assert PartsAt(x[1..], y[1..], p - 1);
      }
    }
  }

  /** The order of property names: array indices first and by number, then the other names as texts. */
  ghost predicate NameBefore(x: Text, y: Text) {
    if Canonical(x) && Magnitude(x) < 0xFFFF_FFFF then
      Canonical(y) && Magnitude(y) < 0xFFFF_FFFF ==> Magnitude(x) < Magnitude(y)
    else
      !(Canonical(y) && Magnitude(y) < 0xFFFF_FFFF) && TextBefore(x, y)
  }

  lemma LessMeans(x: Text, y: Text)
    ensures Less(ByText, x, y) <==> TextBefore(x, y)
    ensures Less(ByKey, x, y) <==> NameBefore(x, y)
  {
    hide Magnitude, TextBefore, LexLess;
    LexLessMeans(x, y);
  }

  /** Sorting puts the names in text order. */
  lemma SortedTexts(fields: seq<Field>)
    requires DistinctKeys(fields)
    ensures var r := Sort(ByText, fields);
            SameElements(r, fields) && forall i, j | 0 <= i < j < |r| :: TextBefore(r[i].key, r[j].key)
  {
    hide TextBefore, Less, Sort;
    assert forall f | f in fields :: Ordered(ByText, f.key);
    SortSorts(ByText, fields);
    var r := Sort(ByText, fields);
    forall i, j | 0 <= i < j < |r| ensures TextBefore(r[i].key, r[j].key) { LessMeans(r[i].key, r[j].key); }
  }
}
