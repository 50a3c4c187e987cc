/** `canonicalize` of contracts/ts/semantics.ts: one listing for every meaning. */
module Canonicalizing {
  import opened JsonValues
  import opened KeyOrder

  function Canonicalize(v: Json): Json {
    match v
    case JArr(items) => JArr(CanonicalizeItems(items))
    case JObj(fields) => JObj(Enumerate(Sort(ByText, CanonicalizeFields(fields))))
    case _ => v
  }

  function CanonicalizeItems(items: seq<Json>): (r: seq<Json>)
    ensures |r| == |items|
    ensures forall i | 0 <= i < |items| :: r[i] == Canonicalize(items[i])
  {
    if items == [] then [] else [Canonicalize(items[0])] + CanonicalizeItems(items[1..])
  }

  function CanonicalizeFields(fields: seq<Field>): (r: seq<Field>)
    ensures |r| == |fields|
    ensures forall i | 0 <= i < |fields| :: r[i] == Field(fields[i].key, Canonicalize(fields[i].value))
  {
    if fields == [] then []
    else [Field(fields[0].key, Canonicalize(fields[0].value))] + CanonicalizeFields(fields[1..])
  }

  /** Every object at every depth lists its keys in order. */
  ghost predicate InKeyOrder(v: Json) {
    match v
    case JArr(items) => forall i | 0 <= i < |items| :: InKeyOrder(items[i])
    case JObj(fields) => Sorted(ByKey, fields) && forall i | 0 <= i < |fields| :: InKeyOrder(fields[i].value)
    case _ => true
  }

  /** The meaning of an object does not depend on the order of its fields. */
  lemma ReorderedMeans(a: seq<Field>, b: seq<Field>)
    requires DistinctKeys(a) && DistinctKeys(b) && SameElements(a, b)
    ensures FieldsMean(a) == FieldsMean(b)
  {
    hide FieldsMean, Means;
    FieldsMeanExactly(a);
    FieldsMeanExactly(b);
    forall key ensures HasKey(a, key) <==> HasKey(b, key) {
      if HasKey(a, key) {
        var i :| 0 <= i < |a| && a[i].key == key;
        assert a[i] in b;
      }
      if HasKey(b, key) {
        var i :| 0 <= i < |b| && b[i].key == key;
        assert b[i] in a;
      }
    }
    forall key | key in FieldsMean(a) ensures FieldsMean(a)[key] == FieldsMean(b)[key] {
      var i :| 0 <= i < |a| && a[i].key == key;
      assert a[i] in b;
      var j :| 0 <= j < |b| && b[j] == a[i];
    }
  }

  lemma {:induction false} PointwiseMeans(a: seq<Field>, b: seq<Field>)
    requires |a| == |b|
    requires forall i | 0 <= i < |a| :: a[i].key == b[i].key && Means(a[i].value) == Means(b[i].value)
    ensures FieldsMean(a) == FieldsMean(b)
  {
    if a != [] {
      assert forall i | 0 <= i < |a| - 1 :: a[1..][i] == a[i + 1] && b[1..][i] == b[i + 1];
      PointwiseMeans(a[1..], b[1..]);
    }
  }

  lemma {:induction false} CanonicalizeKeepsMeaning(v: Json)
    requires WellFormed(v)
    ensures Means(Canonicalize(v)) == Means(v)
    ensures WellFormed(Canonicalize(v)) && InKeyOrder(Canonicalize(v))
    decreases v
  {
    match v {
      case JArr(items) =>
        forall i | 0 <= i < |items|
          ensures Means(Canonicalize(items[i])) == Means(items[i])
          ensures WellFormed(Canonicalize(items[i])) && InKeyOrder(Canonicalize(items[i]))
        {
          CanonicalizeKeepsMeaning(items[i]);
        }
        assert ItemsMean(CanonicalizeItems(items)) == ItemsMean(items);
      case JObj(fields) =>
        forall i | 0 <= i < |fields|
          ensures Means(Canonicalize(fields[i].value)) == Means(fields[i].value)
          ensures WellFormed(Canonicalize(fields[i].value)) && InKeyOrder(Canonicalize(fields[i].value))
        {
          CanonicalizeKeepsMeaning(fields[i].value);
        }
        var c := CanonicalizeFields(fields);
        PointwiseMeans(c, fields);
        ArrangedFields(c);
      case _ =>
    }
  }

  /** Sorting and enumerating the canonical fields of an object. */
  lemma ArrangedFields(c: seq<Field>)
    requires DistinctKeys(c) && forall i | 0 <= i < |c| :: WellFormed(c[i].value) && InKeyOrder(c[i].value)
    ensures var r := Enumerate(Sort(ByText, c));
            && WellFormed(JObj(r)) && InKeyOrder(JObj(r)) && SameElements(r, c) && FieldsMean(r) == FieldsMean(c)
  {
    hide Less, FieldsMean, Sorted, Sort, Enumerate;
    var s := Sort(ByText, c);
    var r := Enumerate(s);
    assert forall f | f in c :: Ordered(ByText, f.key);
    SortSorts(ByText, c);
    EnumerateSorts(s);
    assert forall f | f in r :: Ordered(ByKey, f.key);
    SortedDistinct(ByKey, r);
    ReorderedMeans(r, c);
    forall i | 0 <= i < |r| ensures WellFormed(r[i].value) && InKeyOrder(r[i].value) {
      assert r[i] in c;
      var j :| 0 <= j < |c| && c[j] == r[i];
    }
  }

  /** Two values in key order with one meaning are the same value. */
  lemma {:induction false} KeyOrderUnique(a: Json, b: Json)
    requires WellFormed(a) && WellFormed(b) && InKeyOrder(a) && InKeyOrder(b) && Means(a) == Means(b)
    ensures a == b
    decreases a
  {
    if a.JArr? {
      assert ItemsMean(a.items) == ItemsMean(b.items);
      forall i | 0 <= i < |a.items| ensures a.items[i] == b.items[i] {
        assert ItemsMean(a.items)[i] == ItemsMean(b.items)[i];
        KeyOrderUnique(a.items[i], b.items[i]);
      }
      assert a.items == b.items;
    } else if a.JObj? {
      var x, y := a.fields, b.fields;
      FieldsMeanExactly(x);
      FieldsMeanExactly(y);
      forall i, j | 0 <= i < |x| && 0 <= j < |y| && x[i].key == y[j].key ensures x[i] == y[j] {
        KeyOrderUnique(x[i].value, y[j].value);
      }
      MatchingFields(x, y);
      SortedUnique(ByKey, x, y);
    }
  }

  lemma MatchingFields(x: seq<Field>, y: seq<Field>)
    requires DistinctKeys(x) && DistinctKeys(y) && FieldsMean(x) == FieldsMean(y)
    requires forall i, j | 0 <= i < |x| && 0 <= j < |y| && x[i].key == y[j].key :: x[i] == y[j]
    ensures SameElements(x, y)
  {
    hide FieldsMean;
    FieldsMeanExactly(x);
    FieldsMeanExactly(y);
    forall f ensures f in x <==> f in y {
      if f in x {
        var i :| 0 <= i < |x| && x[i] == f;
        assert HasKey(x, f.key) && HasKey(y, f.key);
        var j :| 0 <= j < |y| && y[j].key == f.key;
      }
      if f in y {
        var j :| 0 <= j < |y| && y[j] == f;
        assert HasKey(y, f.key) && HasKey(x, f.key);
        var i :| 0 <= i < |x| && x[i].key == f.key;
      }
    }
  }

  /** Values have one canonical listing exactly when they have one meaning. */
  lemma CanonicalizeIffMeaning(a: Json, b: Json)
    requires WellFormed(a) && WellFormed(b)
    ensures Canonicalize(a) == Canonicalize(b) <==> Means(a) == Means(b)
  {
    CanonicalizeKeepsMeaning(a);
    CanonicalizeKeepsMeaning(b);
    if Means(a) == Means(b) {
      KeyOrderUnique(Canonicalize(a), Canonicalize(b));
    }
  }

  /** Every object at every depth lists its names in order, said on the names themselves. */
  ghost predicate Ascending(v: Json) {
    match v
    case JArr(items) => forall i | 0 <= i < |items| :: Ascending(items[i])
    case JObj(fields) =>
      && (forall i, j | 0 <= i < j < |fields| :: NameBefore(fields[i].key, fields[j].key))
      && (forall i | 0 <= i < |fields| :: Ascending(fields[i].value))
    case _ => true
  }

  lemma {:induction false} KeyOrderAscends(v: Json)
    requires InKeyOrder(v)
    ensures Ascending(v)
    decreases v
  {
    hide NameBefore, Less;
    match v {
      case JArr(items) =>
        forall i | 0 <= i < |items| ensures Ascending(items[i]) { KeyOrderAscends(items[i]); }
      case JObj(fields) =>
        forall i, j | 0 <= i < j < |fields| ensures NameBefore(fields[i].key, fields[j].key) {
          LessMeans(fields[i].key, fields[j].key);
        }
        forall i | 0 <= i < |fields| ensures Ascending(fields[i].value) { KeyOrderAscends(fields[i].value); }
      case _ =>
    }
  }

  /** In every object of a canonical value, at every depth, index names come first and by number, and any two other
      names stand in the order of their first differing code unit. */
  lemma CanonicalAscends(v: Json)
    requires WellFormed(v)
    ensures Ascending(Canonicalize(v))
  {
    hide Canonicalize, WellFormed, InKeyOrder, Means;
    CanonicalizeKeepsMeaning(v);
    KeyOrderAscends(Canonicalize(v));
  }

  // ----- the order in which JavaScript lists what JSON.parse creates

  /** The value as listed, given properties in the order in which they were created. */
  function AsListed(v: Json): Json {
    match v
    case JArr(items) => JArr(ListItems(items))
    case JObj(fields) => JObj(Enumerate(ListFields(fields)))
    case _ => v
  }

  function ListItems(items: seq<Json>): (r: seq<Json>)
    ensures |r| == |items|
    ensures forall i | 0 <= i < |items| :: r[i] == AsListed(items[i])
  {
    if items == [] then [] else [AsListed(items[0])] + ListItems(items[1..])
  }

  function ListFields(fields: seq<Field>): (r: seq<Field>)
    ensures |r| == |fields|
    ensures forall i | 0 <= i < |fields| :: r[i] == Field(fields[i].key, AsListed(fields[i].value))
  {
    if fields == [] then [] else [Field(fields[0].key, AsListed(fields[0].value))] + ListFields(fields[1..])
  }

  /** Listing changes the order of members and nothing else. */
  lemma {:induction false} ListingKeepsMeaning(v: Json)
    requires WellFormed(v)
    ensures Means(AsListed(v)) == Means(v) && WellFormed(AsListed(v))
    decreases v
  {
    match v {
      case JArr(items) =>
        forall i | 0 <= i < |items|
          ensures Means(AsListed(items[i])) == Means(items[i]) && WellFormed(AsListed(items[i]))
        {
          ListingKeepsMeaning(items[i]);
        }
        assert ItemsMean(ListItems(items)) == ItemsMean(items);
      case JObj(fields) =>
        forall i | 0 <= i < |fields|
          ensures Means(AsListed(fields[i].value)) == Means(fields[i].value) && WellFormed(AsListed(fields[i].value))
        {
          ListingKeepsMeaning(fields[i].value);
        }
        var c := ListFields(fields);
        PointwiseMeans(c, fields);
        ListedFields(c);
      case _ =>
    }
  }

  lemma ListedFields(c: seq<Field>)
    requires DistinctKeys(c) && forall i | 0 <= i < |c| :: WellFormed(c[i].value)
    ensures WellFormed(JObj(Enumerate(c))) && FieldsMean(Enumerate(c)) == FieldsMean(c)
  {
    hide FieldsMean, Enumerate;
    var r := Enumerate(c);
    EnumerateKeeps(c);
    ReorderedMeans(r, c);
    forall i | 0 <= i < |r| ensures WellFormed(r[i].value) {
      assert r[i] in c;
      var j :| 0 <= j < |c| && c[j] == r[i];
    }
  }

  /** What is in key order already is listed as it is. */
  lemma {:induction false} ListingKeepsOrder(v: Json)
    requires InKeyOrder(v)
    ensures AsListed(v) == v
    decreases v
  {
    match v {
      case JArr(items) =>
        forall i | 0 <= i < |items| ensures AsListed(items[i]) == items[i] { ListingKeepsOrder(items[i]); }
        assert ListItems(items) == items;
      case JObj(fields) =>
        forall i | 0 <= i < |fields| ensures AsListed(fields[i].value) == fields[i].value {
          ListingKeepsOrder(fields[i].value);
        }
        assert ListFields(fields) == fields;
        EnumerateKeepsOrder(fields);
      case _ =>
    }
  }
}
