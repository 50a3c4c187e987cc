/** `equalJson` of contracts/ts/schema-helpers.ts: equality of meaning. */
module EqualJson {
  import opened CodeUnits
  import opened Options
  import opened JsonValues

  /** `right[key]`, when `Object.hasOwn(right, key)`. */
  function Lookup(fields: seq<Field>, key: Text): (r: Option<Json>)
    ensures r.Some? <==> HasKey(fields, key)
    ensures r.Some? ==> Field(key, r.value) in fields
  {
    if fields == [] then None
    else if fields[0].key == key then
      assert Field(key, fields[0].value) == fields[0];
      Some(fields[0].value)
    else
      var r := Lookup(fields[1..], key);
      assert HasKey(fields[1..], key) <==> HasKey(fields, key) by {
        if i :| 0 <= i < |fields| && fields[i].key == key { assert fields[1..][i - 1].key == key; }
        if i :| 0 <= i < |fields[1..]| && fields[1..][i].key == key { assert fields[i + 1].key == key; }
      }
      r
  }

  /** The comparison as written. Two references to one array or object are identical in JavaScript and
      equal here, because the comparison of a value with itself succeeds. */
  predicate Equal(left: Json, right: Json) {
    if !left.JArr? && !left.JObj? && left == right then true
    else if left.JArr? && right.JArr? then
      |left.items| == |right.items|
      && forall i | 0 <= i < |left.items| :: Equal(left.items[i], right.items[i])
    else if left.JObj? && right.JObj? then
      |left.fields| == |right.fields|
      && forall i | 0 <= i < |left.fields| ::
           var other := Lookup(right.fields, left.fields[i].key);
           other.Some? && Equal(left.fields[i].value, other.value)
    else false
  }

  function KeySet(fields: seq<Field>): set<Text> { set i | 0 <= i < |fields| :: fields[i].key }

  lemma {:induction false} KeySetSize(fields: seq<Field>)
    requires DistinctKeys(fields)
    ensures |KeySet(fields)| == |fields|
  {
    if fields != [] {
      var n := |fields| - 1;
      var front := fields[..n];
      KeySetSize(front);
      assert forall i | 0 <= i < n :: front[i] == fields[i];
      assert KeySet(fields) == KeySet(front) + {fields[n].key};
      assert fields[n].key !in KeySet(front);
    }
  }

  /** As many keys on both sides and every left key on the right: the key sets are equal. */
  lemma SameKeys(left: seq<Field>, right: seq<Field>)
    requires DistinctKeys(left) && DistinctKeys(right) && |left| == |right|
    requires forall i | 0 <= i < |left| :: HasKey(right, left[i].key)
    ensures forall key :: HasKey(left, key) <==> HasKey(right, key)
  {
    var l, r := KeySet(left), KeySet(right);
    KeySetSize(left);
    KeySetSize(right);
    assert l <= r;
    assert |r - l| == 0 by { assert r == l + (r - l); }
    assert r == l;
    forall key ensures HasKey(left, key) <==> HasKey(right, key) {
      assert HasKey(left, key) <==> key in l;
      assert HasKey(right, key) <==> key in r;
    }
  }

  lemma {:induction false} LookupField(fields: seq<Field>, i: nat)
    requires DistinctKeys(fields) && i < |fields|
    ensures Lookup(fields, fields[i].key) == Some(fields[i].value)
  {
    assert HasKey(fields, fields[i].key);
    var r := Lookup(fields, fields[i].key);
    var j :| 0 <= j < |fields| && fields[j] == Field(fields[i].key, r.value);
  }

  lemma {:induction false} EqualIffSameMeaning(left: Json, right: Json)
    requires WellFormed(left) && WellFormed(right)
    ensures Equal(left, right) <==> Means(left) == Means(right)
    decreases left
  {
    if left.JArr? && right.JArr? {
      EqualArrays(left, right);
    } else if left.JObj? && right.JObj? {
      EqualObjects(left, right);
    }
  }

  lemma {:induction false} EqualArrays(left: Json, right: Json)
    requires left.JArr? && right.JArr? && WellFormed(left) && WellFormed(right)
    ensures Equal(left, right) <==> Means(left) == Means(right)
    decreases left, 0
  {
    var l, r := left.items, right.items;
    if |l| == |r| {
      forall i | 0 <= i < |l| ensures Equal(l[i], r[i]) <==> Means(l[i]) == Means(r[i]) {
        EqualIffSameMeaning(l[i], r[i]);
      }
      if Means(left) == Means(right) {
        assert ItemsMean(l) == ItemsMean(r);
        forall i | 0 <= i < |l| ensures Means(l[i]) == Means(r[i]) {
          assert ItemsMean(l)[i] == ItemsMean(r)[i];
        }
      }
      if Equal(left, right) {
        assert ItemsMean(l) == ItemsMean(r);
      }
    }
  }

  lemma {:induction false} EqualObjects(left: Json, right: Json)
    requires left.JObj? && right.JObj? && WellFormed(left) && WellFormed(right)
    ensures Equal(left, right) <==> Means(left) == Means(right)
    decreases left, 0
  {
    var l, r := left.fields, right.fields;
    FieldsMeanExactly(l);
    FieldsMeanExactly(r);
    if Equal(left, right) {
      SameKeys(l, r);
      forall i | 0 <= i < |l| ensures FieldsMean(r)[l[i].key] == Means(l[i].value) {
        FieldValue(r, l[i].key);
        EqualIffSameMeaning(l[i].value, Lookup(r, l[i].key).value);
      }
      FieldsMeanEqual(l, r);
    }
    if Means(left) == Means(right) {
      assert FieldsMean(l) == FieldsMean(r);
      forall i | 0 <= i < |l| ensures Lookup(r, l[i].key).Some? && Equal(l[i].value, Lookup(r, l[i].key).value) {
        assert HasKey(r, l[i].key);
        FieldValue(r, l[i].key);
        EqualIffSameMeaning(l[i].value, Lookup(r, l[i].key).value);
      }
      SameSize(l, r);
    }
  }

  lemma FieldValue(fields: seq<Field>, key: Text)
    requires DistinctKeys(fields) && HasKey(fields, key)
    requires forall i | 0 <= i < |fields| :: WellFormed(fields[i].value)
    ensures key in FieldsMean(fields)
    ensures FieldsMean(fields)[key] == Means(Lookup(fields, key).value) && WellFormed(Lookup(fields, key).value)
  {
    FieldsMeanExactly(fields);
    var i :| 0 <= i < |fields| && fields[i].key == key;
    LookupField(fields, i);
  }

  lemma FieldsMeanEqual(l: seq<Field>, r: seq<Field>)
    requires DistinctKeys(l) && DistinctKeys(r)
    requires forall key :: HasKey(l, key) <==> HasKey(r, key)
    requires forall i | 0 <= i < |l| :: l[i].key in FieldsMean(r) && FieldsMean(r)[l[i].key] == Means(l[i].value)
    ensures FieldsMean(l) == FieldsMean(r)
  {
    FieldsMeanExactly(l);
    FieldsMeanExactly(r);
    forall key | key in FieldsMean(l) ensures FieldsMean(l)[key] == FieldsMean(r)[key] {
      var i :| 0 <= i < |l| && l[i].key == key;
    }
  }

  lemma SameSize(l: seq<Field>, r: seq<Field>)
    requires DistinctKeys(l) && DistinctKeys(r) && FieldsMean(l) == FieldsMean(r)
    ensures |l| == |r|
  {
    hide FieldsMean, Means;
    FieldsMeanExactly(l);
    FieldsMeanExactly(r);
    KeySetSize(l);
    KeySetSize(r);
    forall key ensures key in KeySet(l) <==> key in KeySet(r) {
      assert key in KeySet(l) <==> HasKey(l, key);
      assert key in KeySet(r) <==> HasKey(r, key);
    }
    assert KeySet(l) == KeySet(r);
  }
}
