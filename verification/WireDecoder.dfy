/** `parseWireJson`, `canonicalJson` and `uniqueItems` together: what the wire decoder accepts, that it
    accepts everything `canonicalJson` prints, and that canonical texts, structural equality and meaning
    all draw the same distinctions. */
module WireDecoder {
  import opened CodeUnits
  import opened Options
  import opened JsonValues
  import opened KeyOrder
  import opened Canonicalizing
  import opened Printing
  import G = JsonGrammar
  import R = JsonReader
  import W = WireJson
  import N = WireNumbers
  import M = JsonNames
  import E = EqualJson

  datatype WireError =
    | NoncanonicalNumber(number: N.NumberIssue)
    | DuplicateMember(member: W.Issue)
    | InvalidJson

  datatype Result<+T> = Ok(value: T) | Err(error: WireError)

  /** What `JSON.parse` builds from a parse tree, its properties in the order JavaScript lists them. */
  function Built(v: G.Value): Json { AsListed(Denote(v)) }

  /** The checks in the order they are made; `JSON.parse` accepts exactly the grammar. */
  function Parse(source: Text): Result<Json> {
    var number := N.Flat(source, 0, false, false);
    if number.Some? then Err(NoncanonicalNumber(number.value)) else
      var d := R.ReadDocument(source);
      if d.None? then Err(InvalidJson) else
        var duplicate := W.DuplicateIn(d.value.v, W.ROOT);
        if duplicate.Some? then Err(DuplicateMember(duplicate.value)) else Ok(Built(d.value.v))
  }

  method ParseWireJson(source: Text) returns (r: Result<Json>)
    ensures r == Parse(source)
  {
    hide N.Flat, R.ReadDocument, W.DuplicateIn;
    var number := N.FindNonCanonicalNumber(source);
    if number.Some? { return Err(NoncanonicalNumber(number.value)); }
    var duplicate := W.FindDuplicateJsonMember(source);
    if duplicate.Some? { return Err(DuplicateMember(duplicate.value)); }
    var parsed := R.ReadDocument(source);
    if parsed.None? { return Err(InvalidJson); }
    return Ok(Built(parsed.value.v));
  }

  /** A text acceptable on the wire: it derives from the JSON grammar by a derivation whose numbers are
      all safe integers and in which no object repeats a name. */
  ghost predicate Acceptable(source: Text, d: G.Document) {
    && G.ValidDocument(d) && G.DocumentText(d) == source
    && var ns, names := N.DocumentNumbers(d), M.DocumentNames(d);
    && N.AllValid(ns) && (forall i | 0 <= i < |ns| :: N.OnWire(ns[i]))
    && (forall k | 0 <= k < |names| :: !M.Repeats(names, k))
  }

  /** The decoder accepts exactly the acceptable texts, and builds the value their derivation denotes,
      as JavaScript lists it. */
  lemma WireAcceptsExactly(source: Text)
    ensures Parse(source).Ok? <==> exists d :: Acceptable(source, d)
    ensures forall d | Acceptable(source, d) :: Parse(source) == Ok(Built(d.v))
  {
    hide N.Flat, R.ReadDocument, W.DuplicateIn, G.DocumentText, G.ValidDocument, N.OnWire, M.Repeats,
         M.DocumentNames, N.DocumentNumbers, N.AllValid;
    if Parse(source).Ok? {
      R.DocumentSound(source);
      N.ScanFindsFirstBadNumber(source);
      M.EarliestDuplicateReported(source);
      assert Acceptable(source, R.ReadDocument(source).value);
    }
    forall d | Acceptable(source, d) ensures Parse(source) == Ok(Built(d.v)) {
      R.DocumentComplete(d);
      N.ScanFindsFirstBadNumber(source);
      M.EarliestDuplicateReported(source);
      var names := M.DocumentNames(d);
      assert forall k | 0 <= k < |names| :: !M.IsFirstRepeat(names, k);
    }
  }

  /** Which error a refused text gets. Of a JSON text: its first number that is not a safe integer; without one,
      its first repeated name. Of any other text: what the number scan finds, and otherwise that it is no JSON. */
  lemma RefusedFor(source: Text)
    ensures var d := R.ReadDocument(source);
            d.Some? ==>
              var ns, names := N.DocumentNumbers(d.value), M.DocumentNames(d.value);
              && (Parse(source).Err? ==>
                    || (exists k :: 0 <= k < |ns| && N.AllValid(ns) && !N.OnWire(ns[k])
                          && (forall i | 0 <= i < k :: N.OnWire(ns[i]))
                          && N.IssueOf(ns[k]).Some?
                          && Parse(source) == Err(NoncanonicalNumber(N.IssueOf(ns[k]).value)))
                    || (&& N.AllValid(ns) && (forall i | 0 <= i < |ns| :: N.OnWire(ns[i]))
                        && exists k :: 0 <= k < |names| && M.IsFirstRepeat(names, k)
                             && Parse(source) == Err(DuplicateMember(W.Issue(names[k].name, names[k].path)))))
    ensures !G.ValidJson(source) ==>
              Parse(source) == match N.Flat(source, 0, false, false)
                               case Some(issue) => Err(NoncanonicalNumber(issue))
                               case None => Err(InvalidJson)
  {
    hide N.Flat, R.ReadDocument, W.DuplicateIn, N.OnWire, M.IsFirstRepeat, M.DocumentNames, N.DocumentNumbers,
         N.AllValid, N.IssueOf, G.ValidJson;
    R.ReadsExactlyJson(source);
    if R.ReadDocument(source).Some? {
      N.ScanFindsFirstBadNumber(source);
      M.EarliestDuplicateReported(source);
    }
  }

  // ----- canonical text

  function CanonicalJson(v: Json): Text { Stringify(Canonicalize(v)) }

  /** Nothing canonical repeats a name. */
  lemma {:induction false} NoDuplicatePrinted(v: Json, path: Text)
    requires WellFormed(v)
    ensures W.DuplicateIn(TreeOf(v), path) == None
    decreases v
  {
    match v {
      case JArr(items) => NoDuplicateItems(items, 0, path);
      case JObj(fields) => NoDuplicateFields(fields, {}, path);
      case _ =>
    }
  }

  lemma {:induction false} NoDuplicateItems(items: seq<Json>, k: nat, path: Text)
    requires forall i | 0 <= i < |items| :: WellFormed(items[i])
    ensures W.DuplicateInItems(TreeOfItems(items), k, path) == None
    decreases items
  {
    if items != [] {
      NoDuplicatePrinted(items[0], W.ElementPath(path, k));
      NoDuplicateItems(items[1..], k + 1, path);
    }
  }

  lemma {:induction false} NoDuplicateFields(fields: seq<Field>, seen: set<Text>, path: Text)
    requires DistinctKeys(fields) &&
        forall i | 0 <= i < |fields| :: fields[i].key !in seen && WellFormed(fields[i].value)
    ensures W.DuplicateInMembers(TreeOfFields(fields), seen, path) == None
    decreases fields
  {
    if fields != [] {
      NoDuplicatePrinted(fields[0].value, W.MemberPath(path, fields[0].key));
      NoDuplicateFields(fields[1..], seen + {fields[0].key}, path);
    }
  }

  /** Every number of a printed well-formed value is acceptable on the wire. */
  lemma {:induction false} PrintedNumbers(v: Json)
    requires WellFormed(v)
    ensures GoodNumbers(N.Numbers(TreeOf(v)))
    decreases v
  {
    match v {
      case JArr(items) => PrintedItemNumbers(items);
      case JObj(fields) => PrintedFieldNumbers(fields);
      case _ =>
    }
  }

  ghost predicate GoodNumbers(ns: seq<G.Number>) {
    forall i | 0 <= i < |ns| :: G.ValidNumber(ns[i]) && N.OnWire(ns[i])
  }

  lemma {:induction false} PrintedItemNumbers(items: seq<Json>)
    requires forall i | 0 <= i < |items| :: WellFormed(items[i])
    ensures GoodNumbers(N.NumbersInItems(TreeOfItems(items)))
    decreases items
  {
    if items != [] {
      PrintedNumbers(items[0]);
      PrintedItemNumbers(items[1..]);
    }
  }

  lemma {:induction false} PrintedFieldNumbers(fields: seq<Field>)
    requires forall i | 0 <= i < |fields| :: WellFormed(fields[i].value)
    ensures GoodNumbers(N.NumbersInMembers(TreeOfFields(fields)))
    decreases fields
  {
    if fields != [] {
      PrintedNumbers(fields[0].value);
      PrintedFieldNumbers(fields[1..]);
    }
  }

  /** Every canonical text passes the wire decoder, which rebuilds the canonical value; its meaning is
      that of the value printed. */
  lemma CanonicalRoundTrip(v: Json)
    requires WellFormed(v)
    ensures Parse(CanonicalJson(v)) == Ok(Canonicalize(v))
    ensures Means(Canonicalize(v)) == Means(v)
  {
    hide Canonicalize, Stringify, TreeOf, N.Flat, R.ReadDocument, W.DuplicateIn, Denote, Means, WellFormed, N.OnWire,
         AsListed, InKeyOrder;
    CanonicalizeKeepsMeaning(v);
    var c := Canonicalize(v);
    ListingKeepsOrder(c);
    PrintedIsRead(c);
    NoDuplicatePrinted(c, W.ROOT);
    PrintedNumbers(c);
    N.ScanFindsFirstBadNumber(CanonicalJson(v));
  }

  /** Canonical texts, structural equality and meaning agree; so the canonical text does not depend on
      the order of members, and equality is an equivalence. */
  lemma CanonicalTextDecides(a: Json, b: Json)
    requires WellFormed(a) && WellFormed(b)
    ensures CanonicalJson(a) == CanonicalJson(b) <==> Means(a) == Means(b)
    ensures E.Equal(a, b) <==> CanonicalJson(a) == CanonicalJson(b)
  {
    hide Canonicalize, Stringify, Means, WellFormed, E.Equal;
    CanonicalizeIffMeaning(a, b);
    E.EqualIffSameMeaning(a, b);
    if CanonicalJson(a) == CanonicalJson(b) {
      PrintingInjective(Canonicalize(a), Canonicalize(b));
    }
  }

  /** Any rearrangement of an object's own properties has the same canonical text. */
  lemma ReorderingInvisible(fields: seq<Field>, arranged: seq<Field>)
    requires WellFormed(JObj(fields)) && DistinctKeys(arranged) && SameElements(fields, arranged)
    ensures CanonicalJson(JObj(fields)) == CanonicalJson(JObj(arranged))
  {
    hide Canonicalize, Stringify, FieldsMean;
    ReorderedMeans(fields, arranged);
    forall i | 0 <= i < |arranged| ensures WellFormed(arranged[i].value) {
      assert arranged[i] in fields;
      var j :| 0 <= j < |fields| && fields[j] == arranged[i];
    }
    CanonicalTextDecides(JObj(fields), JObj(arranged));
  }

  // ----- what the decoder lets through

  lemma {:induction false} DecodedWellFormed(v: G.Value, path: Text)
    requires W.DuplicateIn(v, path) == None && GoodNumbers(N.Numbers(v))
    ensures WellFormed(Denote(v))
    decreases v
  {
    match v {
      case Num(n) => assert N.Numbers(v)[0] == n;
      case Arr(items) =>
        DecodedItems(items, 0, path);
        assert AllWellFormed(DenoteItems(items));
      case Obj(members) => DecodedMembers(members, {}, path);
      case _ =>
    }
  }

  predicate AllWellFormed(items: seq<Json>) { forall i | 0 <= i < |items| :: WellFormed(items[i]) }

  lemma {:induction false} DecodedItems(xs: G.Items, k: nat, path: Text)
    requires W.DuplicateInItems(xs, k, path) == None && GoodNumbers(N.NumbersInItems(xs))
    ensures AllWellFormed(DenoteItems(xs))
    decreases xs
  {
    hide WellFormed;
    match xs {
      case EndItems =>
      case Item(e, tail) =>
        GoodSplit(N.Numbers(e.v), N.NumbersInItems(tail));
        DecodedWellFormed(e.v, W.ElementPath(path, k));
        DecodedItems(tail, k + 1, path);
        var r, rest := DenoteItems(xs), DenoteItems(tail);
        assert r == [Denote(e.v)] + rest;
    }
  }

  lemma GoodSplit(a: seq<G.Number>, b: seq<G.Number>)
    requires GoodNumbers(a + b)
    ensures GoodNumbers(a) && GoodNumbers(b)
  {
    hide G.ValidNumber, N.OnWire;
    assert forall i | 0 <= i < |a| :: (a + b)[i] == a[i];
    assert forall i | 0 <= i < |b| :: b[i] == (a + b)[|a| + i];
  }

  lemma {:induction false} DecodedMembers(ms: G.Members, seen: set<Text>, path: Text)
    requires W.DuplicateInMembers(ms, seen, path) == None && GoodNumbers(N.NumbersInMembers(ms))
    ensures var r := DenoteMembers(ms);
            DistinctKeys(r) && forall i | 0 <= i < |r| :: r[i].key !in seen && WellFormed(r[i].value)
    decreases ms
  {
    match ms {
      case EndMembers =>
      case Member(e, tail) =>
        var key := G.CharsValue(e.name);
        GoodSplit(N.Numbers(e.v), N.NumbersInMembers(tail));
        DecodedWellFormed(e.v, W.MemberPath(path, key));
        DecodedMembers(tail, seen + {key}, path);
        var r, rest := DenoteMembers(ms), DenoteMembers(tail);
        assert r == [Field(key, Denote(e.v))] + rest;
    }
  }

  /** Whatever the decoder accepts is well-formed; so its canonical text is accepted in turn and decodes
      to the same meaning. */
  lemma DecodedIsCanonicalizable(source: Text)
    requires Parse(source).Ok?
    ensures var v := Parse(source).value;
            && WellFormed(v) && Parse(CanonicalJson(v)) == Ok(Canonicalize(v)) && Means(Canonicalize(v)) == Means(v)
  {
    hide N.Flat, R.ReadDocument, W.DuplicateIn, N.OnWire, Denote, Canonicalize, Means, WellFormed, CanonicalJson,
        AsListed;
    N.ScanFindsFirstBadNumber(source);
    var d := R.ReadDocument(source).value;
    DecodedWellFormed(d.v, W.ROOT);
    ListingKeepsMeaning(Denote(d.v));
    CanonicalRoundTrip(Parse(source).value);
  }

  // ----- uniqueItems

  /** The `uniqueItems` test: no item equals one before it. */
  predicate UniqueItems(items: seq<Json>) {
    forall i | 0 <= i < |items| :: !exists j | 0 <= j < |items[..i]| :: E.Equal(items[..i][j], items[i])
  }

  lemma UniqueItemsExact(items: seq<Json>)
    requires forall i | 0 <= i < |items| :: WellFormed(items[i])
    ensures UniqueItems(items) <==>
            forall i, j | 0 <= j < |items| && 0 <= i < |items| && i != j ::
              CanonicalJson(items[j]) != CanonicalJson(items[i])
  {
    hide CanonicalJson, WellFormed, E.Equal;
    forall i, j | 0 <= i < |items| && 0 <= j < |items|
      ensures E.Equal(items[j], items[i]) <==> CanonicalJson(items[j]) == CanonicalJson(items[i])
    {
      CanonicalTextDecides(items[j], items[i]);
    }
    if UniqueItems(items) {
      forall i, j | 0 <= j < |items| && 0 <= i < |items| && i != j
        ensures CanonicalJson(items[j]) != CanonicalJson(items[i])
      {
        if j < i {
          assert items[..i][j] == items[j];
        } else {
          assert items[..j][i] == items[i];
        }
      }
    }
  }
}
