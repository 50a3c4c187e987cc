/** JSON values as the contracts code holds them, and what they mean: an object is its map from keys to
    values, whatever the order of its members. */
module JsonValues {
  import opened CodeUnits
  import G = JsonGrammar
  import WireNumbers

  /** A JavaScript value made of JSON types; an object lists its own properties in enumeration order. */
  datatype Json =
    | JNull
    | JBool(b: bool)
    | JNum(n: int)
    | JStr(s: Text)
    | JArr(items: seq<Json>)
    | JObj(fields: seq<Field>)

  datatype Field = Field(key: Text, value: Json)

  /** A value up to member order. */
  datatype Meaning =
    | MNull
    | MBool(b: bool)
    | MNum(n: int)
    | MStr(s: Text)
    | MArr(items: seq<Meaning>)
    | MObj(fields: map<Text, Meaning>)

  function Means(v: Json): Meaning {
    match v
    case JNull => MNull
    case JBool(b) => MBool(b)
    case JNum(n) => MNum(n)
    case JStr(s) => MStr(s)
    case JArr(items) => MArr(ItemsMean(items))
    case JObj(fields) => MObj(FieldsMean(fields))
  }

  function ItemsMean(items: seq<Json>): (r: seq<Meaning>)
    ensures |r| == |items|
    ensures forall i | 0 <= i < |items| :: r[i] == Means(items[i])
  {
    if items == [] then [] else [Means(items[0])] + ItemsMean(items[1..])
  }

  /** A later property of the same key overrides an earlier one. */
  function FieldsMean(fields: seq<Field>): map<Text, Meaning> {
    if fields == [] then map[] else map[fields[0].key := Means(fields[0].value)] + FieldsMean(fields[1..])
  }

  predicate DistinctKeys(fields: seq<Field>) {
    forall i, j | 0 <= i < j < |fields| :: fields[i].key != fields[j].key
  }

  /** Own properties have distinct keys, and numbers are safe integers, at every depth. */
  predicate WellFormed(v: Json) {
    match v
    case JNum(n) => -WireNumbers.MAX_SAFE_INTEGER <= n <= WireNumbers.MAX_SAFE_INTEGER
    case JArr(items) => forall i | 0 <= i < |items| :: WellFormed(items[i])
    case JObj(fields) => DistinctKeys(fields) && forall i | 0 <= i < |fields| :: WellFormed(fields[i].value)
    case _ => true
  }

  ghost predicate HasKey(fields: seq<Field>, key: Text) {
    exists i | 0 <= i < |fields| :: fields[i].key == key
  }

  /** With distinct keys, the meaning of an object is exactly its fields. */
  lemma {:induction false} FieldsMeanExactly(fields: seq<Field>)
    requires DistinctKeys(fields)
    ensures forall i | 0 <= i < |fields| ::
              fields[i].key in FieldsMean(fields) && FieldsMean(fields)[fields[i].key] == Means(fields[i].value)
    ensures forall key :: key in FieldsMean(fields) <==> HasKey(fields, key)
  {
    if fields != [] {
      var rest := fields[1..];
      FieldsMeanExactly(rest);
      assert forall i | 0 <= i < |rest| :: rest[i] == fields[i + 1];
      assert !HasKey(rest, fields[0].key);
      forall key ensures key in FieldsMean(fields) <==> HasKey(fields, key) {
        if HasKey(fields, key) {
          var i :| 0 <= i < |fields| && fields[i].key == key;
          assert i > 0 ==> rest[i - 1].key == key;
        }
        if HasKey(rest, key) {
          var i :| 0 <= i < |rest| && rest[i].key == key;
          assert fields[i + 1].key == key;
        }
        assert fields[0].key == key ==> HasKey(fields, key);
      }
      forall i | 0 <= i < |fields|
        ensures fields[i].key in FieldsMean(fields) && FieldsMean(fields)[fields[i].key] == Means(fields[i].value)
      {
        if i > 0 { assert rest[i - 1] == fields[i]; }
      }
    }
  }

  // ----- what JSON.parse creates from a parse tree, properties in the order in which they are created
  // (numbers of a wire text are integers)

  function Denote(v: G.Value): Json {
    match v
    case Null => JNull
    case True => JBool(true)
    case False => JBool(false)
    case Num(n) => JNum(if G.ValidNumber(n) then G.IntegerValue(n) else 0)
    case Str(cs) => JStr(G.CharsValue(cs))
    case EmptyArr(_) => JArr([])
    case Arr(items) => JArr(DenoteItems(items))
    case EmptyObj(_) => JObj([])
    case Obj(members) => JObj(DenoteMembers(members))
  }

  function DenoteItems(xs: G.Items): seq<Json> {
    match xs
    case EndItems => []
    case Item(e, tail) => [Denote(e.v)] + DenoteItems(tail)
  }

  function DenoteMembers(ms: G.Members): seq<Field> {
    match ms
    case EndMembers => []
    case Member(e, tail) => [Field(G.CharsValue(e.name), Denote(e.v))] + DenoteMembers(tail)
  }
}
