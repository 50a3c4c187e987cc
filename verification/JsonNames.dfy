/** Every member name of a JSON text, with the object it belongs to and where it stands, and the proof
    that the duplicate scanner reports exactly the first name to repeat an earlier one of its object. */
module JsonNames {
  import opened CodeUnits
  import opened Options
  import opened JsonGrammar
  import opened JsonReader
  import opened WireJson

  /** A member name: the object it belongs to (child indices from the root), its unescaped text, the
      path printed for that object, and the offset of the literal in the text. */
  datatype Occurrence = Occurrence(owner: seq<nat>, name: Text, path: Text, offset: nat)

  function Names(v: Value, at: seq<nat>, path: Text, offset: nat): seq<Occurrence> {
    match v
    case Arr(items) => NamesInItems(items, at, 0, path, offset + 1)
    case Obj(members) => NamesInMembers(members, at, 0, path, offset + 1)
    case _ => []
  }

  function NamesInItems(xs: Items, at: seq<nat>, k: nat, path: Text, offset: nat): seq<Occurrence> {
    match xs
    case EndItems => []
    case Item(e, tail) =>
      NamesInElement(e, at, k, path, offset)
      + NamesInItems(tail, at, k + 1, path, offset + |ElementText(e)| + 1)
  }

  function NamesInElement(e: Element, at: seq<nat>, k: nat, path: Text, offset: nat): seq<Occurrence> {
    Names(e.v, at + [k], ElementPath(path, k), offset + |e.before|)
  }

  function NamesInMembers(ms: Members, at: seq<nat>, k: nat, path: Text, offset: nat): seq<Occurrence> {
    match ms
    case EndMembers => []
    case Member(e, tail) =>
      [NameOf(e, at, path, offset)]
      + (NamesInEntry(e, at, k, path, offset)
         + NamesInMembers(tail, at, k + 1, path, offset + |EntryText(e)| + 1))
  }

  function NameOf(e: Entry, at: seq<nat>, path: Text, offset: nat): Occurrence {
    Occurrence(at, CharsValue(e.name), path, offset + |e.before|)
  }

  function NamesInEntry(e: Entry, at: seq<nat>, k: nat, path: Text, offset: nat): seq<Occurrence> {
    Names(e.v, at + [k], MemberPath(path, CharsValue(e.name)),
          offset + |e.before| + |StringText(e.name)| + |e.gap| + 1 + |e.between|)
  }

  function DocumentNames(d: Document): seq<Occurrence> { Names(d.v, [], ROOT, |d.lead|) }

  /** The `k`-th name repeats an earlier name of the same object. */
  ghost predicate Repeats(names: seq<Occurrence>, k: nat)
    requires k < |names|
  {
    exists j | 0 <= j < k :: Key(names[j]) == Key(names[k])
  }

  function Key(o: Occurrence): (seq<nat>, Text) { (o.owner, o.name) }

  // ----- the first repeated name, walking the list with the names seen so far

  function FirstRepeat(names: seq<Occurrence>, seen: set<(seq<nat>, Text)>): Option<Issue> {
    if names == [] then None
    else if Key(names[0]) in seen then Some(Issue(names[0].name, names[0].path))
    else FirstRepeat(names[1..], seen + {Key(names[0])})
  }

  function Keys(names: seq<Occurrence>): set<(seq<nat>, Text)> {
    set i | 0 <= i < |names| :: Key(names[i])
  }

  lemma {:induction false} FirstRepeatAppend(a: seq<Occurrence>, b: seq<Occurrence>, seen: set<(seq<nat>, Text)>)
    ensures FirstRepeat(a + b, seen) == First(FirstRepeat(a, seen), FirstRepeat(b, seen + Keys(a)))
    decreases a
  {
    if a == [] {
      assert a + b == b;
      assert seen + Keys(a) == seen;
    } else {
      assert (a + b)[1..] == a[1..] + b;
      FirstRepeatAppend(a[1..], b, seen + {Key(a[0])});
      assert seen + {Key(a[0])} + Keys(a[1..]) == seen + Keys(a) by { KeysCons(a); }
    }
  }

  lemma KeysCons(a: seq<Occurrence>)
    requires a != []
    ensures Keys(a) == {Key(a[0])} + Keys(a[1..])
  {
    forall x ensures x in Keys(a) <==> x in {Key(a[0])} + Keys(a[1..]) {
      if x in Keys(a) {
        var i :| 0 <= i < |a| && Key(a[i]) == x;
        assert i > 0 ==> a[1..][i - 1] == a[i];
      }
      if x in Keys(a[1..]) {
        var i :| 0 <= i < |a[1..]| && Key(a[1..][i]) == x;
        assert a[i + 1] == a[1..][i];
      }
    }
  }

  /** What the walk reports, said without the walk. */
  lemma {:induction false} FirstRepeatMeans(names: seq<Occurrence>, n: nat)
    requires n <= |names| && forall k | 0 <= k < n :: !Repeats(names, k)
    ensures var r := FirstRepeat(names[n..], Keys(names[..n]));
            && (r.None? ==> forall k | 0 <= k < |names| :: !Repeats(names, k))
            && (r.Some? ==> exists k :: 0 <= k < |names| && IsFirstRepeat(names, k)
                                     && r.value == Issue(names[k].name, names[k].path))
    decreases |names| - n
  {
    if n < |names| {
      var rest := names[n..];
      assert rest[0] == names[n] && rest[1..] == names[n + 1..];
      assert Repeats(names, n) <==> Key(names[n]) in Keys(names[..n]) by {
        if Repeats(names, n) {
          var j :| 0 <= j < n && Key(names[j]) == Key(names[n]);
          assert names[..n][j] == names[j];
        }
        if Key(names[n]) in Keys(names[..n]) {
          var j :| 0 <= j < |names[..n]| && Key(names[..n][j]) == Key(names[n]);
          assert names[..n][j] == names[j];
        }
      }
      if Repeats(names, n) {
        assert IsFirstRepeat(names, n);
      } else {
        KeysSnoc(names, n);
        FirstRepeatMeans(names, n + 1);
      }
    }
  }

  ghost predicate IsFirstRepeat(names: seq<Occurrence>, k: nat)
    requires k < |names|
  {
    Repeats(names, k) && forall j | 0 <= j < k :: !Repeats(names, j)
  }

  lemma KeysSnoc(names: seq<Occurrence>, n: nat)
    requires n < |names|
    ensures Keys(names[..n + 1]) == Keys(names[..n]) + {Key(names[n])}
  {
    forall x ensures x in Keys(names[..n + 1]) <==> x in Keys(names[..n]) + {Key(names[n])} {
      if x in Keys(names[..n + 1]) {
        var i :| 0 <= i < n + 1 && Key(names[..n + 1][i]) == x;
        assert i < n ==> names[..n][i] == names[i];
      }
      if x in Keys(names[..n]) {
        var i :| 0 <= i < n && Key(names[..n][i]) == x;
        assert names[..n + 1][i] == names[i];
      }
      assert names[..n + 1][n] == names[n];
    }
  }

  // ----- the scanner's report is the first repeat

  /** The address lies in or below child `k` or a later child of the object or array at `at`. */
  predicate Below(at: seq<nat>, k: nat, a: seq<nat>) {
    |at| < |a| && at <= a && k <= a[|at|]
  }

  ghost predicate FreshFor(seen: set<(seq<nat>, Text)>, at: seq<nat>) {
    forall x | x in seen :: !(at <= x.0)
  }

  ghost predicate FreshBelow(seen: set<(seq<nat>, Text)>, at: seq<nat>, k: nat) {
    forall x | x in seen :: !Below(at, k, x.0)
  }

  lemma {:induction false} NamesUnder(v: Value, at: seq<nat>, path: Text, offset: nat)
    ensures forall o | o in Names(v, at, path, offset) :: at <= o.owner
    decreases v
  {
    match v {
      case Arr(items) => NamesInItemsUnder(items, at, 0, path, offset + 1);
      case Obj(members) => NamesInMembersUnder(members, at, 0, path, offset + 1);
      case _ =>
    }
  }

  lemma {:induction false} NamesInItemsUnder(xs: Items, at: seq<nat>, k: nat, path: Text, offset: nat)
    ensures forall o | o in NamesInItems(xs, at, k, path, offset) :: Below(at, k, o.owner)
    decreases xs
  {
    match xs {
      case EndItems =>
      case Item(e, tail) =>
        NamesInElementUnder(e, at, k, path, offset);
        NamesInItemsUnder(tail, at, k + 1, path, offset + |ElementText(e)| + 1);
    }
  }

  lemma {:induction false} NamesInElementUnder(e: Element, at: seq<nat>, k: nat, path: Text, offset: nat)
    ensures forall o | o in NamesInElement(e, at, k, path, offset) :: Below(at, k, o.owner) && o.owner[|at|] == k
    decreases e
  {
    NamesUnder(e.v, at + [k], ElementPath(path, k), offset + |e.before|);
    assert forall a: seq<nat> | at + [k] <= a :: a[|at|] == k && at <= a;
  }

  lemma {:induction false} NamesInMembersUnder(ms: Members, at: seq<nat>, k: nat, path: Text, offset: nat)
    ensures forall o | o in NamesInMembers(ms, at, k, path, offset) :: o.owner == at || Below(at, k, o.owner)
    decreases ms
  {
    match ms {
      case EndMembers =>
      case Member(e, tail) =>
        NamesInEntryUnder(e, at, k, path, offset);
        NamesInMembersUnder(tail, at, k + 1, path, offset + |EntryText(e)| + 1);
    }
  }

  lemma {:induction false} NamesInEntryUnder(e: Entry, at: seq<nat>, k: nat, path: Text, offset: nat)
    ensures forall o | o in NamesInEntry(e, at, k, path, offset) :: Below(at, k, o.owner) && o.owner[|at|] == k
    decreases e
  {
    NamesUnder(e.v, at + [k], MemberPath(path, CharsValue(e.name)),
               offset + |e.before| + |StringText(e.name)| + |e.gap| + 1 + |e.between|);
    assert forall a: seq<nat> | at + [k] <= a :: a[|at|] == k && at <= a;
  }

  lemma {:induction false} ReportIsFirstRepeat(v: Value, at: seq<nat>, path: Text, offset: nat,
                                               seen: set<(seq<nat>, Text)>)
    requires FreshFor(seen, at)
    ensures DuplicateIn(v, path) == FirstRepeat(Names(v, at, path, offset), seen)
    decreases v
  {
    match v {
      case Arr(items) => ItemsReport(items, at, 0, path, offset + 1, seen);
      case Obj(members) => MembersReport(members, at, 0, path, offset + 1, {}, seen);
      case _ =>
    }
  }

  lemma {:induction false} ItemsReport(xs: Items, at: seq<nat>, k: nat, path: Text, offset: nat,
                                       seen: set<(seq<nat>, Text)>)
    requires FreshBelow(seen, at, k)
    ensures DuplicateInItems(xs, k, path) == FirstRepeat(NamesInItems(xs, at, k, path, offset), seen)
    decreases xs
  {
    hide NamesInElement, ElementText, ElementPath, FreshBelow, Keys, Below;
    match xs {
      case EndItems =>
      case Item(e, tail) =>
        var inner := NamesInElement(e, at, k, path, offset);
        var rest := NamesInItems(tail, at, k + 1, path, offset + |ElementText(e)| + 1);
        FirstRepeatAppend(inner, rest, seen);
        ElementReport(e, at, k, path, offset, seen);
        NamesInElementUnder(e, at, k, path, offset);
        StillFresh(inner, at, k, seen);
        ItemsReport(tail, at, k + 1, path, offset + |ElementText(e)| + 1, seen + Keys(inner));
    }
  }

  /** Names under child `k` leave the later children fresh and the object's own names alone. */
  lemma StillFresh(inner: seq<Occurrence>, at: seq<nat>, k: nat, seen: set<(seq<nat>, Text)>)
    requires FreshBelow(seen, at, k)
    requires forall o | o in inner :: Below(at, k, o.owner) && o.owner[|at|] == k
    ensures FreshBelow(seen + Keys(inner), at, k + 1)
    ensures forall n: Text :: (at, n) in seen + Keys(inner) <==> (at, n) in seen
  {
  }

  lemma FreshWith(at: seq<nat>, k: nat, seen: set<(seq<nat>, Text)>, o: Occurrence)
    requires FreshBelow(seen, at, k) && o.owner == at
    ensures FreshBelow(seen + {Key(o)}, at, k)
  {
  }

  lemma {:induction false} ElementReport(e: Element, at: seq<nat>, k: nat, path: Text, offset: nat,
                                         seen: set<(seq<nat>, Text)>)
    requires FreshBelow(seen, at, k)
    ensures DuplicateIn(e.v, ElementPath(path, k)) == FirstRepeat(NamesInElement(e, at, k, path, offset), seen)
    decreases e
  {
    assert forall x: seq<nat> | at + [k] <= x :: x[|at|] == k && at <= x;
    ReportIsFirstRepeat(e.v, at + [k], ElementPath(path, k), offset + |e.before|, seen);
  }

  lemma {:induction false} MembersReport(ms: Members, at: seq<nat>, k: nat, path: Text, offset: nat,
                                         known: set<Text>, seen: set<(seq<nat>, Text)>)
    requires FreshBelow(seen, at, k)
    requires forall n: Text :: (at, n) in seen <==> n in known
    ensures DuplicateInMembers(ms, known, path) == FirstRepeat(NamesInMembers(ms, at, k, path, offset), seen)
    decreases ms
  {
    hide NamesInEntry, EntryText, MemberPath, CharsValue, FreshBelow, Keys, Below;
    match ms {
      case EndMembers =>
      case Member(e, tail) =>
        var first := NameOf(e, at, path, offset);
        var inner := NamesInEntry(e, at, k, path, offset);
        var rest := NamesInMembers(tail, at, k + 1, path, offset + |EntryText(e)| + 1);
        assert ([first] + (inner + rest))[1..] == inner + rest;
        if CharsValue(e.name) !in known {
          var seen' := seen + {Key(first)};
          FreshWith(at, k, seen, first);
          FirstRepeatAppend(inner, rest, seen');
          EntryReport(e, at, k, path, offset, seen');
          NamesInEntryUnder(e, at, k, path, offset);
          StillFresh(inner, at, k, seen');
          MembersReport(tail, at, k + 1, path, offset + |EntryText(e)| + 1, known + {CharsValue(e.name)},
                        seen' + Keys(inner));
        }
    }
  }

  lemma {:induction false} EntryReport(e: Entry, at: seq<nat>, k: nat, path: Text, offset: nat,
                                       seen: set<(seq<nat>, Text)>)
    requires FreshBelow(seen, at, k)
    ensures DuplicateIn(e.v, MemberPath(path, CharsValue(e.name)))
         == FirstRepeat(NamesInEntry(e, at, k, path, offset), seen)
    decreases e
  {
    assert forall x: seq<nat> | at + [k] <= x :: x[|at|] == k && at <= x;
    ReportIsFirstRepeat(e.v, at + [k], MemberPath(path, CharsValue(e.name)),
                        offset + |e.before| + |StringText(e.name)| + |e.gap| + 1 + |e.between|, seen);
  }

  // ----- where the names stand

  /** A name literal stands at the occurrence's offset and denotes its name. */
  predicate StandsIn(s: Text, o: Occurrence) {
    o.offset < |s| && s[o.offset] == 0x22 &&
    var t := ReadChars(s, o.offset + 1); t.Read? && CharsValue(t.tree) == o.name
  }

  /** The names stand in `s`, one after the other, between `lo` and `hi`. */
  predicate Placed(s: Text, names: seq<Occurrence>, lo: nat, hi: nat) {
    && (forall i | 0 <= i < |names| :: lo <= names[i].offset < hi && StandsIn(s, names[i]))
    && (forall i, j | 0 <= i < j < |names| :: names[i].offset < names[j].offset)
  }

  lemma PlacedAppend(s: Text, a: seq<Occurrence>, b: seq<Occurrence>, lo: nat, mid: nat, hi: nat)
    requires lo <= mid <= hi && Placed(s, a, lo, mid) && Placed(s, b, mid, hi)
    ensures Placed(s, a + b, lo, hi)
  {
    hide StandsIn;
    var c := a + b;
    forall i | 0 <= i < |c| ensures lo <= c[i].offset < hi && StandsIn(s, c[i]) {
      assert c[i] == if i < |a| then a[i] else b[i - |a|];
    }
    forall i, j | 0 <= i < j < |c| ensures c[i].offset < c[j].offset {
      assert c[i] == if i < |a| then a[i] else b[i - |a|];
      assert c[j] == if j < |a| then a[j] else b[j - |a|];
    }
  }

  lemma PlacedWiden(s: Text, a: seq<Occurrence>, lo: nat, hi: nat, lo': nat, hi': nat)
    requires lo' <= lo && hi <= hi' && Placed(s, a, lo, hi)
    ensures Placed(s, a, lo', hi')
  {
    hide StandsIn;
  }

  lemma {:induction false} NamesPlaced(s: Text, v: Value, at: seq<nat>, path: Text, offset: nat)
    requires ValidValue(v) && Has(s, offset, ValueText(v))
    ensures Placed(s, Names(v, at, path, offset), offset, offset + |ValueText(v)|)
    decreases v
  {
    hide Has, Placed, ItemsText, MembersText;
    match v {
      case Arr(items) =>
        HasConcat(s, offset, [0x5B], ItemsText(items));
        ItemsPlaced(s, items, at, 0, path, offset + 1);
        PlacedWiden(s, Names(v, at, path, offset), offset + 1, offset + |ValueText(v)|,
            offset, offset + |ValueText(v)|);
      case Obj(members) =>
        HasConcat(s, offset, [0x7B], MembersText(members));
        MembersPlaced(s, members, at, 0, path, offset + 1);
        PlacedWiden(s, Names(v, at, path, offset), offset + 1, offset + |ValueText(v)|,
            offset, offset + |ValueText(v)|);
      case _ =>
        NonePlaced(s, offset, offset + |ValueText(v)|);
    }
  }

  lemma NonePlaced(s: Text, lo: nat, hi: nat)
    ensures Placed(s, [], lo, hi)
  {
  }

  lemma {:induction false} ItemsPlaced(s: Text, xs: Items, at: seq<nat>, k: nat, path: Text, offset: nat)
    requires ValidItems(xs) && Has(s, offset, ItemsText(xs))
    ensures Placed(s, NamesInItems(xs, at, k, path, offset), offset, offset + |ItemsText(xs)|)
    decreases xs
  {
    hide Has, Placed, ElementText, NamesInElement;
    match xs {
      case EndItems =>
        NonePlaced(s, offset, offset + |ItemsText(xs)|);
      case Item(e, tail) =>
        HasConcat(s, offset, ElementText(e), ItemsRest(tail));
        var j := offset + |ElementText(e)|;
        var inner, rest := NamesInElement(e, at, k, path, offset), NamesInItems(tail, at, k + 1, path, j + 1);
        ElementPlaced(s, e, at, k, path, offset);
        if tail.Item? {
          HasConcat(s, j, [0x2C], ItemsText(tail));
          ItemsPlaced(s, tail, at, k + 1, path, j + 1);
          PlacedWiden(s, rest, j + 1, offset + |ItemsText(xs)|, j, offset + |ItemsText(xs)|);
        } else {
          NonePlaced(s, j, offset + |ItemsText(xs)|);
        }
        PlacedAppend(s, inner, rest, offset, j, offset + |ItemsText(xs)|);
    }
  }

  lemma {:induction false} ElementPlaced(s: Text, e: Element, at: seq<nat>, k: nat, path: Text, offset: nat)
    requires ValidElement(e) && Has(s, offset, ElementText(e))
    ensures Placed(s, NamesInElement(e, at, k, path, offset), offset, offset + |ElementText(e)|)
    decreases e
  {
    hide Has, Placed, ValueText, ValidValue;
    HasConcat(s, offset, e.before, ValueText(e.v) + e.after);
    var j := offset + |e.before|;
    HasConcat(s, j, ValueText(e.v), e.after);
    NamesPlaced(s, e.v, at + [k], ElementPath(path, k), j);
    PlacedWiden(s, NamesInElement(e, at, k, path, offset), j, j + |ValueText(e.v)|, offset, offset + |ElementText(e)|);
  }

  lemma {:induction false} MembersPlaced(s: Text, ms: Members, at: seq<nat>, k: nat, path: Text, offset: nat)
    requires ValidMembers(ms) && Has(s, offset, MembersText(ms))
    ensures Placed(s, NamesInMembers(ms, at, k, path, offset), offset, offset + |MembersText(ms)|)
    decreases ms
  {
    hide Has, Placed, EntryText, NamesInEntry, NameOf, ValidEntry;
    match ms {
      case EndMembers =>
        NonePlaced(s, offset, offset + |MembersText(ms)|);
      case Member(e, tail) =>
        HasConcat(s, offset, EntryText(e), MembersRest(tail));
        var j := offset + |EntryText(e)|;
        HasFirst(s, j, MembersRest(tail));
        var first, inner := [NameOf(e, at, path, offset)], NamesInEntry(e, at, k, path, offset);
        var rest := NamesInMembers(tail, at, k + 1, path, j + 1);
        var end := offset + |MembersText(ms)|;
        EntryPlaced(s, e, at, k, path, offset);
        if tail.Member? {
          HasConcat(s, j, [0x2C], MembersText(tail));
          MembersPlaced(s, tail, at, k + 1, path, j + 1);
          PlacedWiden(s, rest, j + 1, end, j, end);
        } else {
          NonePlaced(s, j, end);
        }
        PlacedAppend(s, first + inner, rest, offset, j, end);
        assert (first + inner) + rest == first + (inner + rest);
    }
  }

  lemma {:induction false} EntryPlaced(s: Text, e: Entry, at: seq<nat>, k: nat, path: Text, offset: nat)
    requires ValidEntry(e) && Has(s, offset, EntryText(e)) && Delimits(At(s, offset + |EntryText(e)|))
    ensures Placed(s, [NameOf(e, at, path, offset)] + NamesInEntry(e, at, k, path, offset),
        offset, offset + |EntryText(e)|)
    decreases e
  {
    hide Has, Placed, ValueText, ValidValue, CharsValue, ReadChars, MemberPath, EntryText, StringText;
    var a, n, c, d, v := EntrySplit(s, offset, e);
    HasConcat(s, d, ValueText(e.v), e.after);
    NamesPlaced(s, e.v, at + [k], MemberPath(path, CharsValue(e.name)), d);
    var end := offset + |EntryText(e)|;
    PlacedWiden(s, NamesInEntry(e, at, k, path, offset), d, v, d, end);
    NamePlaced(s, e, at, path, offset, d);
    PlacedAppend(s, [NameOf(e, at, path, offset)], NamesInEntry(e, at, k, path, offset), offset, d, end);
  }

  lemma NamePlaced(s: Text, e: Entry, at: seq<nat>, path: Text, offset: nat, hi: nat)
    requires ValidEntry(e) && Has(s, offset, e.before) && Has(s, offset + |e.before|, StringText(e.name))
    requires offset + |e.before| < hi
    ensures Placed(s, [NameOf(e, at, path, offset)], offset, hi)
  {
    hide Has, ValueText, ValidValue, CharsValue, ReadChars;
    NameComplete(s, offset, e.before, e.name);
  }

  // ----- the main result

  /** On valid JSON the names listed are in text order, a duplicate is reported exactly when some object
      has two members with equal unescaped names, and the one reported is the first name in the text
      that repeats an earlier name of its object. */
  lemma EarliestDuplicateReported(s: Text)
    requires ReadDocument(s).Some?
    ensures var d := ReadDocument(s).value;
            var names, r := DocumentNames(d), DuplicateIn(d.v, ROOT);
            && Placed(s, names, 0, |s|)
            && (r.None? ==> forall k | 0 <= k < |names| :: !Repeats(names, k))
            && (r.Some? ==> exists k :: 0 <= k < |names| && IsFirstRepeat(names, k)
                                     && r.value == Issue(names[k].name, names[k].path))
  {
    hide Has, Placed, ReadDocument, ValueText, ValidValue, DuplicateIn, Names;
    var d := ReadDocument(s).value;
    DocumentSound(s);
    var i, j := DocumentSplit(d);
    NamesPlaced(s, d.v, [], ROOT, i);
    var names := DocumentNames(d);
    PlacedWiden(s, names, i, j, 0, |s|);
    ReportIsFirstRepeat(d.v, [], ROOT, i, {});
    FirstRepeatMeans(names, 0);
    assert names[0..] == names && names[..0] == [];
    assert Keys([]) == {};
  }
}
