/** The bounded sync traversal of daemon/cmd/symmetry-linux-clone-bootstrap/filesystem_linux_amd64.go:
    what it accepts, and in which order it syncs. A checkout is a tree; an fsync appends to a log the
    address of what it synced, the position taken in each directory on the way down. */
module SyncTree {
  import opened Options

  const MAX_ENTRIES: nat := 250_000
  const MAX_DEPTH: nat := 32
  const MAX_BYTES: nat := 0x1_0000_0000

  type Int64 = n: int | -0x8000_0000_0000_0000 <= n <= 0x7FFF_FFFF_FFFF_FFFF

  datatype Node = Directory(entries: seq<Entry>) | File(size: Int64) | Symlink | Special

  datatype Entry = Entry(name: string, node: Node)

  type Address = seq<nat>

  // ----- measures of a tree

  /** Entries below `d`, the directory itself not among them. */
  function Count(d: Node): nat {
    if d.Directory? then CountFirst(d, |d.entries|) else 0
  }

  /** Entries found under the first `n` entries of `d`, those included. */
  function CountFirst(d: Node, n: nat): nat
    requires d.Directory? && n <= |d.entries|
    decreases d, 0, n
  {
    if n == 0 then 0 else CountFirst(d, n - 1) + 1 + Count(d.entries[n - 1].node)
  }

  function Bytes(d: Node): int {
    match d
    case Directory(entries) => BytesFirst(d, |entries|)
    case File(size) => size
    case _ => 0
  }

  function BytesFirst(d: Node, n: nat): int
    requires d.Directory? && n <= |d.entries|
    decreases d, 0, n
  {
    if n == 0 then 0 else BytesFirst(d, n - 1) + Bytes(d.entries[n - 1].node)
  }

  function Max(a: int, b: int): int { if a < b then b else a }

  /** Directories nested below `d`; -1 for what is not a directory. */
  function Height(d: Node): (h: int)
    ensures h >= -1 && (d.Directory? ==> h >= 0)
  {
    if d.Directory? then HeightFirst(d, |d.entries|) else -1
  }

  function HeightFirst(d: Node, n: nat): (h: int)
    requires d.Directory? && n <= |d.entries|
    ensures h >= 0
    decreases d, 0, n
  {
    if n == 0 then 0 else Max(HeightFirst(d, n - 1), 1 + Height(d.entries[n - 1].node))
  }

  /** Only files, directories and symlinks, with safe names and no negative size. */
  predicate Clean(d: Node) {
    match d
    case Directory(entries) => CleanFirst(d, |entries|)
    case File(size) => size >= 0
    case Symlink => true
    case Special => false
  }

  predicate CleanFirst(d: Node, n: nat)
    requires d.Directory? && n <= |d.entries|
    decreases d, 0, n
  {
    n == 0 || (CleanFirst(d, n - 1) && SafeName(d.entries[n - 1].name) && Clean(d.entries[n - 1].node))
  }

  predicate SafeName(name: string) { name != "" && name != "." && name != ".." }

  lemma BytesNonnegative(d: Node)
    requires Clean(d)
    ensures Bytes(d) >= 0
  {
    if d.Directory? { BytesFirstGrows(d, 0, |d.entries|); }
  }

  lemma {:induction false} BytesFirstGrows(d: Node, m: nat, n: nat)
    requires d.Directory? && m <= n <= |d.entries| && CleanFirst(d, n)
    ensures BytesFirst(d, m) <= BytesFirst(d, n)
    decreases d, 0, n
  {
    if m < n {
      BytesFirstGrows(d, m, n - 1);
      BytesNonnegative(d.entries[n - 1].node);
    }
  }

  // ----- the sync order

  function PostOrder(d: Node, at: Address): seq<Address>
    decreases d, 1
  {
    match d
    case Directory(entries) => PostOrderFirst(d, |entries|, at) + [at]
    case File(_) => [at]
    case _ => []
  }

  function PostOrderFirst(d: Node, n: nat, at: Address): seq<Address>
    requires d.Directory? && n <= |d.entries|
    decreases d, 0, n
  {
    if n == 0 then [] else PostOrderFirst(d, n - 1, at) + PostOrder(d.entries[n - 1].node, at + [n - 1])
  }

  /** `rel` leads from `d` to a file or a directory. */
  predicate Syncable(d: Node, rel: Address)
    decreases |rel|
  {
    if rel == [] then d.Directory? || d.File?
    else d.Directory? && rel[0] < |d.entries| && Syncable(d.entries[rel[0]].node, rel[1..])
  }

  lemma {:induction false} SyncedSound(d: Node, at: Address, a: Address)
    requires a in PostOrder(d, at)
    ensures at <= a && Syncable(d, a[|at|..])
    decreases d, 1
  {
    if d.Directory? && a in PostOrderFirst(d, |d.entries|, at) {
      SyncedFirstSound(d, |d.entries|, at, a);
    }
  }

  lemma {:induction false} SyncedFirstSound(d: Node, n: nat, at: Address, a: Address)
    requires d.Directory? && n <= |d.entries| && a in PostOrderFirst(d, n, at)
    ensures at < a && a[|at|] < n && Syncable(d, a[|at|..])
    decreases d, 0, n
  {
    if a in PostOrderFirst(d, n - 1, at) {
      SyncedFirstSound(d, n - 1, at, a);
    } else {
      SyncedSound(d.entries[n - 1].node, at + [n - 1], a);
      assert a[|at|] == (at + [n - 1])[|at|] == n - 1;
      assert a[..|at|] == (at + [n - 1])[..|at|] == at;
      assert a[|at|..][1..] == a[|at + [n - 1]|..];
    }
  }

  lemma {:induction false} SyncedComplete(d: Node, at: Address, rel: Address)
    requires Syncable(d, rel)
    ensures at + rel in PostOrder(d, at)
    decreases |rel|
  {
    if rel == [] {
      assert at + rel == at;
    } else {
      var k := rel[0];
      SyncedComplete(d.entries[k].node, at + [k], rel[1..]);
      assert at + [k] + rel[1..] == at + rel;
      FirstContains(d, |d.entries|, at, k, at + rel);
    }
  }

  lemma {:induction false} FirstContains(d: Node, n: nat, at: Address, k: nat, a: Address)
    requires d.Directory? && k < n <= |d.entries| && a in PostOrder(d.entries[k].node, at + [k])
    ensures a in PostOrderFirst(d, n, at)
    decreases n
  {
    if k < n - 1 { FirstContains(d, n - 1, at, k, a); }
  }

  /** Nothing is a prefix of what comes later: nothing occurs twice and no directory precedes what it
      contains. */
  predicate ChildrenFirst(log: seq<Address>) {
    forall i, j | 0 <= i < j < |log| :: !(log[i] <= log[j])
  }

  lemma {:induction false} PostOrderChildrenFirst(d: Node, at: Address)
    ensures ChildrenFirst(PostOrder(d, at))
    decreases d, 1
  {
    if d.Directory? {
      var inner := PostOrderFirst(d, |d.entries|, at);
      PostOrderFirstChildrenFirst(d, |d.entries|, at);
      forall i | 0 <= i < |inner| ensures !(inner[i] <= at) {
        SyncedFirstSound(d, |d.entries|, at, inner[i]);
      }
    }
  }

  lemma {:induction false} PostOrderFirstChildrenFirst(d: Node, n: nat, at: Address)
    requires d.Directory? && n <= |d.entries|
    ensures ChildrenFirst(PostOrderFirst(d, n, at))
    decreases d, 0, n
  {
    if n > 0 {
      var left, right := PostOrderFirst(d, n - 1, at), PostOrder(d.entries[n - 1].node, at + [n - 1]);
      PostOrderFirstChildrenFirst(d, n - 1, at);
      PostOrderChildrenFirst(d.entries[n - 1].node, at + [n - 1]);
      forall i, j | 0 <= i < |left| && 0 <= j < |right| ensures !(left[i] <= right[j]) {
        SyncedFirstSound(d, n - 1, at, left[i]);
        SyncedSound(d.entries[n - 1].node, at + [n - 1], right[j]);
        assert right[j][|at|] == (at + [n - 1])[|at|] == n - 1;
      }
      ChildrenFirstConcat(left, right);
    }
  }

  lemma ChildrenFirstConcat(left: seq<Address>, right: seq<Address>)
    requires ChildrenFirst(left) && ChildrenFirst(right)
    requires forall i, j | 0 <= i < |left| && 0 <= j < |right| :: !(left[i] <= right[j])
    ensures ChildrenFirst(left + right)
  {
    var both := left + right;
    forall i, j | 0 <= i < j < |both| ensures !(both[i] <= both[j]) {
      if i < |left| <= j {
        assert both[j] == right[j - |left|];
      } else if |left| <= i {
        assert both[i] == right[i - |left|] && both[j] == right[j - |left|];
      }
    }
  }

  // ----- the traversal

  datatype Error = TooDeep | UnsafeName | TooManyEntries | TooManyBytes | UnsupportedKind

  /** The bounds left for `d` met at `depth` after `entries` entries and `bytes` bytes. */
  predicate Fits(d: Node, depth: nat, entries: nat, bytes: int) {
    && Clean(d)
    && depth + Height(d) <= MAX_DEPTH
    && entries + Count(d) <= MAX_ENTRIES
    && bytes + Bytes(d) <= MAX_BYTES
  }

  predicate FitsFirst(d: Node, n: nat, depth: nat, entries: nat, bytes: int)
    requires d.Directory? && n <= |d.entries|
  {
    && CleanFirst(d, n)
    && depth + HeightFirst(d, n) <= MAX_DEPTH
    && entries + CountFirst(d, n) <= MAX_ENTRIES
    && bytes + BytesFirst(d, n) <= MAX_BYTES
  }

  /** A directory that breaks a bound early stays over it. */
  lemma {:induction false} FitsMonotone(d: Node, m: nat, n: nat, depth: nat, entries: nat, bytes: int)
    requires d.Directory? && m <= n <= |d.entries| && FitsFirst(d, n, depth, entries, bytes)
    ensures FitsFirst(d, m, depth, entries, bytes)
    decreases n
  {
    if m < n {
      BytesFirstGrows(d, n - 1, n);
      FitsMonotone(d, m, n - 1, depth, entries, bytes);
    }
  }

  /** What one more entry needs. */
  lemma FitsNext(d: Node, n: nat, depth: nat, entries: nat, bytes: int)
    requires d.Directory? && n < |d.entries| && FitsFirst(d, n, depth, entries, bytes)
    ensures FitsFirst(d, n + 1, depth, entries, bytes) <==>
            && SafeName(d.entries[n].name)
            && entries + CountFirst(d, n) + 1 <= MAX_ENTRIES
            && Fits(d.entries[n].node, depth + 1, entries + CountFirst(d, n) + 1, bytes + BytesFirst(d, n))
  {
  }

  lemma {:induction false} PrefixFirst(d: Node, m: nat, n: nat, at: Address)
    requires d.Directory? && m <= n <= |d.entries|
    ensures PostOrderFirst(d, m, at) <= PostOrderFirst(d, n, at)
    decreases n
  {
    if m < n { PrefixFirst(d, m, n - 1, at); }
  }

  /** What an error says of the entries reached so far. */
  predicate Justified(e: Error, clean: bool, height: int, entries: int, bytes: int) {
    match e
    case TooDeep => height > MAX_DEPTH
    case UnsafeName => !clean
    case TooManyEntries => entries > MAX_ENTRIES
    case TooManyBytes => clean ==> bytes > MAX_BYTES
    case UnsupportedKind => !clean
  }

  predicate JustifiedFirst(e: Error, d: Node, n: nat, depth: nat, entries: nat, bytes: int)
    requires d.Directory? && n <= |d.entries|
  {
    Justified(e, CleanFirst(d, n), depth + HeightFirst(d, n), entries + CountFirst(d, n), bytes + BytesFirst(d, n))
  }

  /** An error over some of the entries is one over all of them. */
  lemma {:induction false} JustifiedGrows(e: Error, d: Node, m: nat, n: nat, depth: nat, entries: nat, bytes: int)
    requires d.Directory? && m <= n <= |d.entries| && JustifiedFirst(e, d, m, depth, entries, bytes)
    ensures JustifiedFirst(e, d, n, depth, entries, bytes)
    decreases n
  {
    if m < n {
      JustifiedGrows(e, d, m, n - 1, depth, entries, bytes);
      if CleanFirst(d, n) { BytesNonnegative(d.entries[n - 1].node); }
    }
  }

  /** The two counters and the syncs made so far. */
  class Traversal {
    var entries: nat
    var totalBytes: Int64
    var log: seq<Address>

    ghost predicate Bounded()
      reads this
    {
      entries <= MAX_ENTRIES + 1 && 0 <= totalBytes <= MAX_BYTES
    }

    constructor ()
      ensures Bounded() && entries == 0 && totalBytes == 0 && log == []
    {
      entries, totalBytes, log := 0, 0, [];
    }

    /** `syncCloneDirectory`: success exactly within the bounds; an error names a bound that is broken;
        what was synced is at all times a first part of the tree's post-order. */
    method SyncDirectory(d: Node, depth: nat, at: Address) returns (error: Option<Error>)
      requires Bounded() && d.Directory? && entries <= MAX_ENTRIES
      modifies this
      ensures Bounded()
      ensures error.None? <==> Fits(d, depth, old(entries), old(totalBytes))
      ensures error.None? ==> entries == old(entries) + Count(d) && totalBytes == old(totalBytes) + Bytes(d)
      ensures error.None? ==> log == old(log) + PostOrder(d, at)
      ensures error.Some? ==> JustifiedFirst(error.value, d, |d.entries|, depth, old(entries), old(totalBytes))
      ensures old(log) <= log <= old(log) + PostOrder(d, at)
      decreases d, 1
    {
      hide Count, CountFirst, Bytes, BytesFirst, Height, HeightFirst, Clean, CleanFirst, PostOrder, PostOrderFirst;
      DirectoryMeasures(d, at);
      ghost var before, bytes, synced := entries, totalBytes, log;
      if depth > MAX_DEPTH { return Some(TooDeep); }
      EmptyMeasures(d, at);
      var n := 0;
      while n < |d.entries|
        invariant n <= |d.entries| && Bounded()
        invariant FitsFirst(d, n, depth, before, bytes)
        invariant entries == before + CountFirst(d, n) && totalBytes == bytes + BytesFirst(d, n)
        invariant log == synced + PostOrderFirst(d, n, at)
      {
        FitsNext(d, n, depth, before, bytes);
        PrefixFirst(d, n + 1, |d.entries|, at);
        NextMeasures(d, n, at);
        error := SyncEntry(d, n, depth, at);
        if error.Some? {
          if Fits(d, depth, before, bytes) { FitsMonotone(d, n + 1, |d.entries|, depth, before, bytes); }
          JustifiedGrows(error.value, d, n + 1, |d.entries|, depth, before, bytes);
          return;
        }
        n := n + 1;
      }
      log := log + [at];
      return None;
    }

    /** One turn of the loop: entry `n` of `d`. */
    method SyncEntry(d: Node, n: nat, depth: nat, at: Address) returns (error: Option<Error>)
      requires Bounded() && d.Directory? && n < |d.entries| && entries <= MAX_ENTRIES && depth <= MAX_DEPTH
      modifies this
      ensures Bounded()
      ensures error.None? <==>
              && SafeName(d.entries[n].name)
              && old(entries) + 1 <= MAX_ENTRIES
              && Fits(d.entries[n].node, depth + 1, old(entries) + 1, old(totalBytes))
      ensures error.None? ==> entries == old(entries) + 1 + Count(d.entries[n].node)
      ensures error.None? ==> totalBytes == old(totalBytes) + Bytes(d.entries[n].node)
      ensures error.None? ==> log == old(log) + PostOrder(d.entries[n].node, at + [n])
      ensures error.Some? ==>
                var x := d.entries[n];
                Justified(error.value, SafeName(x.name) && Clean(x.node), depth + 1 + Height(x.node),
                          old(entries) + 1 + Count(x.node), old(totalBytes) + Bytes(x.node))
      ensures old(log) <= log <= old(log) + PostOrder(d.entries[n].node, at + [n])
      decreases d, 0
    {
      var x := d.entries[n];
      if x.name == "" || x.name == "." || x.name == ".." { return Some(UnsafeName); }
      entries := entries + 1;
      if entries > MAX_ENTRIES { return Some(TooManyEntries); }
      match x.node
      case Directory(_) =>
        error := SyncDirectory(x.node, depth + 1, at + [n]);
      case File(size) =>
        if size < 0 || size > MAX_BYTES - totalBytes { return Some(TooManyBytes); }
        totalBytes := totalBytes + size;
        log := log + [at + [n]];
        return None;
      case Symlink =>
        return None;
      case Special =>
        return Some(UnsupportedKind);
    }
  }

  lemma DirectoryMeasures(d: Node, at: Address)
    requires d.Directory?
    ensures Count(d) == CountFirst(d, |d.entries|) && Bytes(d) == BytesFirst(d, |d.entries|)
    ensures Height(d) == HeightFirst(d, |d.entries|) && Clean(d) == CleanFirst(d, |d.entries|)
    ensures PostOrder(d, at) == PostOrderFirst(d, |d.entries|, at) + [at]
  {
  }

  lemma EmptyMeasures(d: Node, at: Address)
    requires d.Directory?
    ensures CountFirst(d, 0) == 0 && BytesFirst(d, 0) == 0 && HeightFirst(d, 0) == 0 && CleanFirst(d, 0)
    ensures PostOrderFirst(d, 0, at) == []
  {
  }

  lemma NextMeasures(d: Node, n: nat, at: Address)
    requires d.Directory? && n < |d.entries|
    ensures var x := d.entries[n];
            && CountFirst(d, n + 1) == CountFirst(d, n) + 1 + Count(x.node)
            && BytesFirst(d, n + 1) == BytesFirst(d, n) + Bytes(x.node)
            && HeightFirst(d, n + 1) == Max(HeightFirst(d, n), 1 + Height(x.node))
            && CleanFirst(d, n + 1) == (CleanFirst(d, n) && SafeName(x.name) && Clean(x.node))
            && PostOrderFirst(d, n + 1, at) == PostOrderFirst(d, n, at) + PostOrder(x.node, at + [n])
  {
  }

  /** `syncCloneTree` on the root directory. It succeeds exactly on a tree with at most 250,000 entries,
      directories nested at most 32 deep, at most 4 GiB of files and nothing but files, directories and
      symlinks. It has then synced every file and directory once, and nothing else, each directory after
      all it contains. */
  method SyncCloneTree(root: Node) returns (error: Option<Error>, log: seq<Address>)
    requires root.Directory?
    ensures error.None? <==>
            Clean(root) && Height(root) <= 32 && Count(root) <= 250_000 && Bytes(root) <= 4 * 1024 * 1024 * 1024
    ensures error.None? ==> ChildrenFirst(log) && forall a :: a in log <==> Syncable(root, a)
    ensures error.Some? ==> ChildrenFirst(log) && forall a :: a in log ==> Syncable(root, a)
    ensures error.Some? ==> Justified(error.value, Clean(root), Height(root), Count(root), Bytes(root))
  {
    hide PostOrder, Syncable, ChildrenFirst, Clean, Height, Count, Bytes;
    var traversal := new Traversal();
    error := traversal.SyncDirectory(root, 0, []);
    log := traversal.log;
    DirectoryMeasures(root, []);
    PostOrderMeans(root, log);
  }

  lemma PostOrderMeans(root: Node, log: seq<Address>)
    requires log <= PostOrder(root, [])
    ensures ChildrenFirst(log) && forall a :: a in log ==> Syncable(root, a)
    ensures log == PostOrder(root, []) ==> forall a :: a in log <==> Syncable(root, a)
  {
    PostOrderChildrenFirst(root, []);
    forall a | a in log ensures Syncable(root, a) {
      SyncedSound(root, [], a);
      assert a[0..] == a;
    }
    if log == PostOrder(root, []) {
      forall a | Syncable(root, a) ensures a in log {
        SyncedComplete(root, [], a);
        assert [] + a == a;
      }
    }
  }
}

/** `pathOverlaps` on clean absolute paths. */
module ClonePaths {

  /** A path is the list of its components; the root directory has none. */
  type Path = seq<string>

  predicate IsComponent(c: string) { c != "" && '/' !in c }

  predicate IsPath(p: Path) { forall c | c in p :: IsComponent(c) }

  function Joined(p: Path): string { if p == [] then "" else "/" + p[0] + Joined(p[1..]) }

  function PathText(p: Path): string { if p == [] then "/" else Joined(p) }

  function PathOverlaps(left: string, right: string): bool {
    left == right || right + "/" <= left || left + "/" <= right
  }

  /** A component ends at the first separator. */
  lemma SplitAtSeparator(a: string, u: string, b: string, v: string)
    requires '/' !in a && '/' !in b && u != "" && u[0] == '/' && (v == "" || v[0] == '/')
    ensures a + u <= b + v <==> a == b && u <= v
  {
    var x, y := a + u, b + v;
    if x <= y {
      assert y[|a|] == x[|a|] == '/';
      assert forall i | 0 <= i < |b| :: y[i] == b[i] && b[i] in b;
      assert forall i | 0 <= i < |a| :: y[i] == x[i] == a[i] && a[i] in a;
      assert |b| < |y| ==> y[|b|] == v[0];
      assert |a| == |b|;
      assert a == x[..|a|] == y[..|a|] == b;
      assert u == x[|a|..] && v == y[|a|..];
    }
  }

  lemma PrefixAfterSeparator(x: string, y: string)
    ensures "/" + x <= "/" + y <==> x <= y
    ensures "/" + x == "/" + y <==> x == y
  {
    assert ("/" + x)[1..] == x && ("/" + y)[1..] == y;
  }

  lemma JoinedHead(p: Path)
    requires p != []
    ensures Joined(p) == "/" + (p[0] + Joined(p[1..]))
    ensures Joined(p) + "/" == "/" + (p[0] + (Joined(p[1..]) + "/"))
  {
  }

  lemma JoinedStart(p: Path)
    ensures Joined(p) == "" || Joined(p)[0] == '/'
    ensures Joined(p) + "/" != "" && (Joined(p) + "/")[0] == '/'
  {
  }

  lemma PathHead(a: Path, b: Path)
    requires a != [] && b != []
    ensures a < b <==> a[0] == b[0] && a[1..] < b[1..]
    ensures a == b <==> a[0] == b[0] && a[1..] == b[1..]
    ensures IsPath(a) ==> IsComponent(a[0]) && IsPath(a[1..])
  {
    assert a == [a[0]] + a[1..] && b == [b[0]] + b[1..];
    assert a[0] in a;
  }

  /** The separator test is exactly strict component prefix. */
  lemma {:induction false} PrefixIsComponents(a: Path, b: Path)
    requires IsPath(a) && IsPath(b)
    ensures Joined(a) + "/" <= Joined(b) <==> a < b
    decreases |a|
  {
    if a != [] && b != [] {
      hide Joined, IsPath;
      PathHead(a, b);
      PathHead(b, a);
      PrefixIsComponents(a[1..], b[1..]);
      JoinedStart(a[1..]);
      JoinedStart(b[1..]);
      SplitAtSeparator(a[0], Joined(a[1..]) + "/", b[0], Joined(b[1..]));
      JoinedHead(a);
      JoinedHead(b);
      PrefixAfterSeparator(a[0] + (Joined(a[1..]) + "/"), b[0] + Joined(b[1..]));
    } else {
      JoinedStart(b);
    }
  }

  lemma {:induction false} JoinedInjective(a: Path, b: Path)
    requires IsPath(a) && IsPath(b) && |a| <= |b| && Joined(a) == Joined(b)
    ensures a == b
  {
    PrefixIsComponents(a, b + ["x"]);
    PrefixIsComponents(b, a + ["x"]);
    JoinedEnd(a, "x");
    JoinedEnd(b, "x");
    assert a == (b + ["x"])[..|a|];
  }

  lemma {:induction false} JoinedEnd(p: Path, c: string)
    ensures Joined(p + [c]) == Joined(p) + "/" + c
  {
    if p == [] {
      assert p + [c] == [c] && [c][1..] == [];
    } else {
      JoinedEnd(p[1..], c);
      assert (p + [c])[1..] == p[1..] + [c];
    }
  }

  lemma {:induction false} RootIsNoPrefix(b: Path)
    requires IsPath(b)
    ensures !("//" <= PathText(b)) && (PathText(b) == "/" <==> b == [])
  {
    if b != [] {
      assert b[0] in b && b[0][0] in b[0];
      assert PathText(b)[1] == b[0][0];
    }
  }

  /** One path contains the other: exactly what the test finds, unless one of the two is the root
      directory and the other is not. */
  lemma {:induction false} OverlapExact(a: Path, b: Path)
    requires IsPath(a) && IsPath(b)
    ensures PathOverlaps(PathText(a), PathText(b)) <==> (a <= b || b <= a) && (a == [] <==> b == [])
  {
    RootIsNoPrefix(a);
    RootIsNoPrefix(b);
    assert "/" + "/" == "//";
    if a != [] && b != [] {
      PrefixIsComponents(a, b);
      PrefixIsComponents(b, a);
      assert (a <= b <==> a < b || a == b) && (b <= a <==> b < a || a == b);
      if PathText(a) == PathText(b) {
        if |a| <= |b| { JoinedInjective(a, b); } else { JoinedInjective(b, a); }
      }
    }
  }

  /** Below the root directory the test is containment. */
  lemma OverlapBelowRoot(a: Path, b: Path)
    requires IsPath(a) && IsPath(b) && a != [] && b != []
    ensures PathOverlaps(PathText(a), PathText(b)) <==> a <= b || b <= a
  {
    OverlapExact(a, b);
  }

  /** The root directory contains every path, and the test says it overlaps none but itself. */
  lemma RootOverlapMissed()
    ensures IsPath([]) && IsPath(["a"]) && [] <= ["a"] && !PathOverlaps(PathText([]), PathText(["a"]))
  {
    OverlapExact([], ["a"]);
  }
}
