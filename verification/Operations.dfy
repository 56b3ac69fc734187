/** Metadata operations on a committed tree: moving paths, and promoting pointers to content. */
module Operations {
  import opened Paths
  import opened Trees
  import opened Splice
  import Builder
  import Frames
  import Query
  import Rebuild

  // ---- Conflicting staged additions -----------------------------------------

  /** No path lies below the one just before it. */
  predicate NeighboursFree(xs: seq<Item>) {
    forall i :: 0 < i < |xs| ==> !(xs[i - 1].path < xs[i].path)
  }

  /** Some listed path continues the text of `p` with a character before the slash, so it
      sorts between `p` and everything below `p`. */
  ghost predicate Screened(adds: seq<Item>, p: Path) {
    exists r :: r in PathsOf(adds) && Lt(Join(p), Join(r)) && Lt(Join(r), Join(p) + "/")
  }

  /** `_reject_conflicting_adds`: looks at neighbours in string order only.  It rejects
      exactly when some path has another below it and none that screens it. */
  method RejectConflicting(adds: seq<Item>) returns (rejected: bool)
    requires forall a :: a in adds ==> a.path != []
    ensures rejected <==>
      exists p, q :: p in PathsOf(adds) && q in PathsOf(adds) && p < q && !Screened(adds, p)
    ensures rejected ==> !PrefixFree(adds)
  {
    var sorted := Rebuild.SortByPath(adds);
    MissedExactly(adds);
    hide Rebuild.SortByPath, Screened, PrefixFree;
    var i := 1;
    while i < |sorted|
      invariant 1 <= i && forall j :: 0 < j < i && j < |sorted| ==> !(sorted[j - 1].path < sorted[j].path)
    {
      if sorted[i - 1].path < sorted[i].path {
        rejected := true;
        ScreenedOrNot(adds);
        return;
      }
      i := i + 1;
    }
    return false;
  }

  lemma ScreenedOrNot(adds: seq<Item>)
    ensures (exists p, q :: p in PathsOf(adds) && q in PathsOf(adds) && p < q && !Screened(adds, p)) ==> !PrefixFree(adds)
  {
    hide Screened;
  }

  /** The neighbour check lets additions pass exactly when every path that has another
      below it is screened. */
  lemma MissedExactly(adds: seq<Item>)
    requires forall a :: a in adds ==> a.path != []
    ensures NeighboursFree(Rebuild.SortByPath(adds)) <==>
            forall p, q :: p in PathsOf(adds) && q in PathsOf(adds) && p < q ==> Screened(adds, p)
  {
    var sorted := Rebuild.SortByPath(adds);
    Rebuild.SortByPathSpec(adds);
    hide *;
    if NeighboursFree(sorted) {
      forall p, q | p in PathsOf(adds) && q in PathsOf(adds) && p < q ensures Screened(adds, p) {
        NotEmpty(adds, p);
        NextScreens(adds, sorted, p, q);
      }
    } else {
      var i := BrokenPair(adds, sorted);
      NotEmpty(adds, sorted[i - 1].path);
      NoneBetween(adds, sorted, i);
    }
  }

  lemma BrokenPair(adds: seq<Item>, sorted: seq<Item>) returns (i: nat)
    requires !NeighboursFree(sorted) && PathsOf(sorted) == PathsOf(adds)
    ensures 0 < i < |sorted| && sorted[i - 1].path < sorted[i].path
    ensures sorted[i - 1].path in PathsOf(adds) && sorted[i].path in PathsOf(adds)
  {
    i :| 0 < i < |sorted| && sorted[i - 1].path < sorted[i].path;
    assert sorted[i - 1] in sorted && sorted[i] in sorted;
  }

  lemma NotEmpty(adds: seq<Item>, p: Path)
    requires forall a :: a in adds ==> a.path != []
    requires p in PathsOf(adds)
    ensures p != []
  {
  }

  /** Behind the last copy of `p` in string order comes a path that screens it, unless it
      lies below `p`. */
  lemma NextScreens(adds: seq<Item>, sorted: seq<Item>, p: Path, q: Path)
    requires Rebuild.Rising(sorted) && PathsOf(sorted) == PathsOf(adds) && NeighboursFree(sorted)
    requires p in PathsOf(adds) && q in PathsOf(adds) && p < q && p != []
    ensures Screened(adds, p)
  {
    JoinPrefix(p, q);
    var k :| 0 <= k < |sorted| && sorted[k].path == q;
    var j :| 0 <= j < |sorted| && sorted[j].path == p;
    Rebuild.Extends(Join(p), Join(q)[|Join(p)|..]);
    assert Join(p) + Join(q)[|Join(p)|..] == Join(q);
    var i := LastCopy(sorted, j, k);
    assert Place(Join(sorted[i].path)) == Place(Join(p));
    PlaceInjective();
    assert Join(sorted[i].path) == Join(p);
    var next := sorted[i + 1];
    assert next in sorted && next.path in PathsOf(adds);
    if !Lt(Join(next.path), Join(p) + "/") {
      SlashBetween(Join(p), Join(next.path), Join(q));
      assert sorted[i] in sorted && sorted[i].path != [] by {
        if sorted[i].path == [] {
          assert Join(p) == "";
          NonEmptyJoin(p);
        }
      }
      JoinPrefix(sorted[i].path, next.path);
      assert false;
    }
  }

  lemma NonEmptyJoin(p: Path)
    requires p != []
    ensures Join(p) != ""
  {
    assert p[0] != "";
  }

  /** The last place in the order before `k` that has the text of place `j`. */
  lemma {:induction false} LastCopy(sorted: seq<Item>, j: nat, k: nat) returns (i: nat)
    requires Rebuild.Rising(sorted) && j < |sorted| && k < |sorted|
    requires Lt(Join(sorted[j].path), Join(sorted[k].path))
    ensures i < k && Place(Join(sorted[i].path)) == Place(Join(sorted[j].path))
    ensures Lt(Join(sorted[j].path), Join(sorted[i + 1].path)) && !Lt(Join(sorted[k].path), Join(sorted[i + 1].path))
    decreases k - j
  {
    assert j < k;
    if Lt(Join(sorted[j].path), Join(sorted[j + 1].path)) {
      i := j;
    } else {
      i := LastCopy(sorted, j + 1, k);
    }
  }

  lemma SlashBetween(a: string, b: string, c: string)
    requires a + "/" <= c && !Lt(b, a + "/") && !Lt(c, b)
    ensures a + "/" <= b
  {
    PlaceInjective();
    if b != c && b != a + "/" {
      LtIsLexicographic(a + "/", b);
      LtIsLexicographic(b, c);
      Rebuild.PrefixBetween(a + "/", a + "/", b, c);
    }
  }

  lemma NoneBetween(adds: seq<Item>, sorted: seq<Item>, i: nat)
    requires Rebuild.Rising(sorted) && PathsOf(sorted) == PathsOf(adds)
    requires 0 < i < |sorted| && sorted[i - 1].path != [] && sorted[i - 1].path < sorted[i].path
    ensures !Screened(adds, sorted[i - 1].path)
  {
    var p, q := sorted[i - 1].path, sorted[i].path;
    JoinPrefix(p, q);
    assert Join(q) == Join(p) + "/" + Join(q)[|Join(p)| + 1..];
    if Join(q) != Join(p) + "/" {
      Rebuild.Extends(Join(p) + "/", Join(q)[|Join(p)| + 1..]);
    }
    forall r | r in PathsOf(adds) ensures !(Lt(Join(p), Join(r)) && Lt(Join(r), Join(p) + "/")) {
      var k :| 0 <= k < |sorted| && sorted[k].path == r;
      if Lt(Join(p), Join(r)) {
        assert i <= k;
      }
    }
  }

  lemma Conflict(adds: seq<Item>, a: Item, b: Item)
    requires a in adds && b in adds && a.path < b.path
    ensures !PrefixFree(adds)
  {
    assert a.path in PathsOf(adds) && b.path in PathsOf(adds);
  }

  lemma TextBetween()
    ensures Lt("a", "a.txt") && Lt("a.txt", "a/b")
    ensures Join(["a"]) == "a" && Join(["a.txt"]) == "a.txt" && Join(["a", "b"]) == "a/b"
  {
    LtIsLexicographic("a", "a.txt");
    LtIsLexicographic("a.txt", "a/b");
    assert "a.txt"[1..] == ".txt" && "a"[1..] == "" && "a/b"[1..] == "/b";
    assert ["a", "b"][1..] == ["b"];
  }

  /** The neighbour check misses `a` above `a/b` when `a.txt` sorts between them; the
      splice itself still refuses these additions. */
  lemma NeighboursMissAConflict(leaf: Leaf)
    ensures var adds := [Item(["a"], leaf), Item(["a.txt"], leaf), Item(["a", "b"], leaf)];
      Rebuild.StringSorted(adds) && NeighboursFree(adds) && !PrefixFree(adds)
  {
    var a, text, b := Item(["a"], leaf), Item(["a.txt"], leaf), Item(["a", "b"], leaf);
    TextBetween();
    hide *;
    assert a in [a, text, b] && b in [a, text, b];
    Conflict([a, text, b], a, b);
    ThreeInOrder(a, text, b);
  }

  lemma ThreeInOrder(x: Item, y: Item, z: Item)
    requires Lt(Join(x.path), Join(y.path)) && Lt(Join(y.path), Join(z.path))
    requires !(x.path < y.path) && !(y.path < z.path)
    ensures Rebuild.StringSorted([x, y, z]) && NeighboursFree([x, y, z])
  {
    hide Lt, Join;
  }

  // ---- Moving ---------------------------------------------------------------

  datatype MoveError = SamePath | IntoItself | ParentIsFile | NotFound | Duplicate | Collision | SpliceFailed

  datatype MoveOutcome = Moved(tree: Node) | Refused(error: MoveError)

  /** `move_logical_path`. */
  function MovePath(p: Path, source: Path, dest: Path): Path
    requires source <= p
  {
    dest + p[|source|..]
  }

  /** `relocate_manifest_entry`: a pointer's identity depends on its path. */
  function Relocate(l: Leaf, p: Path): Leaf {
    if ContentKind(l.kind) then l else l.(hash := OfPathAndSize(p, l.size))
  }

  function Relocated(x: Item, source: Path, dest: Path): Item
    requires source <= x.path
  {
    var p := MovePath(x.path, source, dest);
    Item(p, Relocate(x.leaf, p))
  }

  /** What a move leaves at `p`: what came from under the source, nothing where the
      source was, and everything else as before. */
  function MovedLeaf(es: seq<Entry>, source: Path, dest: Path, p: Path): Option<Leaf> {
    if dest <= p && LeafAt(es, source + p[|dest|..]).Some? then
      Some(Relocate(LeafAt(es, source + p[|dest|..]).value, p))
    else if source <= p then None
    else LeafAt(es, p)
  }

  /** `p` is where some leaf under the source goes. */
  ghost predicate IsMoved(es: seq<Entry>, source: Path, dest: Path, p: Path) {
    dest <= p && LeafAt(es, source + p[|dest|..]).Some?
  }

  ghost predicate Stays(es: seq<Entry>, source: Path, p: Path) {
    LeafAt(es, p).Some? && !(source <= p)
  }

  /** No moved path is an ancestor or descendant of a remaining one. */
  ghost predicate Clear(es: seq<Entry>, source: Path, dest: Path) {
    forall p, q :: IsMoved(es, source, dest, p) && Stays(es, source, q) ==> !(p < q) && !(q < p)
  }

  /** The moved leaves, as additions. */
  ghost predicate MovedItems(es: seq<Entry>, source: Path, dest: Path, adds: seq<Item>) {
    forall p: Path :: AddedAt(adds, p) ==
      if IsMoved(es, source, dest, p) then Some(Relocate(LeafAt(es, source + p[|dest|..]).value, p)) else None
  }

  lemma MovedPaths(es: seq<Entry>, source: Path, dest: Path, adds: seq<Item>, p: Path)
    requires MovedItems(es, source, dest, adds)
    ensures p in PathsOf(adds) <==> IsMoved(es, source, dest, p)
  {
    BelowSpec(adds, [], p);
  }

  lemma MovedPrefixFree(es: seq<Entry>, source: Path, dest: Path, adds: seq<Item>)
    requires MovedItems(es, source, dest, adds)
    ensures PrefixFree(adds)
  {
    forall p, q | p in PathsOf(adds) && q in PathsOf(adds) ensures !(p < q) {
      MovedPaths(es, source, dest, adds, p);
      MovedPaths(es, source, dest, adds, q);
      if p < q {
        assert source + p[|dest|..] < source + q[|dest|..];
        Rebuild.LeavesDoNotNest(es, source + p[|dest|..], source + q[|dest|..]);
      }
    }
  }

  lemma RemovedIsUnder(source: Path, p: Path)
    requires source != []
    ensures PathIsRemoved(p, {source}) <==> source <= p
  {
    if source <= p {
      assert p[..|source|] == source;
    }
  }

  /** The spliced tree is the moved one at `p`, unless a leaf that stays is in the way of
      a moved path there. */
  lemma SplicedIsMoved(es: seq<Entry>, source: Path, dest: Path, adds: seq<Item>, p: Path)
    requires MovedItems(es, source, dest, adds) && source != [] && p != []
    ensures SplicedLeaf(LeafAt(es, p), p, adds, {source}) ==
            if Stays(es, source, p) && !IsMoved(es, source, dest, p) && Shadowed(adds, p) then None
            else MovedLeaf(es, source, dest, p)
  {
    RemovedIsUnder(source, p);
    hide LeafAt, Shadowed;
  }

  /** A move renames exactly the leaves under the source and touches no other, if and only
      if no moved path is an ancestor or descendant of a remaining one. */
  lemma MoveIsExactIff(es: seq<Entry>, source: Path, dest: Path, adds: seq<Item>)
    requires MovedItems(es, source, dest, adds) && source != []
    requires forall p :: IsMoved(es, source, dest, p) ==> !Stays(es, source, p)
    ensures (forall p: Path :: p != [] ==>
               SplicedLeaf(LeafAt(es, p), p, adds, {source}) == MovedLeaf(es, source, dest, p)) <==>
            Clear(es, source, dest)
  {
    if Clear(es, source, dest) {
      forall p: Path | p != []
        ensures SplicedLeaf(LeafAt(es, p), p, adds, {source}) == MovedLeaf(es, source, dest, p)
      {
        SplicedIsMoved(es, source, dest, adds, p);
        if Stays(es, source, p) && Shadowed(adds, p) {
          var q :| q in PathsOf(adds) && (q < p || p < q);
          MovedPaths(es, source, dest, adds, q);
        }
      }
    } else {
      var p, q :| IsMoved(es, source, dest, p) && Stays(es, source, q) && (p < q || q < p);
      MovedPaths(es, source, dest, adds, p);
      SplicedIsMoved(es, source, dest, adds, q);
      assert Shadowed(adds, q);
      assert LeafAt(es, q).Some? && !(source <= q) && MovedLeaf(es, source, dest, q).Some?;
    }
  }

  /** No file is in the way of the directories of `dest`. */
  predicate ParentsFree(es: seq<Entry>, dest: Path) {
    forall k :: 1 <= k < |dest| ==> LeafAt(es, dest[..k]).None?
  }

  ghost predicate HasLeaves(es: seq<Entry>, source: Path) {
    exists p :: LeafAt(es, p).Some? && source <= p
  }

  /** No moved path belongs to a leaf that stays. */
  ghost predicate Untaken(es: seq<Entry>, source: Path, dest: Path) {
    forall p :: IsMoved(es, source, dest, p) ==> !Stays(es, source, p)
  }

  /** `_require_directory_destination`. */
  method ParentsAreNoFiles(root: Node, dest: Path) returns (ok: bool)
    requires Searchable(root.entries) && dest != []
    ensures ok <==> ParentsFree(root.entries, dest)
  {
    for k := 1 to |dest|
      invariant forall j :: 1 <= j < k ==> LeafAt(root.entries, dest[..j]).None?
    {
      var found := Query.LookupEntry(root, dest[..k]);
      if found.Some? {
        return false;
      }
    }
    return true;
  }

  /** The items other than the one already taken. */
  function Except(xs: seq<Item>, taken: Option<Item>): seq<Item> {
    if xs == [] then []
    else
      var x := xs[|xs| - 1];
      Except(xs[..|xs| - 1], taken) + if taken.None? || x.path != taken.value.path then [x] else []
  }

  lemma {:induction false} ExceptSpec(xs: seq<Item>, taken: Option<Item>)
    requires Rebuild.DistinctPaths(xs)
    ensures Rebuild.DistinctPaths(Except(xs, taken))
    ensures forall x :: x in Except(xs, taken) <==> x in xs && (taken.None? || x.path != taken.value.path)
  {
    if xs != [] {
      var k := |xs| - 1;
      assert xs == xs[..k] + [xs[k]];
      ExceptSpec(xs[..k], taken);
      hide Except;
      var low := Except(xs[..k], taken);
      forall i | 0 <= i < |low| ensures low[i].path != xs[k].path {
        assert low[i] in low;
        var j :| 0 <= j < k && xs[..k][j] == low[i];
        assert xs[j] == low[i];
      }
    }
  }

  /** The entries a move takes: the leaf at the source itself, then what lies below. */
  method SourceEntries(root: Node, source: Path) returns (xs: seq<Item>)
    requires Searchable(root.entries) && source != []
    ensures forall x :: x in xs <==> LeafAt(root.entries, x.path) == Some(x.leaf) && source <= x.path
    ensures Rebuild.DistinctPaths(xs)
  {
    var found := Query.LookupEntry(root, source);
    var exact := if found.Some? then Some(Item(source, found.value)) else None;
    var below := Query.IterEntriesForPrefix(root, source);
    Listing(root, source, below);
    hide LeafAt, Query.Flatten, Query.Matching, Searchable, Except, Rebuild.DistinctPaths;
    xs := if exact.Some? then [exact.value] else [];
    ghost var start := xs;
    NoneYet(below, exact, start);
    for i := 0 to |below|
      invariant xs == start + Except(below[..i], exact)
    {
      ExceptStep(below, i, exact, start);
      if exact.None? || below[i].path != exact.value.path {
        xs := xs + [below[i]];
      }
    }
    assert below[..|below|] == below;
    ExceptSpec(below, exact);
    TakenAndOthers(exact, Except(below, exact));
  }

  lemma NoneYet(xs: seq<Item>, taken: Option<Item>, start: seq<Item>)
    ensures start + Except(xs[..0], taken) == start
  {
  }

  lemma ExceptStep(xs: seq<Item>, i: nat, taken: Option<Item>, start: seq<Item>)
    requires i < |xs|
    ensures start + Except(xs[..i + 1], taken) ==
            if taken.None? || xs[i].path != taken.value.path then start + Except(xs[..i], taken) + [xs[i]]
            else start + Except(xs[..i], taken)
  {
    assert xs[..i + 1][..i] == xs[..i];
  }

  lemma TakenAndOthers(taken: Option<Item>, others: seq<Item>)
    requires Rebuild.DistinctPaths(others)
    requires taken.Some? ==> forall x :: x in others ==> x.path != taken.value.path
    ensures Rebuild.DistinctPaths((if taken.Some? then [taken.value] else []) + others)
  {
    assert forall i :: 0 <= i < |others| ==> others[i] in others;
  }

  lemma Listing(root: Node, source: Path, below: seq<Item>)
    requires Searchable(root.entries) && below == Query.Matching(Query.Flatten(root.entries, []), source)
    ensures forall x :: x in below <==> LeafAt(root.entries, x.path) == Some(x.leaf) && source <= x.path
    ensures Rebuild.DistinctPaths(below)
  {
    forall x ensures x in below <==> LeafAt(root.entries, x.path) == Some(x.leaf) && source <= x.path {
      Query.ListedExactly(root.entries, source, x);
    }
    Query.ListedExactly(root.entries, source, Item(source, AnyLeaf()));
    ListedOnce(below);
  }

  function AnyLeaf(): Leaf {
    Leaf(Blob, OfBytes(""), 0, 0, None, None, None)
  }

  lemma ListedOnce(xs: seq<Item>)
    requires Query.AscendingPaths(xs)
    ensures Rebuild.DistinctPaths(xs)
  {
    forall i, j | 0 <= i < j < |xs| ensures xs[i].path != xs[j].path {
      Rebuild.PathLessOneWay(xs[i].path, xs[j].path);
    }
  }

  function MoveAll(xs: seq<Item>, source: Path, dest: Path): seq<Item>
    requires forall x :: x in xs ==> source <= x.path
  {
    seq(|xs|, i requires 0 <= i < |xs| => assert xs[i] in xs; Relocated(xs[i], source, dest))
  }

  /** The relocated entries are the moved leaves, each at a path of its own. */
  lemma MoveAllIs(es: seq<Entry>, xs: seq<Item>, source: Path, dest: Path)
    requires forall x :: x in xs <==> LeafAt(es, x.path) == Some(x.leaf) && source <= x.path
    requires Rebuild.DistinctPaths(xs)
    ensures MovedItems(es, source, dest, MoveAll(xs, source, dest))
    ensures Rebuild.DistinctPaths(MoveAll(xs, source, dest))
  {
    var ys := MoveAll(xs, source, dest);
    hide LeafAt;
    forall i | 0 <= i < |xs|
      ensures source <= xs[i].path && ys[i] == Relocated(xs[i], source, dest)
      ensures ys[i].path[|dest|..] == xs[i].path[|source|..] && source + ys[i].path[|dest|..] == xs[i].path
    {
      assert xs[i] in xs;
    }
    forall i, j | 0 <= i < j < |ys| ensures ys[i].path != ys[j].path {
    }
    forall p: Path
      ensures AddedAt(ys, p) ==
              if IsMoved(es, source, dest, p) then Some(Relocate(LeafAt(es, source + p[|dest|..]).value, p)) else None
    {
      MovedOne(es, xs, ys, source, dest, p);
    }
  }

  lemma MovedOne(es: seq<Entry>, xs: seq<Item>, ys: seq<Item>, source: Path, dest: Path, p: Path)
    requires forall x :: x in xs <==> LeafAt(es, x.path) == Some(x.leaf) && source <= x.path
    requires |ys| == |xs| && Rebuild.DistinctPaths(ys)
    requires forall i :: 0 <= i < |xs| ==>
      source <= xs[i].path && ys[i] == Relocated(xs[i], source, dest) &&
      source + ys[i].path[|dest|..] == xs[i].path
    ensures AddedAt(ys, p) ==
            if IsMoved(es, source, dest, p) then Some(Relocate(LeafAt(es, source + p[|dest|..]).value, p)) else None
  {
    hide LeafAt;
    if IsMoved(es, source, dest, p) {
      var q := source + p[|dest|..];
      var x := Item(q, LeafAt(es, q).value);
      assert x in xs;
      var i :| 0 <= i < |xs| && xs[i] == x;
      assert q[|source|..] == p[|dest|..] && ys[i].path == p;
      OnlyAddition(ys, i);
    } else {
      BelowSpec(ys, [], p);
      if AddedAt(ys, p).Some? {
        Rebuild.AddedIsMember(ys, p);
      }
    }
  }

  lemma {:induction false} OnlyAddition(ys: seq<Item>, i: nat)
    requires Rebuild.DistinctPaths(ys) && i < |ys|
    ensures AddedAt(ys, ys[i].path) == Some(ys[i].leaf)
  {
    if i < |ys| - 1 {
      OnlyAddition(ys[..|ys| - 1], i);
    }
  }

  /** Every moved path, looked up in the old tree, is free or about to be moved away. */
  method NoCollision(root: Node, adds: seq<Item>, source: Path) returns (ok: bool)
    requires Searchable(root.entries)
    ensures ok <==> forall q :: q in PathsOf(adds) ==> !Stays(root.entries, source, q)
  {
    hide Searchable, LeafAt;
    for i := 0 to |adds|
      invariant forall j :: 0 <= j < i ==> !Stays(root.entries, source, adds[j].path)
    {
      var found := Query.LookupEntry(root, adds[i].path);
      if found.Some? && !(source <= adds[i].path) {
        assert adds[i] in adds && adds[i].path in PathsOf(adds);
        return false;
      }
    }
    return true;
  }

  /** An exact move, said on the leaves themselves: content arrives as it was, a pointer with
      the identity of its new path, every other leaf stays, and nothing else is there. */
  lemma MovedByFields(es: seq<Entry>, after: seq<Entry>, source: Path, dest: Path)
    requires dest != []
    requires forall p: Path :: p != [] ==> LeafAt(after, p) == MovedLeaf(es, source, dest, p)
    requires Untaken(es, source, dest)
    ensures forall q: Path :: source <= q && LeafAt(es, q).Some? ==>
      var l, p := LeafAt(es, q).value, dest + q[|source|..];
      LeafAt(after, p) == Some(if l.kind == Blob || l.kind == BlobParquet then l else l.(hash := OfPathAndSize(p, l.size)))
    ensures forall q: Path :: !(source <= q) && LeafAt(es, q).Some? ==> LeafAt(after, q) == LeafAt(es, q)
    ensures forall p: Path :: LeafAt(after, p).Some? ==>
      (!(source <= p) && LeafAt(es, p).Some?) ||
      (exists q: Path :: source <= q && LeafAt(es, q).Some? && p == dest + q[|source|..])
  {
    NoLeafAtRoot(es);
    NoLeafAtRoot(after);
    hide LeafAt;
    forall q: Path | source <= q && LeafAt(es, q).Some?
      ensures var l, p := LeafAt(es, q).value, dest + q[|source|..];
        LeafAt(after, p) == Some(if l.kind == Blob || l.kind == BlobParquet then l else l.(hash := OfPathAndSize(p, l.size)))
    {
      var p := dest + q[|source|..];
      assert p[|dest|..] == q[|source|..] && source + p[|dest|..] == q;
    }
    forall q: Path | !(source <= q) && LeafAt(es, q).Some? ensures LeafAt(after, q) == LeafAt(es, q) {
      assert Stays(es, source, q);
    }
    forall p: Path | LeafAt(after, p).Some?
      ensures (!(source <= p) && LeafAt(es, p).Some?) ||
              (exists q: Path :: source <= q && LeafAt(es, q).Some? && p == dest + q[|source|..])
    {
      if IsMoved(es, source, dest, p) {
        var q := source + p[|dest|..];
        assert q[|source|..] == p[|dest|..];
      }
    }
  }

  /** `repo_move`: when a move goes through, why it is refused otherwise, and that it renames
      exactly the leaves under the source if and only if no moved path is an ancestor or
      descendant of a remaining one. */
  method RepoMove(m: nat, root: Node, source: Path, dest: Path) returns (r: MoveOutcome)
    requires 2 <= m && WellFormed(m, root.entries) && source != [] && dest != []
    ensures r.Moved? <==>
      && !(source <= dest) && ParentsFree(root.entries, dest)
      && HasLeaves(root.entries, source) && Untaken(root.entries, source, dest)
    ensures r == Refused(SamePath) <==> source == dest
    ensures r == Refused(IntoItself) <==> source < dest
    ensures r == Refused(ParentIsFile) <==> !(source <= dest) && !ParentsFree(root.entries, dest)
    ensures r == Refused(NotFound) <==>
      !(source <= dest) && ParentsFree(root.entries, dest) && !HasLeaves(root.entries, source)
    ensures r == Refused(Collision) <==>
      && !(source <= dest) && ParentsFree(root.entries, dest)
      && HasLeaves(root.entries, source) && !Untaken(root.entries, source, dest)
    ensures r.Moved? ==> Frames.Finished(m, r.tree.entries)
    ensures r.Moved? ==>
      ((forall p: Path :: p != [] ==> LeafAt(r.tree.entries, p) == MovedLeaf(root.entries, source, dest, p)) <==>
       Clear(root.entries, source, dest))
    ensures r.Moved? && Clear(root.entries, source, dest) ==>
      && (forall q: Path :: source <= q && LeafAt(root.entries, q).Some? ==>
            var l, p := LeafAt(root.entries, q).value, dest + q[|source|..];
            LeafAt(r.tree.entries, p) ==
            Some(if l.kind == Blob || l.kind == BlobParquet then l else l.(hash := OfPathAndSize(p, l.size))))
      && (forall q: Path :: !(source <= q) && LeafAt(root.entries, q).Some? ==>
            LeafAt(r.tree.entries, q) == LeafAt(root.entries, q))
      && (forall p: Path :: LeafAt(r.tree.entries, p).Some? ==>
            (!(source <= p) && LeafAt(root.entries, p).Some?) ||
            (exists q: Path :: source <= q && LeafAt(root.entries, q).Some? && p == dest + q[|source|..]))
  {
    if source == dest {
      return Refused(SamePath);
    }
    if source < dest {
      return Refused(IntoItself);
    }
    WellFormedIsSearchable(m, root.entries);
    hide ParentsFree;
    var free := ParentsAreNoFiles(root, dest);
    if !free {
      return Refused(ParentIsFile);
    }
    var entries := SourceEntries(root, source);
    SomeEntry(root.entries, source, entries);
    if entries == [] {
      return Refused(NotFound);
    }
    MoveAllIs(root.entries, entries, source, dest);
    var adds := MoveAll(entries, source, dest);
    AddsAreMoved(root.entries, source, dest, adds);
    hide WellFormed, Searchable, Fits, LeafAt, MovedItems, Clear, MoveAll, SplicedLeaf, HasLeaves;
    var ok := NoCollision(root, adds, source);
    if !ok {
      return Refused(Collision);
    }
    var spliced := SpliceTree(m, root, adds, {source});
    MoveIsExactIff(root.entries, source, dest, adds);
    if Clear(root.entries, source, dest) {
      MovedByFields(root.entries, spliced.value.entries, source, dest);
    }
    return Moved(spliced.value);
  }

  lemma SomeEntry(es: seq<Entry>, source: Path, xs: seq<Item>)
    requires forall x :: x in xs <==> LeafAt(es, x.path) == Some(x.leaf) && source <= x.path
    ensures xs != [] <==> HasLeaves(es, source)
  {
    hide LeafAt;
    if xs != [] {
      assert xs[0] in xs;
    }
    if HasLeaves(es, source) {
      var p :| LeafAt(es, p).Some? && source <= p;
      assert Item(p, LeafAt(es, p).value) in xs;
    }
  }

  lemma AddsAreMoved(es: seq<Entry>, source: Path, dest: Path, adds: seq<Item>)
    requires MovedItems(es, source, dest, adds) && dest != []
    ensures PrefixFree(adds) && forall a :: a in adds ==> a.path != []
    ensures forall q :: q in PathsOf(adds) <==> IsMoved(es, source, dest, q)
  {
    MovedPrefixFree(es, source, dest, adds);
    forall q ensures q in PathsOf(adds) <==> IsMoved(es, source, dest, q) {
      MovedPaths(es, source, dest, adds, q);
    }
    forall a | a in adds ensures a.path != [] {
      assert a.path in PathsOf(adds);
    }
  }

  // ---- A move keeps the number of leaves ------------------------------------

  /** Where a leaf's path goes. */
  function Target(p: Path, source: Path, dest: Path): Path {
    if source <= p then dest + p[|source|..] else p
  }

  lemma {:induction false} ImageSize(a: set<Path>, f: Path -> Path)
    requires forall x, y :: x in a && y in a && f(x) == f(y) ==> x == y
    ensures |set x | x in a :: f(x)| == |a|
  {
    var image := set x | x in a :: f(x);
    if a == {} {
      assert image == {};
    } else {
      var x :| x in a;
      var rest := a - {x};
      ImageSize(rest, f);
      assert image == (set y | y in rest :: f(y)) + {f(x)};
    }
  }

  lemma {:induction false} PathCount(xs: seq<Item>)
    requires Rebuild.DistinctPaths(xs)
    ensures |PathsOf(xs)| == |xs|
  {
    if xs != [] {
      var k := |xs| - 1;
      assert xs == xs[..k] + [xs[k]];
      PathCount(xs[..k]);
      Frames.PathsOfSnoc(xs[..k], xs[k]);
      Frames.PathsOfPrefix(xs, k);
      assert PathsOf(xs) == PathsOf(xs[..k]) + {xs[k].path};
    }
  }

  function LeafPaths(es: seq<Entry>): set<Path> {
    PathsOf(Query.Flatten(es, []))
  }

  lemma LeafPathsAre(es: seq<Entry>)
    requires Searchable(es)
    ensures forall p :: p in LeafPaths(es) <==> LeafAt(es, p).Some?
    ensures |LeafPaths(es)| == |Query.Flatten(es, [])|
  {
    var xs := Query.Flatten(es, []);
    Query.FlattenAscends(es, []);
    ListedOnce(xs);
    PathCount(xs);
    forall p ensures p in LeafPaths(es) <==> LeafAt(es, p).Some? {
      BelowSpec(xs, [], p);
      Rebuild.ListedAt(es, p);
    }
  }

  lemma MovedLeafPaths(es: seq<Entry>, after: seq<Entry>, source: Path, dest: Path)
    requires Searchable(es) && Searchable(after) && source != [] && dest != []
    requires forall p :: IsMoved(es, source, dest, p) ==> !Stays(es, source, p)
    requires forall p: Path :: p != [] ==> LeafAt(after, p) == MovedLeaf(es, source, dest, p)
    ensures LeafPaths(after) == set p | p in LeafPaths(es) :: Target(p, source, dest)
  {
    LeafPathsAre(es);
    LeafPathsAre(after);
    NoLeafAtRoot(es);
    NoLeafAtRoot(after);
    hide LeafPaths, Searchable, LeafAt, Relocate, Query.Flatten;
    forall p | LeafAt(es, p).Some? ensures LeafAt(after, Target(p, source, dest)).Some? {
      TargetHasLeaf(es, after, source, dest, p);
    }
    forall q | LeafAt(after, q).Some?
      ensures exists p :: LeafAt(es, p).Some? && Target(p, source, dest) == q
    {
      var p := Origin(es, after, source, dest, q);
    }
    hide Target, MovedLeaf, IsMoved, Stays;
  }

  lemma TargetHasLeaf(es: seq<Entry>, after: seq<Entry>, source: Path, dest: Path, p: Path)
    requires forall p :: IsMoved(es, source, dest, p) ==> !Stays(es, source, p)
    requires forall p: Path :: p != [] ==> LeafAt(after, p) == MovedLeaf(es, source, dest, p)
    requires LeafAt(es, p).Some? && p != [] && dest != []
    ensures LeafAt(after, Target(p, source, dest)).Some?
  {
    hide LeafAt, Relocate;
    var t := Target(p, source, dest);
    if source <= p {
      assert t[|dest|..] == p[|source|..] && source + t[|dest|..] == p;
    } else {
      assert Stays(es, source, p);
    }
  }

  lemma Origin(es: seq<Entry>, after: seq<Entry>, source: Path, dest: Path, q: Path) returns (p: Path)
    requires forall p: Path :: p != [] ==> LeafAt(after, p) == MovedLeaf(es, source, dest, p)
    requires LeafAt(after, q).Some? && q != []
    ensures LeafAt(es, p).Some? && Target(p, source, dest) == q
  {
    hide LeafAt, Relocate;
    p := q;
    if IsMoved(es, source, dest, q) {
      p := source + q[|dest|..];
      assert p[|source|..] == q[|dest|..];
    }
  }

  lemma NoLeafAtRoot(es: seq<Entry>)
    ensures LeafAt(es, []) == None
  {
  }

  /** A move that is exact loses no leaf and makes none. */
  lemma MoveKeepsCount(es: seq<Entry>, after: seq<Entry>, source: Path, dest: Path)
    requires Searchable(es) && Searchable(after) && source != [] && dest != []
    requires forall p :: IsMoved(es, source, dest, p) ==> !Stays(es, source, p)
    requires forall p: Path :: p != [] ==> LeafAt(after, p) == MovedLeaf(es, source, dest, p)
    ensures |Query.Flatten(after, [])| == |Query.Flatten(es, [])|
  {
    LeafPathsAre(es);
    LeafPathsAre(after);
    MovedLeafPaths(es, after, source, dest);
    hide LeafPaths, Searchable, LeafAt, Query.Flatten;
    var f := (p: Path) => Target(p, source, dest);
    forall p, q | p in LeafPaths(es) && q in LeafPaths(es) && f(p) == f(q) ensures p == q {
      OneTarget(es, source, dest, p, q);
    }
    ImageSize(LeafPaths(es), f);
    assert (set p | p in LeafPaths(es) :: f(p)) == (set p | p in LeafPaths(es) :: Target(p, source, dest));
  }

  lemma OneTarget(es: seq<Entry>, source: Path, dest: Path, p: Path, q: Path)
    requires forall x :: IsMoved(es, source, dest, x) ==> !Stays(es, source, x)
    requires LeafAt(es, p).Some? && LeafAt(es, q).Some? && Target(p, source, dest) == Target(q, source, dest)
    ensures p == q
  {
    hide LeafAt;
    var t := Target(p, source, dest);
    if source <= p {
      assert t[|dest|..] == p[|source|..] && source + p[|source|..] == p;
      assert IsMoved(es, source, dest, t);
    }
    if source <= q {
      assert t[|dest|..] == q[|source|..] && source + q[|source|..] == q;
      assert IsMoved(es, source, dest, t);
    }
  }

  // ---- Promoting pointers to content ----------------------------------------

  /** One of the prefixes is `p` or above it. */
  predicate Matched(prefixes: seq<Path>, p: Path) {
    exists q :: q in prefixes && q <= p
  }

  predicate InScope(prefixes: seq<Path>, p: Path) {
    prefixes == [] || Matched(prefixes, p)
  }

  /** A leaf that promotion is to replace. */
  predicate Pointer(l: Option<Leaf>) {
    l.Some? && !ContentKind(l.value.kind)
  }

  /** A pointer's leaf once its bytes, with the given digest, are stored. */
  function Promoted(l: Leaf, digest: string): Leaf {
    Leaf(if l.footer.Some? then BlobParquet else Blob, OfBytes(digest), l.size, l.mtime, None, l.footer, None)
  }

  /** What promotion leaves of a leaf: pointers in scope become content, others stay. */
  function PromotedLeaf(l: Option<Leaf>, inScope: bool, digestOf: string -> string): Option<Leaf> {
    if l.Some? && inScope && !ContentKind(l.value.kind) && l.value.sourceUri.Some? then
      Some(Promoted(l.value, digestOf(l.value.sourceUri.value)))
    else l
  }

  datatype Promotion = Nothing | PromotedTree(tree: Node, count: nat) | MissingSource(path: Path)

  /** `iter_scope`: the leaves in scope, each once although prefixes may overlap. */
  method ScopeEntries(root: Node, prefixes: seq<Path>) returns (xs: seq<Item>)
    requires Searchable(root.entries)
    ensures forall x :: x in xs <==> LeafAt(root.entries, x.path) == Some(x.leaf) && InScope(prefixes, x.path)
    ensures Rebuild.DistinctPaths(xs)
  {
    if prefixes == [] {
      xs := Query.IterAllEntries(root);
      AllListed(root, xs);
      return;
    }
    xs := [];
    var seen: set<Path> := {};
    for i := 0 to |prefixes|
      invariant Rebuild.DistinctPaths(xs) && seen == PathsOf(xs)
      invariant forall x :: x in xs <==>
        LeafAt(root.entries, x.path) == Some(x.leaf) && Matched(prefixes[..i], x.path)
    {
      var below := Query.IterEntriesForPrefix(root, prefixes[i]);
      Listing(root, prefixes[i], below);
      hide LeafAt, Query.Flatten, Query.Matching, Searchable;
      assert prefixes[..i + 1] == prefixes[..i] + [prefixes[i]];
      xs, seen := AddUnseen(xs, seen, below);
      ScopeStep(root.entries, prefixes, i);
    }
    assert prefixes[..|prefixes|] == prefixes;
  }

  lemma ScopeStep(es: seq<Entry>, prefixes: seq<Path>, i: nat)
    requires i < |prefixes|
    ensures forall p: Path :: Matched(prefixes[..i + 1], p) <==> Matched(prefixes[..i], p) || prefixes[i] <= p
  {
    assert forall q :: q in prefixes[..i + 1] <==> q in prefixes[..i] || q == prefixes[i] by {
      assert prefixes[..i + 1] == prefixes[..i] + [prefixes[i]];
    }
    assert prefixes[i] in prefixes[..i + 1];
    forall p: Path ensures Matched(prefixes[..i + 1], p) <==> Matched(prefixes[..i], p) || prefixes[i] <= p {
      if Matched(prefixes[..i], p) {
        var q :| q in prefixes[..i] && q <= p;
        assert q in prefixes[..i + 1];
      }
      if Matched(prefixes[..i + 1], p) {
        var q :| q in prefixes[..i + 1] && q <= p;
        assert q in prefixes[..i] || q == prefixes[i];
      }
    }
  }

  lemma AllListed(root: Node, xs: seq<Item>)
    requires Searchable(root.entries) && xs == Query.Flatten(root.entries, [])
    ensures forall x :: x in xs <==> LeafAt(root.entries, x.path) == Some(x.leaf)
    ensures Rebuild.DistinctPaths(xs)
  {
    Query.FlattenAscends(root.entries, []);
    ListedOnce(xs);
    forall x ensures x in xs <==> LeafAt(root.entries, x.path) == Some(x.leaf) {
      if x in xs { Query.FlattenSound(root.entries, [], x); }
      if LeafAt(root.entries, x.path) == Some(x.leaf) {
        Query.FlattenComplete(root.entries, [], x.path);
        assert [] + x.path == x.path;
      }
    }
  }

  /** The entries not seen yet, appended. */
  method AddUnseen(xs: seq<Item>, seen: set<Path>, more: seq<Item>) returns (r: seq<Item>, seen': set<Path>)
    requires Rebuild.DistinctPaths(xs) && seen == PathsOf(xs) && Rebuild.DistinctPaths(more)
    requires forall x, y :: x in xs && y in more && x.path == y.path ==> x == y
    ensures Rebuild.DistinctPaths(r) && seen' == PathsOf(r)
    ensures forall x :: x in r <==> x in xs || x in more
  {
    r, seen' := xs, seen;
    for i := 0 to |more|
      invariant Rebuild.DistinctPaths(r) && seen' == PathsOf(r)
      invariant forall x :: x in r <==> x in xs || x in more[..i]
    {
      var y := more[i];
      assert y in more && more[..i + 1] == more[..i] + [y];
      if y.path !in seen' {
        Unseen(r, y);
        Frames.PathsOfSnoc(r, y);
        assert PathsOf(r + [y]) == PathsOf(r) + {y.path};
        r, seen' := r + [y], seen' + {y.path};
      } else {
        SeenBefore(xs, more, i, r, y);
      }
    }
    assert more[..|more|] == more;
  }

  lemma Unseen(r: seq<Item>, y: Item)
    requires Rebuild.DistinctPaths(r) && y.path !in PathsOf(r)
    ensures Rebuild.DistinctPaths(r + [y])
  {
    forall i | 0 <= i < |r| ensures r[i].path != y.path {
      assert r[i] in r;
    }
  }

  lemma SeenBefore(xs: seq<Item>, more: seq<Item>, i: nat, r: seq<Item>, y: Item)
    requires i < |more| && more[i] == y && y.path in PathsOf(r) && Rebuild.DistinctPaths(more)
    requires forall x :: x in r <==> x in xs || x in more[..i]
    requires forall x, y :: x in xs && y in more && x.path == y.path ==> x == y
    ensures y in r
  {
    var x :| x in r && x.path == y.path;
    assert y in more;
    assert forall j :: 0 <= j < i ==> more[..i][j] == more[j];
  }

  /** `a` is the entry `x`, a pointer with a source, promoted. */
  predicate PromotedFrom(a: Item, x: Item, digestOf: string -> string) {
    && !ContentKind(x.leaf.kind) && x.leaf.sourceUri.Some?
    && a == Item(x.path, Promoted(x.leaf, digestOf(x.leaf.sourceUri.value)))
  }

  /** The promoted leaves among the first entries, as additions. */
  ghost predicate PromotedItems(xs: seq<Item>, digestOf: string -> string, adds: seq<Item>) {
    && Rebuild.DistinctPaths(adds)
    && (forall a :: a in adds <==> exists x :: x in xs && PromotedFrom(a, x, digestOf))
  }

  lemma PromotedNext(xs: seq<Item>, x: Item, digestOf: string -> string, adds: seq<Item>)
    requires Rebuild.DistinctPaths(xs + [x]) && PromotedItems(xs, digestOf, adds) && x.leaf.sourceUri.Some?
    ensures ContentKind(x.leaf.kind) ==> PromotedItems(xs + [x], digestOf, adds)
    ensures !ContentKind(x.leaf.kind) ==>
      PromotedItems(xs + [x], digestOf, adds + [Item(x.path, Promoted(x.leaf, digestOf(x.leaf.sourceUri.value)))])
  {
    assert forall y :: y in xs + [x] <==> y in xs || y == x;
    forall i | 0 <= i < |adds| ensures adds[i].path != x.path {
      assert adds[i] in adds;
      var y :| y in xs && PromotedFrom(adds[i], y, digestOf);
      var j :| 0 <= j < |xs| && xs[j] == y;
      assert (xs + [x])[j] == y && (xs + [x])[|xs|] == x;
    }
    if !ContentKind(x.leaf.kind) {
      var a := Item(x.path, Promoted(x.leaf, digestOf(x.leaf.sourceUri.value)));
      assert PromotedFrom(a, x, digestOf);
      assert forall b :: b in adds + [a] <==> b in adds || b == a;
      assert forall b :: PromotedFrom(b, x, digestOf) ==> b == a;
      forall b ensures b in adds + [a] <==> exists y :: y in xs + [x] && PromotedFrom(b, y, digestOf) {
        if b in adds {
          var y :| y in xs && PromotedFrom(b, y, digestOf);
          assert y in xs + [x];
        }
      }
    }
  }

  lemma PromotedSkip(xs: seq<Item>, x: Item, digestOf: string -> string, adds: seq<Item>)
    requires PromotedItems(xs, digestOf, adds) && ContentKind(x.leaf.kind)
    ensures PromotedItems(xs + [x], digestOf, adds)
  {
    assert forall y :: y in xs + [x] <==> y in xs || y == x;
  }

  /** Splicing the promoted leaves changes just these leaves. */
  lemma PromotedIs(es: seq<Entry>, prefixes: seq<Path>, xs: seq<Item>, digestOf: string -> string, adds: seq<Item>, p: Path)
    requires forall x :: x in xs <==> LeafAt(es, x.path) == Some(x.leaf) && InScope(prefixes, x.path)
    requires PromotedItems(xs, digestOf, adds)
    ensures SplicedLeaf(LeafAt(es, p), p, adds, {}) == PromotedLeaf(LeafAt(es, p), InScope(prefixes, p), digestOf)
  {
    BelowSpec(adds, [], p);
    if AddedAt(adds, p).Some? {
      Rebuild.AddedIsMember(adds, p);
      var x :| x in xs && PromotedFrom(Item(p, AddedAt(adds, p).value), x, digestOf);
    } else if LeafAt(es, p).Some? {
      var x := Item(p, LeafAt(es, p).value);
      if InScope(prefixes, p) && !ContentKind(x.leaf.kind) && x.leaf.sourceUri.Some? {
        assert x in xs && PromotedFrom(Item(p, Promoted(x.leaf, digestOf(x.leaf.sourceUri.value))), x, digestOf);
      }
    }
    if Shadowed(adds, p) && LeafAt(es, p).Some? {
      var q :| q in PathsOf(adds) && (q < p || p < q);
      AddsAreLeaves(es, prefixes, xs, digestOf, adds, q);
      Rebuild.LeavesDoNotNest(es, p, q);
      Rebuild.LeavesDoNotNest(es, q, p);
    }
  }

  lemma AddsAreLeaves(es: seq<Entry>, prefixes: seq<Path>, xs: seq<Item>, digestOf: string -> string, adds: seq<Item>, q: Path)
    requires forall x :: x in xs <==> LeafAt(es, x.path) == Some(x.leaf) && InScope(prefixes, x.path)
    requires PromotedItems(xs, digestOf, adds) && q in PathsOf(adds)
    ensures LeafAt(es, q).Some?
  {
    var a :| a in adds && a.path == q;
    var x :| x in xs && PromotedFrom(a, x, digestOf);
  }

  lemma PromotedPrefixFree(es: seq<Entry>, prefixes: seq<Path>, xs: seq<Item>, digestOf: string -> string, adds: seq<Item>)
    requires forall x :: x in xs <==> LeafAt(es, x.path) == Some(x.leaf) && InScope(prefixes, x.path)
    requires PromotedItems(xs, digestOf, adds)
    ensures PrefixFree(adds) && forall a :: a in adds ==> a.path != []
  {
    forall p, q | p in PathsOf(adds) && q in PathsOf(adds) ensures !(p < q) {
      AddsAreLeaves(es, prefixes, xs, digestOf, adds, p);
      AddsAreLeaves(es, prefixes, xs, digestOf, adds, q);
      Rebuild.LeavesDoNotNest(es, p, q);
    }
    forall a | a in adds ensures a.path != [] {
      assert a.path in PathsOf(adds);
      AddsAreLeaves(es, prefixes, xs, digestOf, adds, a.path);
      NoLeafAtRoot(es);
    }
  }

  /** Promotion, said on the leaves themselves: a pointer in scope becomes content with the
      digest of its source, and any other leaf stays. */
  lemma PromotedByFields(es: seq<Entry>, after: seq<Entry>, prefixes: seq<Path>, digestOf: string -> string)
    requires forall p: Path :: p != [] ==>
      LeafAt(after, p) == PromotedLeaf(LeafAt(es, p), InScope(prefixes, p), digestOf)
    requires forall p: Path ::
      Pointer(LeafAt(es, p)) && InScope(prefixes, p) ==> LeafAt(es, p).value.sourceUri.Some?
    ensures forall p: Path :: LeafAt(es, p).Some? ==>
      var l := LeafAt(es, p).value;
      LeafAt(after, p) ==
      if l.kind == Blob || l.kind == BlobParquet || !(prefixes == [] || exists q :: q in prefixes && q <= p) then Some(l)
      else if l.sourceUri.None? then None
      else Some(Leaf(if l.footer.Some? then BlobParquet else Blob, OfBytes(digestOf(l.sourceUri.value)),
                     l.size, l.mtime, None, l.footer, None))
    ensures forall p: Path :: LeafAt(after, p).Some? <==> LeafAt(es, p).Some?
  {
    NoLeafAtRoot(es);
    NoLeafAtRoot(after);
    hide LeafAt;
    assert forall p: Path :: InScope(prefixes, p) <==> prefixes == [] || exists q :: q in prefixes && q <= p;
  }

  /** The paths of the pointers in scope. */
  ghost function PointersInScope(es: seq<Entry>, prefixes: seq<Path>): set<Path> {
    set p | p in LeafPaths(es) && LeafAt(es, p).Some? &&
            (LeafAt(es, p).value.kind == Meta || LeafAt(es, p).value.kind == MetaParquet) &&
            (prefixes == [] || exists q :: q in prefixes && q <= p)
  }

  /** As many additions are made as there are pointers in scope. */
  lemma PromotedCount(es: seq<Entry>, prefixes: seq<Path>, xs: seq<Item>, digestOf: string -> string, adds: seq<Item>)
    requires Searchable(es)
    requires forall x :: x in xs <==> LeafAt(es, x.path) == Some(x.leaf) && InScope(prefixes, x.path)
    requires forall p: Path :: Pointer(LeafAt(es, p)) && InScope(prefixes, p) ==> LeafAt(es, p).value.sourceUri.Some?
    requires PromotedItems(xs, digestOf, adds)
    ensures |adds| == |PointersInScope(es, prefixes)|
  {
    assert Rebuild.DistinctPaths(adds);
    hide *;
    PathCount(adds);
    forall p ensures p in PathsOf(adds) <==> p in PointersInScope(es, prefixes) {
      PromotedPath(es, prefixes, xs, digestOf, adds, p);
      PointerInScope(es, prefixes, p);
    }
    assert PathsOf(adds) == PointersInScope(es, prefixes);
  }

  lemma PointerInScope(es: seq<Entry>, prefixes: seq<Path>, p: Path)
    requires Searchable(es)
    ensures Pointer(LeafAt(es, p)) && InScope(prefixes, p) <==> p in PointersInScope(es, prefixes)
  {
    LeafPathsAre(es);
    hide LeafAt, LeafPaths, Searchable;
  }

  lemma PromotedPath(es: seq<Entry>, prefixes: seq<Path>, xs: seq<Item>, digestOf: string -> string, adds: seq<Item>, p: Path)
    requires forall x :: x in xs <==> LeafAt(es, x.path) == Some(x.leaf) && InScope(prefixes, x.path)
    requires Pointer(LeafAt(es, p)) && InScope(prefixes, p) ==> LeafAt(es, p).value.sourceUri.Some?
    requires PromotedItems(xs, digestOf, adds)
    ensures p in PathsOf(adds) <==> Pointer(LeafAt(es, p)) && InScope(prefixes, p)
  {
    hide LeafAt, InScope, Rebuild.DistinctPaths;
    if p in PathsOf(adds) {
      var a :| a in adds && a.path == p;
      var x :| x in xs && PromotedFrom(a, x, digestOf);
    }
    if Pointer(LeafAt(es, p)) && InScope(prefixes, p) {
      var x := Item(p, LeafAt(es, p).value);
      var a := Item(p, Promoted(x.leaf, digestOf(x.leaf.sourceUri.value)));
      assert x in xs && PromotedFrom(a, x, digestOf);
      assert a in adds;
    }
  }

  /** `repo_verify`: every pointer in scope becomes content under the same path with size
      and footer kept, every other leaf stays as it is. */
  method RepoPromote(m: nat, root: Node, prefixes: seq<Path>, digestOf: string -> string) returns (r: Promotion)
    requires 2 <= m && WellFormed(m, root.entries)
    ensures r.MissingSource? ==>
      Pointer(LeafAt(root.entries, r.path)) && InScope(prefixes, r.path) &&
      LeafAt(root.entries, r.path).value.sourceUri.None?
    ensures r.Nothing? ==>
      forall p: Path :: LeafAt(root.entries, p) == PromotedLeaf(LeafAt(root.entries, p), InScope(prefixes, p), digestOf)
    ensures r.PromotedTree? ==>
      forall p: Path :: p != [] ==>
        LeafAt(r.tree.entries, p) == PromotedLeaf(LeafAt(root.entries, p), InScope(prefixes, p), digestOf)
    ensures !r.MissingSource? ==>
      forall p: Path ::
        Pointer(LeafAt(root.entries, p)) && InScope(prefixes, p) ==> LeafAt(root.entries, p).value.sourceUri.Some?
    ensures r.PromotedTree? ==> Frames.Finished(m, r.tree.entries)
    ensures !r.MissingSource? ==> forall p: Path :: LeafAt(root.entries, p).Some? ==>
      var l := LeafAt(root.entries, p).value;
      LeafAt(if r.Nothing? then root.entries else r.tree.entries, p) ==
      if l.kind == Blob || l.kind == BlobParquet || !(prefixes == [] || exists q :: q in prefixes && q <= p) then Some(l)
      else if l.sourceUri.None? then None
      else Some(Leaf(if l.footer.Some? then BlobParquet else Blob, OfBytes(digestOf(l.sourceUri.value)),
                     l.size, l.mtime, None, l.footer, None))
    ensures r.PromotedTree? ==> forall p: Path :: LeafAt(r.tree.entries, p).Some? <==> LeafAt(root.entries, p).Some?
    ensures !r.MissingSource? ==>
      (if r.Nothing? then 0 else r.count) == |PointersInScope(root.entries, prefixes)|
    ensures r.PromotedTree? ==> 0 < r.count
  {
    WellFormedIsSearchable(m, root.entries);
    var xs := ScopeEntries(root, prefixes);
    var adds: seq<Item> := [];
    hide LeafAt, Searchable, WellFormed, Fits, InScope;
    assert PromotedItems(xs[..0], digestOf, adds);
    for i := 0 to |xs|
      invariant PromotedItems(xs[..i], digestOf, adds)
      invariant forall j :: 0 <= j < i ==> ContentKind(xs[j].leaf.kind) || xs[j].leaf.sourceUri.Some?
    {
      hide PromotedItems, Rebuild.DistinctPaths;
      var x := xs[i];
      assert x in xs && xs[..i + 1] == xs[..i] + [x];
      if ContentKind(x.leaf.kind) {
        PromotedSkip(xs[..i], x, digestOf, adds);
        continue;
      }
      if x.leaf.sourceUri.None? {
        return MissingSource(x.path);
      }
      FirstOnes(xs, i);
      PromotedNext(xs[..i], x, digestOf, adds);
      adds := adds + [Item(x.path, Promoted(x.leaf, digestOf(x.leaf.sourceUri.value)))];
    }
    assert xs[..|xs|] == xs;
    forall p: Path
      ensures SplicedLeaf(LeafAt(root.entries, p), p, adds, {}) == PromotedLeaf(LeafAt(root.entries, p), InScope(prefixes, p), digestOf)
    {
      PromotedIs(root.entries, prefixes, xs, digestOf, adds, p);
    }
    forall p: Path | Pointer(LeafAt(root.entries, p)) && InScope(prefixes, p)
      ensures LeafAt(root.entries, p).value.sourceUri.Some?
    {
      var x := Item(p, LeafAt(root.entries, p).value);
      assert x in xs;
    }
    PromotedCount(root.entries, prefixes, xs, digestOf, adds);
    hide PromotedItems, SplicedLeaf;
    if adds == [] {
      NothingSpliced(root.entries);
      PromotedByFields(root.entries, root.entries, prefixes, digestOf);
      return Nothing;
    }
    PromotedPrefixFree(root.entries, prefixes, xs, digestOf, adds);
    var spliced := SpliceTree(m, root, adds, {});
    PromotedByFields(root.entries, spliced.value.entries, prefixes, digestOf);
    return PromotedTree(spliced.value, |adds|);
  }

  lemma FirstOnes(xs: seq<Item>, i: nat)
    requires Rebuild.DistinctPaths(xs) && i < |xs|
    ensures Rebuild.DistinctPaths(xs[..i] + [xs[i]])
  {
    assert xs[..i] + [xs[i]] == xs[..i + 1];
  }

  lemma NothingSpliced(es: seq<Entry>)
    ensures forall p: Path :: SplicedLeaf(LeafAt(es, p), p, [], {}) == LeafAt(es, p)
  {
  }

  /** Promotion keeps the path set, sizes and footers, and leaves only content in scope. */
  lemma PromotionKeeps(l: Option<Leaf>, inScope: bool, digestOf: string -> string)
    requires l.Some? && inScope && !ContentKind(l.value.kind) ==> l.value.sourceUri.Some?
    ensures var after := PromotedLeaf(l, inScope, digestOf);
      && after.Some? == l.Some?
      && (l.Some? ==> after.value.size == l.value.size && after.value.footer == l.value.footer)
      && (l.Some? && inScope ==> ContentKind(after.value.kind))
      && (!inScope ==> after == l)
  {
  }
}
