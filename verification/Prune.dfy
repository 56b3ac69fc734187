/** Pruning staged removals from a built tree, shard by shard. */
module Prune {
  import opened Paths
  import opened Trees
  import opened Builder
  import opened Shards
  import Splice

  // ---- What pruning means on the flat map -----------------------------------

  const LAST := "\U{10FFFF}"

  /** The i-th shard of `dir` is loaded: some removal inside `dir`, as one relative
      string, falls into its range. */
  predicate Touched(es: seq<Entry>, i: nat, dir: Path, removed: set<Path>)
    requires i < |es|
  {
    exists r :: r in removed && dir < r &&
      (NextName(es, i).Some? ==> Lt(Join(r[|dir|..]), NextName(es, i).value)) &&
      Lt(es[i].name, Join(r[|dir|..]) + LAST)
  }

  /** Which removals load a shard, in terms of code points: those strictly inside the directory
      whose relative string is before the next shard's name and, followed by the last
      character, after this one's. */
  lemma TouchedExactly(es: seq<Entry>, i: nat, dir: Path, removed: set<Path>)
    requires i < |es|
    ensures Touched(es, i, dir, removed) <==>
      exists r :: r in removed && |dir| < |r| && r[..|dir|] == dir &&
        (i + 1 == |es| || LexLess(Join(r[|dir|..]), es[i + 1].name)) &&
        LexLess(es[i].name, Join(r[|dir|..]) + LAST)
  {
    forall r | r in removed && dir < r
      ensures i + 1 < |es| ==> (LexLess(Join(r[|dir|..]), es[i + 1].name) <==> Lt(Join(r[|dir|..]), es[i + 1].name))
      ensures LexLess(es[i].name, Join(r[|dir|..]) + LAST) <==> Lt(es[i].name, Join(r[|dir|..]) + LAST)
    {
      if i + 1 < |es| {
        LtIsLexicographic(Join(r[|dir|..]), es[i + 1].name);
      }
      LtIsLexicographic(es[i].name, Join(r[|dir|..]) + LAST);
    }
    hide Lt, LexLess, Join;
    assert forall r :: r in removed ==> (dir < r <==> |dir| < |r| && r[..|dir|] == dir);
  }

  /** Pruning gets to see the child that `p` goes through, on every level down to a
      removed one: none of them sits in a shard left alone. */
  predicate Reached(es: seq<Entry>, dir: Path, p: Path, removed: set<Path>)
    decreases |p|
  {
    p == [] ||
    (&& (AllShards(es) && ShardIndex(es, p[0]) < |es| ==> Touched(es, ShardIndex(es, p[0]), dir, removed))
     && ReachedIn(Child(es, p[0]), dir, p, removed))
  }

  predicate ReachedIn(child: Option<Entry>, dir: Path, p: Path, removed: set<Path>)
    requires p != []
    decreases |p|, 0
  {
    || Splice.PathIsRemoved(dir + [p[0]], removed)
    || child.None? || !child.value.Dir?
    || Reached(child.value.child.entries, dir + [p[0]], p[1..], removed)
  }

  /** What pruning leaves at `p`. */
  function PrunedLeaf(before: Option<Leaf>, full: Path, reached: bool, removed: set<Path>): Option<Leaf> {
    if Splice.PathIsRemoved(full, removed) && reached then None else before
  }

  /** Below the name `n` of `dir`; `seen` says whether its shard was loaded. */
  ghost predicate Pruned(dir: Path, n: Name, before: Option<Entry>, after: Option<Entry>, seen: bool, removed: set<Path>) {
    forall p: Path :: p != [] && p[0] == n ==>
      LeafIn(after, p) == PrunedLeaf(LeafIn(before, p), dir + p, seen && ReachedIn(before, dir, p, removed), removed)
  }

  ghost predicate TreePruned(dir: Path, before: seq<Entry>, after: seq<Entry>, removed: set<Path>) {
    forall p: Path :: p != [] ==>
      LeafAt(after, p) == PrunedLeaf(LeafAt(before, p), dir + p, Reached(before, dir, p, removed), removed)
  }

  // ---- Pruning the entries of one node --------------------------------------

  lemma DroppedEntry(dir: Path, n: Name, e: Entry, removed: set<Path>)
    requires Splice.PathIsRemoved(dir + [n], removed)
    ensures Pruned(dir, n, Some(e), None, true, removed)
  {
    forall p: Path | p != [] && p[0] == n
      ensures PrunedLeaf(LeafIn(Some(e), p), dir + p, ReachedIn(Some(e), dir, p, removed), removed) == None
    {
      assert dir + [p[0]] <= dir + p;
      Splice.RemovedBelow(dir + [n], dir + p, removed);
    }
  }

  lemma KeptEntry(dir: Path, e: Entry, removed: set<Path>)
    requires !Splice.PathIsRemoved(dir + [e.name], removed)
    requires e.Dir? ==> forall r :: r in removed ==> !(dir + [e.name] < r)
    ensures Pruned(dir, e.name, Some(e), Some(e), true, removed)
  {
    var full := dir + [e.name];
    assert full !in removed by {
      assert full[..|full|] == full;
    }
    forall r | r in removed && e.Dir? ensures !(full <= r) {
      assert |r| == |full| && full <= r ==> r == full;
    }
    forall p: Path | p != [] && p[0] == e.name
      ensures LeafIn(Some(e), p) ==
              PrunedLeaf(LeafIn(Some(e), p), dir + p, ReachedIn(Some(e), dir, p, removed), removed)
    {
      Splice.RemovedBelow(full, dir + p, removed);
      assert |p| == 1 ==> dir + p == full;
    }
  }

  lemma DescendedEntry(dir: Path, e: Entry, after: Option<Node>, removed: set<Path>)
    requires e.Dir? && !Splice.PathIsRemoved(dir + [e.name], removed)
    requires TreePruned(dir + [e.name], e.child.entries, EntriesOf(after), removed)
    ensures Pruned(dir, e.name, Some(e), if after.Some? then Some(Dir(e.name, after.value)) else None, true, removed)
  {
    var child := if after.Some? then Some(Dir(e.name, after.value)) else None;
    forall p: Path | p != [] && p[0] == e.name
      ensures LeafIn(child, p) ==
              PrunedLeaf(LeafIn(Some(e), p), dir + p, ReachedIn(Some(e), dir, p, removed), removed)
    {
      if |p| > 1 {
        assert dir + [e.name] + p[1..] == dir + p;
        assert LeafIn(child, p) == LeafAt(EntriesOf(after), p[1..]);
      }
    }
  }

  /** Entries kept of `es`, in order: what a node may keep of a published one. */
  ghost predicate KeptOf(m: nat, es: seq<Entry>, kept: seq<Entry>) {
    && Plain(kept) && Sorted(kept) && |kept| <= |es|
    && Subdirectories(m, kept)
    && (forall k :: k in kept ==> exists e :: e in es && e.name == k.name)
  }

  ghost predicate ChildrenPruned(dir: Path, es: seq<Entry>, kept: seq<Entry>, removed: set<Path>) {
    forall n: Name :: Pruned(dir, n, Child(es, n), Child(kept, n), true, removed)
  }

  lemma KeptStep(m: nat, es: seq<Entry>, e: Entry, kept: seq<Entry>, k: Entry)
    requires Sorted(es + [e]) && KeptOf(m, es, kept)
    requires k.name == e.name && !k.Shard? && Subdirectories(m, [k])
    ensures KeptOf(m, es + [e], kept + [k])
  {
    var next := kept + [k];
    assert k in [k];
    assert e in es + [e] && forall x :: x in es ==> x in es + [e];
    forall x | x in kept ensures Lt(x.name, k.name) {
      var y :| y in es && y.name == x.name;
      var i :| 0 <= i < |es| && es[i] == y;
      assert (es + [e])[i] == y && (es + [e])[|es|] == e;
    }
  }

  lemma DropStep(m: nat, es: seq<Entry>, e: Entry, kept: seq<Entry>)
    requires KeptOf(m, es, kept)
    ensures KeptOf(m, es + [e], kept)
  {
    assert forall x :: x in es ==> x in es + [e];
  }

  lemma ChildrenStep(m: nat, dir: Path, es: seq<Entry>, e: Entry, kept: seq<Entry>, child: Option<Entry>, removed: set<Path>)
    requires Plain(es + [e]) && Sorted(es + [e]) && KeptOf(m, es, kept)
    requires child.Some? ==> child.value.name == e.name && !child.value.Shard?
    ensures var next := if child.Some? then kept + [child.value] else kept;
      forall n: Name :: && Child(es + [e], n) == (if n == e.name then Some(e) else Child(es, n))
                        && Child(next, n) == (if n == e.name then child else Child(kept, n))
  {
    assert e in es + [e] && forall x :: x in es ==> x in es + [e];
    forall x | x in es ensures x.name != e.name {
      var i :| 0 <= i < |es| && es[i] == x;
      assert (es + [e])[i] == x && (es + [e])[|es|] == e;
    }
    ChildNone(es, e.name);
    ChildNone(kept, e.name);
    forall n: Name
      ensures Child(es + [e], n) == if n == e.name then Some(e) else Child(es, n)
    {
      ChildSnoc(es, e, n);
    }
    if child.Some? {
      forall n: Name
        ensures Child(kept + [child.value], n) == if n == e.name then child else Child(kept, n)
      {
        ChildSnoc(kept, child.value, n);
      }
    }
  }

  lemma PruneStep(m: nat, dir: Path, es: seq<Entry>, e: Entry, kept: seq<Entry>, child: Option<Entry>, removed: set<Path>)
    requires Plain(es + [e]) && Sorted(es + [e])
    requires KeptOf(m, es, kept) && ChildrenPruned(dir, es, kept, removed)
    requires child.Some? ==>
      child.value.name == e.name && !child.value.Shard? && Subdirectories(m, [child.value])
    requires Pruned(dir, e.name, Some(e), child, true, removed)
    ensures var next := if child.Some? then kept + [child.value] else kept;
      KeptOf(m, es + [e], next) && ChildrenPruned(dir, es + [e], next, removed)
  {
    hide Pruned, KeptOf, Plain, Sorted, Subdirectories;
    ChildrenStep(m, dir, es, e, kept, child, removed);
    if child.Some? {
      KeptStep(m, es, e, kept, child.value);
    } else {
      DropStep(m, es, e, kept);
    }
  }

  lemma NothingPruned(m: nat, dir: Path, removed: set<Path>)
    ensures KeptOf(m, [], []) && ChildrenPruned(dir, [], [], removed)
  {
  }

  lemma PublishedEntry(m: nat, es: seq<Entry>, i: nat)
    requires WellFormed(m, es) && Plain(es) && i < |es|
    ensures !es[i].Shard? && Subdirectories(m, [es[i]]) && Sorted(es[..i + 1]) && Plain(es[..i + 1])
  {
    assert es[i] in es;
  }

  /** One entry of `prune_children`: what is kept of it, and whether it changed. */
  method PruneEntry(m: nat, dir: Path, e: Entry, removed: set<Path>) returns (child: Option<Entry>, changed: bool)
    requires 2 <= m && !e.Shard? && Subdirectories(m, [e])
    ensures child.Some? ==>
      child.value.name == e.name && !child.value.Shard? && Subdirectories(m, [child.value])
    ensures Pruned(dir, e.name, Some(e), child, true, removed)
    ensures !changed ==> child == Some(e)
    decreases Height([e]), 0
  {
    hide Pruned;
    var full := dir + [e.name];
    if Splice.PathIsRemoved(full, removed) {
      DroppedEntry(dir, e.name, e, removed);
      return None, true;
    }
    if e.Dir? && exists r :: r in removed && full < r {
      assert e in [e];
      HeightOfMember([e], e);
      var sub := PruneDirectory(m, full, e.child, removed);
      DescendedEntry(dir, e, sub, removed);
      child := if sub.Some? then Some(Dir(e.name, sub.value)) else None;
      return child, child != Some(e);
    }
    KeptEntry(dir, e, removed);
    return Some(e), false;
  }

  /** `prune_children`. */
  method PruneChildren(m: nat, dir: Path, es: seq<Entry>, removed: set<Path>) returns (r: Rewrite)
    requires 2 <= m && Plain(es) && WellFormed(m, es)
    ensures KeptOf(m, es, r.kept) && ChildrenPruned(dir, es, r.kept, removed)
    ensures !r.changed ==> r.kept == es
    decreases Height(es), 1
  {
    var kept: seq<Entry>, changed := [], false;
    NothingPruned(m, dir, removed);
    for i := 0 to |es|
      invariant KeptOf(m, es[..i], kept) && ChildrenPruned(dir, es[..i], kept, removed)
      invariant !changed ==> kept == es[..i]
    {
      hide KeptOf, ChildrenPruned, Pruned, Plain, Sorted, Subdirectories, WellFormed;
      var e := es[i];
      assert es[..i + 1] == es[..i] + [e];
      PublishedEntry(m, es, i);
      HeightOfEntry(es, i);
      var child, different := PruneEntry(m, dir, e, removed);
      PruneStep(m, dir, es[..i], e, kept, child, removed);
      kept, changed := if child.Some? then kept + [child.value] else kept, changed || different;
    }
    assert es[..|es|] == es;
    return Rewrite(kept, changed);
  }

  // ---- Pruning a sharded directory ------------------------------------------

  /** Shards that may be published as they are. */
  ghost predicate Bodies(m: nat, shards: seq<Entry>) {
    forall s :: s in shards ==>
      s.Shard? && Plain(s.child.entries) && s.child.entries != [] && WellFormed(m, s.child.entries)
  }

  /** The i-th range of a sharded directory pruned into `next`. */
  ghost predicate RangePruned(m: nat, dir: Path, es: seq<Entry>, i: nat, next: seq<Entry>, seen: bool, removed: set<Path>) {
    && CoverRange(es, i, next) && Bodies(m, next) && |next| <= 1
    && (forall n: Name :: ShardIndex(es, n) == i ==>
          Pruned(dir, n, Child(es, n), Child(next, n), seen, removed))
  }

  ghost predicate RangesPruned(m: nat, dir: Path, es: seq<Entry>, i: nat, kept: seq<Entry>, removed: set<Path>) {
    && CoverUpTo(es, i, kept) && Bodies(m, kept) && |kept| <= i <= |es|
    && (forall n: Name :: ShardIndex(es, n) < i ==>
          Pruned(dir, n, Child(es, n), Child(kept, n), Touched(es, ShardIndex(es, n), dir, removed), removed))
  }

  lemma RangeStep(m: nat, dir: Path, es: seq<Entry>, i: nat, kept: seq<Entry>, next: seq<Entry>, removed: set<Path>)
    requires Sorted(es) && i < |es|
    requires RangesPruned(m, dir, es, i, kept, removed)
    requires RangePruned(m, dir, es, i, next, Touched(es, i, dir, removed), removed)
    ensures RangesPruned(m, dir, es, i + 1, kept + next, removed)
  {
    hide Pruned, Touched, ShardIndex;
    AppendRange(es, i, kept, next);
  }

  lemma UntouchedRange(m: nat, dir: Path, es: seq<Entry>, i: nat, removed: set<Path>)
    requires WellFormed(m, es) && AllShards(es) && i < |es|
    ensures RangePruned(m, dir, es, i, [es[i]], false, removed)
  {
    assert es[i] in es;
    OwnRange(m, es, i);
    hide CoverRange, ShardIndex, GoodShards, WellFormed;
  }

  /** The body of a loaded shard, pruned, is the range pruned. */
  lemma LoadedRange(m: nat, dir: Path, es: seq<Entry>, i: nat, kept: seq<Entry>, next: seq<Entry>, removed: set<Path>)
    requires WellFormed(m, es) && AllShards(es) && i < |es|
    requires ChildrenPruned(dir, es[i].child.entries, kept, removed)
    requires CoverRange(es, i, next) && Bodies(m, next) && |next| <= 1
    requires forall n: Name :: Child(next, n) == Child(kept, n)
    ensures RangePruned(m, dir, es, i, next, true, removed)
  {
    OwnRange(m, es, i);
    hide Pruned, CoverRange, Bodies, ShardIndex, WellFormed, GoodShards;
  }

  lemma KeptBody(m: nat, es: seq<Entry>, kept: seq<Entry>)
    requires WellFormed(m, es) && KeptOf(m, es, kept)
    ensures WellFormed(m, kept)
  {
    assert forall j :: 0 <= j < |kept| ==> kept[j] in kept;
  }

  lemma ShrunkRange(m: nat, dir: Path, es: seq<Entry>, i: nat, kept: seq<Entry>, removed: set<Path>)
    requires WellFormed(m, es) && AllShards(es) && i < |es|
    requires KeptOf(m, es[i].child.entries, kept) && ChildrenPruned(dir, es[i].child.entries, kept, removed)
    requires kept != []
    ensures RangePruned(m, dir, es, i, [Shard(kept[0].name, Node(kept))], true, removed)
  {
    var next := [Shard(kept[0].name, Node(kept))];
    OwnBody(m, es, i);
    KeptBody(m, es[i].child.entries, kept);
    KeptInRange(m, es, i, kept);
    hide WellFormed, ChildrenPruned, ShardIndex;
    ShrunkCover(m, es, i, kept);
    assert [next[0]][1..] == [];
    hide CoverRange, KeptOf;
    LoadedRange(m, dir, es, i, kept, next, removed);
  }

  lemma KeptInRange(m: nat, es: seq<Entry>, i: nat, kept: seq<Entry>)
    requires WellFormed(m, es) && AllShards(es) && i < |es|
    requires KeptOf(m, es[i].child.entries, kept)
    ensures Plain(kept) && forall k :: k in kept ==> ShardIndex(es, k.name) == i
  {
    var body := es[i].child.entries;
    OwnRange(m, es, i);
    OwnBody(m, es, i);
    forall k | k in kept ensures ShardIndex(es, k.name) == i {
      ChildNone(body, k.name);
    }
  }

  lemma ShrunkCover(m: nat, es: seq<Entry>, i: nat, kept: seq<Entry>)
    requires Plain(kept) && WellFormed(m, kept) && kept != []
    requires forall k :: k in kept ==> ShardIndex(es, k.name) == i
    ensures CoverRange(es, i, [Shard(kept[0].name, Node(kept))])
  {
    var next := [Shard(kept[0].name, Node(kept))];
    assert next[1..] == [];
    WellFormedIsSearchable(m, kept);
    forall n: Name | Child(kept, n).Some? ensures ShardIndex(es, n) == i && !Lt(n, kept[0].name) {
      ChildNone(kept, n);
    }
  }

  lemma EmptiedRange(m: nat, dir: Path, es: seq<Entry>, i: nat, removed: set<Path>)
    requires WellFormed(m, es) && AllShards(es) && i < |es|
    requires ChildrenPruned(dir, es[i].child.entries, [], removed)
    ensures RangePruned(m, dir, es, i, [], true, removed)
  {
    LoadedRange(m, dir, es, i, [], [], removed);
  }

  lemma UnchangedRange(m: nat, dir: Path, es: seq<Entry>, i: nat, removed: set<Path>)
    requires WellFormed(m, es) && AllShards(es) && i < |es|
    requires ChildrenPruned(dir, es[i].child.entries, es[i].child.entries, removed)
    ensures RangePruned(m, dir, es, i, [es[i]], true, removed)
  {
    assert es[i] in es;
    OwnRange(m, es, i);
    LoadedRange(m, dir, es, i, es[i].child.entries, [es[i]], removed);
  }

  lemma OwnBody(m: nat, es: seq<Entry>, i: nat)
    requires WellFormed(m, es) && AllShards(es) && i < |es|
    ensures Plain(es[i].child.entries) && WellFormed(m, es[i].child.entries)
    ensures es[i].Shard? && Height(es[i].child.entries) < Height(es)
  {
    assert es[i] in es;
    HeightOfMember(es, es[i]);
  }

  lemma KeptSorted(m: nat, es: seq<Entry>, kept: seq<Entry>)
    requires KeptOf(m, es, kept)
    ensures Sorted(kept) && SortByName(kept) == kept
  {
    SortOfSorted(kept);
  }

  /** One shard of a directory. */
  method PruneShard(m: nat, dir: Path, es: seq<Entry>, i: nat, removed: set<Path>) returns (r: Rewrite)
    requires 2 <= m && WellFormed(m, es) && AllShards(es) && i < |es|
    ensures RangePruned(m, dir, es, i, r.kept, Touched(es, i, dir, removed), removed)
    ensures !r.changed ==> r.kept == [es[i]]
    decreases Height(es), 0
  {
    OwnBody(m, es, i);
    hide *;
    if !Touched(es, i, dir, removed) {
      UntouchedRange(m, dir, es, i, removed);
      return Rewrite([es[i]], false);
    }
    var body := PruneChildren(m, dir, es[i].child.entries, removed);
    if body.kept == [] {
      EmptiedRange(m, dir, es, i, removed);
      return Rewrite([], true);
    }
    if !body.changed {
      UnchangedRange(m, dir, es, i, removed);
      return Rewrite([es[i]], false);
    }
    ShrunkRange(m, dir, es, i, body.kept, removed);
    KeptSorted(m, es[i].child.entries, body.kept);
    var written := WriteNode(SortByName(body.kept));
    return Rewrite([Shard(body.kept[0].name, written.value)], true);
  }

  lemma NoRangesYet(m: nat, dir: Path, es: seq<Entry>, removed: set<Path>)
    ensures RangesPruned(m, dir, es, 0, [], removed)
  {
  }

  /** All ranges pruned are the directory pruned. */
  lemma AllRanges(m: nat, dir: Path, es: seq<Entry>, kept: seq<Entry>, removed: set<Path>)
    requires WellFormed(m, es) && AllShards(es)
    requires RangesPruned(m, dir, es, |es|, kept, removed)
    ensures TreePruned(dir, es, kept, removed)
    ensures WellFormed(m, kept) && Sorted(kept)
  {
    forall n: Name { ShardIndexSpec(es, n, 0); }
    assert forall i :: 0 <= i < |kept| ==> kept[i] in kept;
    assert Sorted(kept);
    hide Touched, ShardIndex;
  }

  // ---- Pruning a directory --------------------------------------------------

  lemma PlainPruned(m: nat, dir: Path, es: seq<Entry>, kept: seq<Entry>, removed: set<Path>)
    requires Plain(es) && WellFormed(m, es)
    requires KeptOf(m, es, kept) && ChildrenPruned(dir, es, kept, removed)
    ensures TreePruned(dir, es, kept, removed)
    ensures WellFormed(m, kept) && Sorted(kept) && |kept| <= m
  {
    KeptBody(m, es, kept);
    WellFormedCases(m, es);
    forall p: Path | p != []
      ensures LeafAt(kept, p) == PrunedLeaf(LeafAt(es, p), dir + p, Reached(es, dir, p, removed), removed)
    {
      assert Pruned(dir, p[0], Child(es, p[0]), Child(kept, p[0]), true, removed);
    }
  }

  lemma KeptIsWritten(m: nat, kept: seq<Entry>)
    requires WellFormed(m, kept)
    ensures Writable(kept) && SortByName(kept) == kept && |kept| <= m
  {
    WellFormedIsSearchable(m, kept);
    SortOfSorted(kept);
    SortedIsDistinct(kept);
  }

  /** The loop over the shards of a directory. */
  method PruneShards(m: nat, dir: Path, es: seq<Entry>, removed: set<Path>) returns (r: Rewrite)
    requires 2 <= m && WellFormed(m, es) && AllShards(es)
    ensures RangesPruned(m, dir, es, |es|, r.kept, removed)
    ensures !r.changed ==> r.kept == es
    decreases Height(es), 1
  {
    var kept: seq<Entry>, changed := [], false;
    NoRangesYet(m, dir, es, removed);
    assert Sorted(es);
    hide *;
    assert es[..0] == [];
    for i := 0 to |es|
      invariant RangesPruned(m, dir, es, i, kept, removed)
      invariant !changed ==> kept == es[..i]
    {
      var part := PruneShard(m, dir, es, i, removed);
      RangeStep(m, dir, es, i, kept, part.kept, removed);
      kept, changed := kept + part.kept, changed || part.changed;
    }
    return Rewrite(kept, changed);
  }

  /** Writing what is kept of a node gives back just that. */
  method WriteKept(m: nat, kept: seq<Entry>) returns (node: Node)
    requires 2 <= m && WellFormed(m, kept)
    ensures node.entries == kept
  {
    KeptIsWritten(m, kept);
    var built := BuildChildren(m, kept);
    node := built.value;
  }

  /** `prune`: every removed path that pruning reaches is gone, everything else stays,
      and what is left is a directory that may be published. */
  method PruneDirectory(m: nat, dir: Path, tree: Node, removed: set<Path>) returns (r: Option<Node>)
    requires 2 <= m && WellFormed(m, tree.entries)
    ensures r.Some? ==> r.value.entries != [] && WellFormed(m, r.value.entries)
    ensures TreePruned(dir, tree.entries, EntriesOf(r), removed)
    decreases Height(tree.entries), 4
  {
    var es := tree.entries;
    WellFormedCases(m, es);
    hide TreePruned, WellFormed, RangesPruned, KeptOf, ChildrenPruned;
    var part: Rewrite;
    if exists e :: e in es && e.Shard? {
      part := PruneShards(m, dir, es, removed);
      AllRanges(m, dir, es, part.kept, removed);
    } else {
      part := PruneChildren(m, dir, es, removed);
      PlainPruned(m, dir, es, part.kept, removed);
    }
    if part.kept == [] {
      r := None;
    } else if !part.changed {
      r := Some(tree);
    } else {
      var written := WriteKept(m, part.kept);
      r := Some(written);
    }
  }

  /** `_prune_tree`. */
  method PruneTree(m: nat, root: Node, removed: set<Path>) returns (r: Option<Node>)
    requires 2 <= m && WellFormed(m, root.entries)
    ensures r.Some? ==> r.value.entries != [] && WellFormed(m, r.value.entries)
    ensures forall p: Path :: p != [] ==>
      LeafAt(EntriesOf(r), p) ==
      PrunedLeaf(LeafAt(root.entries, p), p, Reached(root.entries, [], p, removed), removed)
  {
    r := PruneDirectory(m, [], root, removed);
    assert forall p: Path :: [] + p == p;
  }

  // ---- Which removals pruning reaches ---------------------------------------

  lemma {:induction false} LexExtends(a: string, t: string, next: string)
    requires LexLess(a, next)
    ensures LexLess(a + t, next) <==> !(a < next) || LexLess(t, next[|a|..])
  {
    if a == "" {
      assert a + t == t && next[0..] == next;
    } else {
      assert (a + t)[0] == a[0] && (a + t)[1..] == a[1..] + t;
      if a[0] == next[0] {
        LexExtends(a[1..], t, next[1..]);
        assert a < next <==> a[1..] < next[1..];
        assert a < next ==> next[1..][|a| - 1..] == next[|a|..];
      }
    }
  }

  /** Where the whole relative path is on the far side of a bound that its first
      component is not: the bound continues that name with a character before the slash. */
  lemma FarSide(n: Name, rest: string, next: Name)
    requires Lt(n, next)
    ensures Lt(n + "/" + rest, next) <==> !(n < next && next[|n|] < '/')
  {
    LtIsLexicographic(n, next);
    LtIsLexicographic(n + "/" + rest, next);
    assert n + "/" + rest == n + ("/" + rest);
    LexExtends(n, "/" + rest, next);
    assert n < next ==> next[|n|] in next;
  }

  lemma {:induction false} LongerIsLater(a: string, t: string)
    requires t != ""
    ensures LexLess(a, a + t)
  {
    if a != "" {
      assert (a + t)[1..] == a[1..] + t;
      LongerIsLater(a[1..], t);
    }
  }

  lemma JoinStartsWith(p: Path)
    requires p != []
    ensures Join(p) == if |p| == 1 then p[0] else p[0] + "/" + Join(p[1..])
    ensures Lt(p[0], Join(p) + LAST)
  {
    var t := if |p| == 1 then LAST else "/" + Join(p[1..]) + LAST;
    assert Join(p) + LAST == p[0] + t;
    LongerIsLater(p[0], t);
    LtIsLexicographic(p[0], Join(p) + LAST);
  }

  /** A removal inside `dir` loads the shard its first component falls to, except when
      it goes deeper and the next shard's name continues that component with a
      character before the slash. */
  lemma RemovalTouches(es: seq<Entry>, dir: Path, r: Path, removed: set<Path>)
    requires Searchable(es) && AllShards(es)
    requires r in removed && dir < r && Child(es, r[|dir|]).Some?
    ensures var i := ShardIndex(es, r[|dir|]);
      && i < |es|
      && (|r| == |dir| + 1 ==> Touched(es, i, dir, removed))
      && (i + 1 < |es| && !(r[|dir|] < es[i + 1].name && es[i + 1].name[|r[|dir|]|] < '/') ==>
            Touched(es, i, dir, removed))
      && (i + 1 == |es| ==> Touched(es, i, dir, removed))
  {
    var n, rel := r[|dir|], r[|dir|..];
    ChildInShard(es, n);
    var i := ShardIndex(es, n);
    assert es[i] in es;
    HolderInRange(es, i, n);
    JoinStartsWith(rel);
    assert Lt(es[i].name, Join(rel) + LAST);
    if i + 1 < |es| && |rel| > 1 {
      FarSide(n, Join(rel[1..]), es[i + 1].name);
    }
  }

  /** Only the directory that holds `p` itself may be sharded, none above it. */
  ghost predicate PlainAbove(es: seq<Entry>, p: Path)
    decreases |p|
  {
    |p| <= 1 ||
    (&& !AllShards(es)
     && match Child(es, p[0])
        case Some(Dir(_, child)) => PlainAbove(child.entries, p[1..])
        case _ => true)
  }

  /** Removals that name a direct child of a sharded directory always take effect. */
  lemma {:induction false} DirectRemovalsReached(es: seq<Entry>, dir: Path, p: Path, k: nat, removed: set<Path>)
    requires Searchable(es) && 1 <= k <= |p| && dir + p[..k] in removed
    requires PlainAbove(es, p[..k]) && LeafAt(es, p).Some?
    ensures Reached(es, dir, p, removed)
    decreases k
  {
    var c := Child(es, p[0]);
    if k == 1 {
      DirectRemovalReached(es, dir, p, removed);
    } else if c.value.Dir? {
      hide Touched;
      assert dir + [p[0]] + p[1..][..k - 1] == dir + p[..k];
      assert p[1..][..k - 1] == p[..k][1..];
      ChildIsSearchable(es, p[0]);
      DirectRemovalsReached(c.value.child.entries, dir + [p[0]], p[1..], k - 1, removed);
    }
  }

  lemma DirectRemovalReached(es: seq<Entry>, dir: Path, p: Path, removed: set<Path>)
    requires Searchable(es) && p != [] && dir + p[..1] in removed
    requires Child(es, p[0]).Some?
    ensures Reached(es, dir, p, removed)
  {
    var full := dir + p[..1];
    assert full[|dir|] == p[0] && full == dir + [p[0]];
    assert (dir + [p[0]])[..|dir| + 1] == full;
    if AllShards(es) {
      RemovalTouches(es, dir, full, removed);
    }
  }

  lemma {:induction false} ChildIsSearchable(es: seq<Entry>, n: Name)
    requires Searchable(es) && Child(es, n).Some? && Child(es, n).value.Dir?
    ensures Searchable(Child(es, n).value.child.entries)
    decreases Height(es)
  {
    var k := ChildHolder(es, n);
    UniqueHolder(es, k, n);
    if es[k].Shard? {
      HeightOfMember(es, es[k]);
      ChildIsSearchable(es[k].child.entries, n);
    }
  }

  /** Pruning does what it is for exactly when it reaches every removed leaf. */
  lemma PruneIsCompleteIff(es: seq<Entry>, after: seq<Entry>, removed: set<Path>)
    requires TreePruned([], es, after, removed)
    ensures (forall p: Path :: p != [] && Splice.PathIsRemoved(p, removed) ==> LeafAt(after, p) == None) <==>
            (forall p: Path :: p != [] && Splice.PathIsRemoved(p, removed) && LeafAt(es, p).Some? ==>
               Reached(es, [], p, removed))
  {
    forall p: Path | p != []
      ensures LeafAt(after, p) == PrunedLeaf(LeafAt(es, p), p, Reached(es, [], p, removed), removed)
    {
      assert [] + p == p;
    }
  }

  function MissedTree(leaf: Leaf): seq<Entry> {
    [Shard("b", Node([Dir("b", Node([File("c", leaf)]))])), Shard("b.txt", Node([File("b.txt", leaf)]))]
  }

  lemma MissedPlaces()
    ensures Lt("b", "b.txt") && !Lt("b/c", "b.txt")
  {
    LtIsLexicographic("b", "b.txt");
    LtIsLexicographic("b/c", "b.txt");
    assert "b.txt"[1..] == ".txt" && "b/c"[1..] == "/c" && "b"[1..] == "";
  }

  lemma SingleInRange(e: Entry, hi: Option<Name>)
    requires !e.Shard? && (hi.Some? ==> Lt(e.name, hi.value))
    ensures InRange([e], e.name, hi)
    ensures forall n: Name :: Child([e], n) == if n == e.name then Some(e) else None
  {
    assert [e][1..] == [];
  }

  lemma TwoShards(m: nat, a: Entry, b: Entry)
    requires 2 <= m && !a.Shard? && !b.Shard? && Lt(a.name, b.name)
    requires WellFormed(m, [a]) && WellFormed(m, [b])
    ensures WellFormed(m, [Shard(a.name, Node([a])), Shard(b.name, Node([b]))])
  {
    SingleInRange(a, Some(b.name));
    SingleInRange(b, None);
    hide InRange, Lt;
  }

  lemma SingleWellFormed(m: nat, e: Entry)
    requires 2 <= m && !e.Shard? && (e.Dir? ==> e.child.entries != [] && WellFormed(m, e.child.entries))
    ensures WellFormed(m, [e])
  {
  }

  lemma MissedChildren(leaf: Leaf)
    ensures WellFormed(2, MissedTree(leaf))
    ensures Child(MissedTree(leaf), "b") == Some(Dir("b", Node([File("c", leaf)])))
  {
    MissedPlaces();
    var d := Dir("b", Node([File("c", leaf)]));
    hide Lt, WellFormed;
    SingleWellFormed(2, File("c", leaf));
    SingleWellFormed(2, d);
    SingleWellFormed(2, File("b.txt", leaf));
    TwoShards(2, d, File("b.txt", leaf));
    SingleInRange(d, None);
  }

  /** Not every removal is reached: `b/c` stays when the next shard starts at `b.txt`. */
  lemma RemovalMissed(leaf: Leaf)
    ensures WellFormed(2, MissedTree(leaf))
    ensures LeafAt(MissedTree(leaf), ["b", "c"]) == Some(leaf)
    ensures Splice.PathIsRemoved(["b", "c"], {["b", "c"]})
    ensures !Reached(MissedTree(leaf), [], ["b", "c"], {["b", "c"]})
  {
    var es := MissedTree(leaf);
    var p: Path := ["b", "c"];
    MissedChildren(leaf);
    assert p[..2] == p && p[1..] == ["c"];
    MissedRange(leaf);
    hide Lt, WellFormed;
    assert AllShards(es);
  }

  lemma MissedRange(leaf: Leaf)
    ensures ShardIndex(MissedTree(leaf), "b") == 0
    ensures !Touched(MissedTree(leaf), 0, [], {["b", "c"]})
  {
    var es := MissedTree(leaf);
    var p: Path := ["b", "c"];
    MissedPlaces();
    assert BisectRight(es, "b") == 1 by {
      assert es[1..] == [es[1]];
    }
    assert NextName(es, 0) == Some("b.txt");
    hide Lt;
    assert p[1..] == ["c"] && Join(p) == "b/c";
    assert forall r :: r in {p} ==> r == p && r[0..] == p;
  }
}
