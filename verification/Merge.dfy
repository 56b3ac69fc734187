/** Three-way merge of trees, by directory and by shard range. */
module Merge {
  import opened Paths
  import opened Trees
  import opened Builder
  import opened Shards
  import opened MergeRules
  import opened Sets

  // ---- Merging one child ----------------------------------------------------

  /** `found` lists exactly the conflicts at or below `path`. */
  ghost predicate ChildReports(path: Path, n: Name, base: Option<Entry>, ours: Option<Entry>, theirs: Option<Entry>, found: seq<Path>) {
    && (forall f :: f in found ==> path <= f)
    && (forall q: Path :: path + q in found <==> ChildVerdict(base, ours, theirs, [n] + q) == Conflict)
  }

  ghost predicate TreeReports(dir: Path, base: Option<Node>, ours: Option<Node>, theirs: Option<Node>, found: seq<Path>) {
    && (forall f :: f in found ==> dir <= f)
    && (forall q: Path :: dir + q in found <==> TreeVerdict(base, ours, theirs, q) == Conflict)
  }

  ghost predicate ChildBreaks(n: Name, base: Option<Entry>, ours: Option<Entry>, theirs: Option<Entry>) {
    exists q: Path :: ChildVerdict(base, ours, theirs, [n] + q) == Broken
  }

  /** An entry a merge may produce for the name `n`. */
  ghost predicate MergedChild(n: Name, e: Option<Entry>) {
    e.Some? ==>
      && e.value.name == n && !e.value.Shard?
      && (e.value.Dir? ==> e.value.child.entries != [] && Searchable(e.value.child.entries))
  }

  /** A tree that is missing rather than empty. */
  predicate Filled(tree: Option<Node>) {
    tree.Some? ==> tree.value.entries != []
  }

  lemma PublishedIsMergedChild(m: nat, n: Name, e: Option<Entry>)
    requires PublishedChild(m, n, e)
    ensures MergedChild(n, e)
  {
    if e.Some? && e.value.Dir? {
      WellFormedIsSearchable(m, e.value.child.entries);
    }
  }

  lemma BothLost(n: Name, base: Option<Entry>, ours: Option<Entry>, theirs: Option<Entry>)
    requires base.Some? && ours.None? && theirs.None?
    ensures ChildBreaks(n, base, ours, theirs)
  {
    assert ChildVerdict(base, ours, theirs, [n] + []) == Broken;
  }

  /** A side is taken over: the resolved one. */
  lemma TakenMerges(base: Option<Entry>, ours: Option<Entry>, theirs: Option<Entry>, merged: Option<Entry>)
    requires
      || (Same(ours, theirs) && merged == ours)
      || (Same(ours, base) && merged == theirs)
      || (Same(theirs, base) && merged == ours)
      || (base.None? && ours.None? && merged == theirs) || (base.None? && theirs.None? && merged == ours)
      || (Same(ours, base) && theirs.None? && merged == None) || (Same(theirs, base) && ours.None? && merged == None)
    ensures ChildMerges(base, ours, theirs, merged)
  {
  }

  lemma OneConflict(path: Path, n: Name, base: Option<Entry>, ours: Option<Entry>, theirs: Option<Entry>)
    requires forall q: Path :: ChildVerdict(base, ours, theirs, [n] + q) == if q == [] then Conflict else Fine
    ensures ChildReports(path, n, base, ours, theirs, [path])
    ensures !ChildBreaks(n, base, ours, theirs)
  {
    assert path + [] == path;
    forall q: Path ensures path + q in [path] <==> q == [] {
      assert |path + q| == |path| + |q|;
    }
  }

  lemma NoConflict(path: Path, n: Name, base: Option<Entry>, ours: Option<Entry>, theirs: Option<Entry>)
    requires forall q: Path :: ChildVerdict(base, ours, theirs, [n] + q) == Fine
    ensures ChildReports(path, n, base, ours, theirs, [])
    ensures !ChildBreaks(n, base, ours, theirs)
  {
  }

  /** Two subdirectories merge as their contents do. */
  lemma SubtreesMerge(n: Name, base: Option<Entry>, ours: Entry, theirs: Entry, merged: Option<Node>)
    requires base.Some? ==> !base.value.Shard?
    requires ours.Dir? && theirs.Dir?
    requires TreeMerges(EntriesOf(SubtreeOf(base)), ours.child.entries, theirs.child.entries, EntriesOf(merged))
    ensures ChildMerges(base, Some(ours), Some(theirs), if merged.Some? then Some(Dir(n, merged.value)) else None)
  {
    var child := if merged.Some? then Some(Dir(n, merged.value)) else None;
    var b, o, t, r := EntriesOf(SubtreeOf(base)), ours.child.entries, theirs.child.entries, EntriesOf(merged);
    forall p: Path | p != []
      ensures MergesAt(LeafIn(base, p), LeafIn(Some(ours), p), LeafIn(Some(theirs), p), LeafIn(child, p))
    {
      if |p| > 1 {
        TreeMergesAt(b, o, t, r, p[1..]);
        assert LeafIn(base, p) == LeafAt(b, p[1..]) && LeafIn(child, p) == LeafAt(r, p[1..]);
      }
    }
  }

  // ---- Keeping the node invariant --------------------------------------------

  ghost predicate SoundTree(m: nat, tree: Option<Node>) {
    tree.Some? && tree.value.entries != [] ==> Sound(m, tree.value)
  }

  /** The merged tree keeps the node invariant, as long as directories fit, just when no
      shard range overflows. */
  ghost predicate Keeps(m: nat, base: Option<Node>, ours: Option<Node>, theirs: Option<Node>, after: Option<Node>) {
    && (NoOverflow(m, base, ours, theirs) ==> SoundTree(m, after))
    && (WellFormed(m, EntriesOf(after)) ==> NoOverflow(m, base, ours, theirs))
  }

  ghost predicate ChildKeeps(m: nat, base: Option<Entry>, ours: Option<Entry>, theirs: Option<Entry>, merged: Option<Entry>) {
    Keeps(m, SubtreeOf(base), SubtreeOf(ours), SubtreeOf(theirs), SubtreeOf(merged))
  }

  lemma TakenKeeps(m: nat, base: Option<Node>, ours: Option<Node>, theirs: Option<Node>, after: Option<Node>)
    requires Resolvable(base, ours, theirs) || ours.None? || theirs.None?
    requires Published(m, after)
    ensures Keeps(m, base, ours, theirs, after)
  {
    DecidedNoOverflow(m, base, ours, theirs);
    if after.Some? {
      WellFormedIsSound(m, after.value.entries);
      assert Node(after.value.entries) == after.value;
    }
  }

  /** A child taken as it is from one side. */
  lemma TakenChildKeeps(m: nat, n: Name, base: Option<Entry>, ours: Option<Entry>, theirs: Option<Entry>, merged: Option<Entry>)
    requires Same(ours, theirs) || Same(ours, base) || Same(theirs, base) || ours.None? || theirs.None?
    requires PublishedChild(m, n, merged)
    ensures ChildKeeps(m, base, ours, theirs, merged)
  {
    TakenKeeps(m, SubtreeOf(base), SubtreeOf(ours), SubtreeOf(theirs), SubtreeOf(merged));
  }

  /** `_merge_child`. */
  method MergeChild(m: nat, path: Path, n: Name, base: Option<Entry>, ours: Option<Entry>, theirs: Option<Entry>)
    returns (r: Result<Option<Entry>>, found: seq<Path>)
    requires 2 <= m
    requires PublishedChild(m, n, base) && PublishedChild(m, n, ours) && PublishedChild(m, n, theirs)
    requires base.Some? || ours.Some? || theirs.Some?
    ensures r.Failure? <==> ChildBreaks(n, base, ours, theirs)
    ensures r.Success? ==> ChildReports(path, n, base, ours, theirs, found) && MergedChild(n, r.value)
    ensures r.Success? && r.value.Some? ==> ours.Some? || theirs.Some?
    ensures r.Success? && found == [] ==> ChildMerges(base, ours, theirs, r.value)
    ensures r.Success? && found == [] ==> ChildKeeps(m, base, ours, theirs, r.value)
    decreases if ours.Some? then Height([ours.value]) else 0, 1
  {
    PublishedIsMergedChild(m, n, ours);
    PublishedIsMergedChild(m, n, theirs);
    hide Keeps, ChildKeeps, ChildMerges, DirectoryMerged, TreeBreaks, TreeVerdict, Searchable, ChildReports;
    found := [];
    if Same(ours, theirs) {
      NoConflict(path, n, base, ours, theirs);
      TakenMerges(base, ours, theirs, ours);
      TakenChildKeeps(m, n, base, ours, theirs, ours);
      return Success(ours), [];
    }
    if ours.None? || theirs.None? {
      var present := if ours.Some? then ours else theirs;
      if present.None? {
        BothLost(n, base, ours, theirs);
        return Failure(DoubleRemoval), [];
      }
      if base.None? || Same(present, base) {
        NoConflict(path, n, base, ours, theirs);
        var left := if base.None? then present else None;
        TakenMerges(base, ours, theirs, left);
        TakenChildKeeps(m, n, base, ours, theirs, left);
        return Success(left), [];
      }
      OneConflict(path, n, base, ours, theirs);
      return Success(present), [path];
    }
    if Same(ours, base) {
      NoConflict(path, n, base, ours, theirs);
      TakenMerges(base, ours, theirs, theirs);
      TakenChildKeeps(m, n, base, ours, theirs, theirs);
      return Success(theirs), [];
    }
    if Same(theirs, base) {
      NoConflict(path, n, base, ours, theirs);
      TakenMerges(base, ours, theirs, ours);
      TakenChildKeeps(m, n, base, ours, theirs, ours);
      return Success(ours), [];
    }
    if ours.value.Dir? && theirs.value.Dir? {
      var sub;
      HeightOfMember([ours.value], ours.value);
      sub, found := MergeDirectory(m, path, SubtreeOf(base), Some(ours.value.child), Some(theirs.value.child));
      var merged := AsDir(n, sub);
      DirsMerged(m, path, n, base, ours.value, theirs.value, sub, found);
      return merged, found;
    }
    OneConflict(path, n, base, ours, theirs);
    return Success(ours), [path];
  }

  /** A merged subdirectory as an entry, unless it is gone. */
  function AsDir(n: Name, sub: Result<Option<Node>>): Result<Option<Entry>> {
    match sub
    case Success(node) => Success(if node.Some? then Some(Dir(n, node.value)) else None)
    case Failure(error) => Failure(error)
  }

  lemma DirsMerged(m: nat, path: Path, n: Name, base: Option<Entry>, ours: Entry, theirs: Entry,
      sub: Result<Option<Node>>, found: seq<Path>)
    requires ours.Dir? && theirs.Dir? && (base.Some? ==> !base.value.Shard?)
    requires !Same(Some(ours), Some(theirs)) && !Same(Some(ours), base) && !Same(Some(theirs), base)
    requires sub.Failure? ==> TreeBreaks(SubtreeOf(base), Some(ours.child), Some(theirs.child))
    requires sub.Success? ==>
      DirectoryMerged(path, SubtreeOf(base), Some(ours.child), Some(theirs.child), sub.value, found) && Filled(sub.value)
    requires sub.Success? && found == [] ==> Keeps(m, SubtreeOf(base), Some(ours.child), Some(theirs.child), sub.value)
    ensures sub.Failure? <==> ChildBreaks(n, base, Some(ours), Some(theirs))
    ensures sub.Success? ==>
      && ChildReports(path, n, base, Some(ours), Some(theirs), found)
      && MergedChild(n, AsDir(n, sub).value)
    ensures sub.Success? && found == [] ==>
      && ChildMerges(base, Some(ours), Some(theirs), AsDir(n, sub).value)
      && ChildKeeps(m, base, Some(ours), Some(theirs), AsDir(n, sub).value)
  {
    hide Keeps, ChildKeeps, TreeMerges, ChildMerges, Searchable;
    forall q: Path
      ensures ChildVerdict(base, Some(ours), Some(theirs), [n] + q) ==
              TreeVerdict(SubtreeOf(base), Some(ours.child), Some(theirs.child), q)
    {
      assert ([n] + q)[1..] == q;
    }
    hide ChildVerdict, TreeVerdict;
    if sub.Success? && found == [] {
      SubtreesMerge(n, base, ours, theirs, sub.value);
      SubtreesKeep(m, base, Some(ours), Some(theirs), sub.value, AsDir(n, sub).value);
    }
    if sub.Failure? {
      var q: Path :| TreeVerdict(SubtreeOf(base), Some(ours.child), Some(theirs.child), q) == Broken;
      assert ChildVerdict(base, Some(ours), Some(theirs), [n] + q) == Broken;
    }
  }

  lemma SubtreesKeep(m: nat, base: Option<Entry>, ours: Option<Entry>, theirs: Option<Entry>, sub: Option<Node>, merged: Option<Entry>)
    requires Keeps(m, SubtreeOf(base), SubtreeOf(ours), SubtreeOf(theirs), sub) && SubtreeOf(merged) == sub
    ensures ChildKeeps(m, base, ours, theirs, merged)
  {
  }

  // ---- Merging the children of a directory, name by name ---------------------

  /** `found` lists exactly the conflicts below the names in `seen`. */
  ghost predicate NamesReport(dir: Path, base: Option<Node>, ours: Option<Node>, theirs: Option<Node>,
      seen: iset<Name>, found: seq<Path>) {
    && (forall f :: f in found ==> dir < f && f[|dir|] in seen)
    && (forall n: Name, q: Path :: n in seen ==>
          (dir + [n] + q in found <==> TreeVerdict(base, ours, theirs, [n] + q) == Conflict))
    && (forall n: Name, q: Path :: n in seen ==> TreeVerdict(base, ours, theirs, [n] + q) != Broken)
  }

  /** The names in `seen` are merged into `kept`, which has no others. */
  ghost predicate NamesMerge(base: seq<Entry>, ours: seq<Entry>, theirs: seq<Entry>, seen: iset<Name>, kept: seq<Entry>) {
    forall n: Name :: n in seen ==> ChildMerges(Child(base, n), Child(ours, n), Child(theirs, n), Child(kept, n))
  }

  lemma ReportUnion(dir: Path, base: Option<Node>, ours: Option<Node>, theirs: Option<Node>,
      seen: iset<Name>, found: seq<Path>, more: iset<Name>, next: seq<Path>)
    requires NamesReport(dir, base, ours, theirs, seen, found)
    requires NamesReport(dir, base, ours, theirs, more, next)
    requires seen !! more
    ensures NamesReport(dir, base, ours, theirs, seen + more, found + next)
  {
    hide TreeVerdict;
    forall n: Name, q: Path | n in seen + more
      ensures dir + [n] + q in found + next <==> TreeVerdict(base, ours, theirs, [n] + q) == Conflict
    {
      assert (dir + [n] + q)[|dir|] == n;
    }
  }

  lemma ReportAll(dir: Path, base: Option<Node>, ours: Node, theirs: Node, seen: iset<Name>, found: seq<Path>)
    requires NamesReport(dir, base, Some(ours), Some(theirs), seen, found)
    requires forall n: Name :: n !in seen ==>
      Child(EntriesOf(base), n).None? && Child(ours.entries, n).None? && Child(theirs.entries, n).None?
    ensures TreeReports(dir, base, Some(ours), Some(theirs), found)
    ensures !TreeBreaks(base, Some(ours), Some(theirs))
  {
    forall q: Path
      ensures dir + q in found <==> TreeVerdict(base, Some(ours), Some(theirs), q) == Conflict
      ensures TreeVerdict(base, Some(ours), Some(theirs), q) != Broken
    {
      if q == [] {
        assert dir + q == dir;
      } else {
        assert q == [q[0]] + q[1..];
        assert dir + [q[0]] + q[1..] == dir + q;
        assert (dir + q)[|dir|] == q[0];
      }
    }
  }

  lemma MergesAll(base: seq<Entry>, ours: seq<Entry>, theirs: seq<Entry>, seen: iset<Name>, kept: seq<Entry>)
    requires NamesMerge(base, ours, theirs, seen, kept)
    requires forall n: Name :: n !in seen ==>
      Child(base, n).None? && Child(ours, n).None? && Child(theirs, n).None? && Child(kept, n).None?
    ensures TreeMerges(base, ours, theirs, kept)
  {
  }

  lemma BreaksBelow(base: Option<Node>, ours: Node, theirs: Node, n: Name)
    requires !Resolvable(base, Some(ours), Some(theirs)) && !Aligned(base, ours, theirs)
    requires ChildBreaks(n, Child(EntriesOf(base), n), Child(ours.entries, n), Child(theirs.entries, n))
    ensures TreeBreaks(base, Some(ours), Some(theirs))
  {
    var q: Path :| ChildVerdict(Child(EntriesOf(base), n), Child(ours.entries, n), Child(theirs.entries, n), [n] + q) == Broken;
    assert TreeVerdict(base, Some(ours), Some(theirs), [n] + q) == Broken;
  }

  /** Without common ranges, the verdict is the child's. */
  lemma ReportChild(dir: Path, base: Option<Node>, ours: Node, theirs: Node, n: Name, found: seq<Path>)
    requires !Resolvable(base, Some(ours), Some(theirs)) && !Aligned(base, ours, theirs)
    requires ChildReports(dir + [n], n, Child(EntriesOf(base), n), Child(ours.entries, n), Child(theirs.entries, n), found)
    requires !ChildBreaks(n, Child(EntriesOf(base), n), Child(ours.entries, n), Child(theirs.entries, n))
    ensures NamesReport(dir, base, Some(ours), Some(theirs), iset{n}, found)
  {
    hide ChildVerdict;
    forall q: Path
      ensures TreeVerdict(base, Some(ours), Some(theirs), [n] + q) ==
              ChildVerdict(Child(EntriesOf(base), n), Child(ours.entries, n), Child(theirs.entries, n), [n] + q)
    {
    }
    forall f | f in found ensures dir < f && f[|dir|] == n {
      assert f[|dir|] == (dir + [n])[|dir|];
    }
  }

  /** Children merged so far: fit to be written, and only names from either side. */
  ghost predicate KeptMerge(ours: seq<Entry>, theirs: seq<Entry>, kept: seq<Entry>) {
    && Plain(kept) && Distinct(kept)
    && (forall e :: e in kept && e.Dir? ==> e.child.entries != [] && Searchable(e.child.entries))
    && (forall n: Name :: Child(kept, n).Some? ==> Child(ours, n).Some? || Child(theirs, n).Some?)
  }

  ghost predicate OnlySeen(kept: seq<Entry>, seen: iset<Name>) {
    forall n: Name :: Child(kept, n).Some? ==> n in seen
  }

  lemma NextChild(kept: seq<Entry>, n: Name, child: Option<Entry>, k: Name)
    requires Plain(kept) && Child(kept, n).None?
    requires child.Some? ==> child.value.name == n && !child.value.Shard?
    ensures Child(kept + if child.Some? then [child.value] else [], k) == if k == n then child else Child(kept, k)
  {
    if child.Some? {
      ChildSnoc(kept, child.value, k);
    } else {
      assert kept + [] == kept;
    }
  }

  /** The names in `seen` are merged into `kept` with the node invariant in view. */
  ghost predicate NamesKeep(m: nat, base: seq<Entry>, ours: seq<Entry>, theirs: seq<Entry>, seen: iset<Name>, kept: seq<Entry>) {
    forall n: Name :: n in seen ==> ChildKeeps(m, Child(base, n), Child(ours, n), Child(theirs, n), Child(kept, n))
  }

  lemma KeepStep(m: nat, base: seq<Entry>, ours: seq<Entry>, theirs: seq<Entry>, seen: iset<Name>, kept: seq<Entry>,
      n: Name, child: Option<Entry>)
    requires KeptMerge(ours, theirs, kept) && OnlySeen(kept, seen) && n !in seen && MergedChild(n, child)
    requires NamesKeep(m, base, ours, theirs, seen, kept)
    requires ChildKeeps(m, Child(base, n), Child(ours, n), Child(theirs, n), child)
    ensures NamesKeep(m, base, ours, theirs, seen + iset{n}, kept + if child.Some? then [child.value] else [])
  {
    hide ChildKeeps;
    forall k: Name { NextChild(kept, n, child, k); }
    hide Child;
  }

  lemma KeptStep(base: seq<Entry>, ours: seq<Entry>, theirs: seq<Entry>, seen: iset<Name>, kept: seq<Entry>,
      n: Name, child: Option<Entry>)
    requires KeptMerge(ours, theirs, kept) && OnlySeen(kept, seen) && n !in seen && MergedChild(n, child)
    requires child.Some? ==> Child(ours, n).Some? || Child(theirs, n).Some?
    ensures var next := kept + if child.Some? then [child.value] else [];
      && KeptMerge(ours, theirs, next) && OnlySeen(next, seen + iset{n})
      && (NamesMerge(base, ours, theirs, seen, kept) &&
          ChildMerges(Child(base, n), Child(ours, n), Child(theirs, n), child) ==>
            NamesMerge(base, ours, theirs, seen + iset{n}, next))
  {
    hide ChildMerges;
    var next := kept + if child.Some? then [child.value] else [];
    ChildNone(kept, n);
    forall k: Name { NextChild(kept, n, child, k); }
  }

  /** Every name is merged, and `found` reports on all of them. */
  ghost predicate AllMerged(dir: Path, base: Option<Node>, ours: Node, theirs: Node, kept: seq<Entry>, found: seq<Path>) {
    && !TreeBreaks(base, Some(ours), Some(theirs))
    && TreeReports(dir, base, Some(ours), Some(theirs), found)
    && (found == [] ==> TreeMerges(EntriesOf(base), ours.entries, theirs.entries, kept))
  }

  /** The names in `seen` are merged into `kept`, and `found` reports on them. */
  ghost predicate Progress(m: nat, dir: Path, base: Option<Node>, ours: Node, theirs: Node,
      seen: iset<Name>, kept: seq<Entry>, found: seq<Path>) {
    && NamesReport(dir, base, Some(ours), Some(theirs), seen, found)
    && KeptMerge(ours.entries, theirs.entries, kept) && OnlySeen(kept, seen)
    && (found == [] ==>
          && NamesMerge(EntriesOf(base), ours.entries, theirs.entries, seen, kept)
          && NamesKeep(m, EntriesOf(base), ours.entries, theirs.entries, seen, kept))
  }

  lemma ProgressStep(m: nat, dir: Path, base: Option<Node>, ours: Node, theirs: Node, seen: iset<Name>,
      kept: seq<Entry>, found: seq<Path>, n: Name, child: Option<Entry>, next: seq<Path>)
    requires Progress(m, dir, base, ours, theirs, seen, kept, found) && n !in seen
    requires !Resolvable(base, Some(ours), Some(theirs)) && !Aligned(base, ours, theirs)
    requires MergedChild(n, child) && (child.Some? ==> Child(ours.entries, n).Some? || Child(theirs.entries, n).Some?)
    requires ChildReports(dir + [n], n, Child(EntriesOf(base), n), Child(ours.entries, n), Child(theirs.entries, n), next)
    requires !ChildBreaks(n, Child(EntriesOf(base), n), Child(ours.entries, n), Child(theirs.entries, n))
    requires next == [] ==>
      && ChildMerges(Child(EntriesOf(base), n), Child(ours.entries, n), Child(theirs.entries, n), child)
      && ChildKeeps(m, Child(EntriesOf(base), n), Child(ours.entries, n), Child(theirs.entries, n), child)
    ensures Progress(m, dir, base, ours, theirs, seen + iset{n},
              kept + if child.Some? then [child.value] else [], found + next)
  {
    hide NamesReport, NamesMerge, NamesKeep, ChildMerges, ChildKeeps, ChildReports, ChildBreaks, KeptMerge, OnlySeen;
    if found + next == [] {
      KeepStep(m, EntriesOf(base), ours.entries, theirs.entries, seen, kept, n, child);
    }
    ReportChild(dir, base, ours, theirs, n, next);
    ReportUnion(dir, base, Some(ours), Some(theirs), seen, found, iset{n}, next);
    KeptStep(EntriesOf(base), ours.entries, theirs.entries, seen, kept, n, child);
  }

  /** The loop over the united child names in `_merge_directory`. */
  method MergeNames(m: nat, dir: Path, base: Option<Node>, ours: Node, theirs: Node)
    returns (r: Result<seq<Entry>>, found: seq<Path>)
    requires 2 <= m && Published(m, base) && WellFormed(m, ours.entries) && WellFormed(m, theirs.entries)
    requires !Resolvable(base, Some(ours), Some(theirs)) && !Aligned(base, ours, theirs)
    ensures r.Failure? ==> TreeBreaks(base, Some(ours), Some(theirs))
    ensures r.Success? ==> AllMerged(dir, base, ours, theirs, r.value, found)
    ensures r.Success? ==> KeptMerge(ours.entries, theirs.entries, r.value)
    ensures r.Success? && found == [] ==> TreeKeeps(m, base, ours, theirs, r.value)
    decreases Height(ours.entries), 3
  {
    var b := ExpandShards(EntriesOf(base));
    var o := ExpandShards(ours.entries);
    var t := ExpandShards(theirs.entries);
    ExpandListed(m, EntriesOf(base));
    ExpandListed(m, ours.entries);
    ExpandListed(m, theirs.entries);
    NothingMerged(m, dir, base, ours, theirs);
    PlaceInjective();
    hide Progress, ChildMerges, ChildKeeps, TreeKeeps, ChildReports, ChildBreaks, TreeBreaks, PublishedChild, WellFormed, AllMerged, KeptMerge;
    hide Aligned, Resolvable, Height, Child, Expand;
    var names := SortedNames(NameSet(b) + NameSet(o) + NameSet(t));
    var kept: seq<Entry> := [];
    found := [];
    ghost var seen: iset<Name> := iset{};
    for i := 0 to |names|
      invariant forall n :: n in seen <==> n in names[..i]
      invariant Progress(m, dir, base, ours, theirs, seen, kept, found)
    {
      var n := names[i];
      assert n in names && n !in seen;
      assert n in NameSet(b) || n in NameSet(o) || n in NameSet(t);
      var child, next := MergeChild(m, dir + [n], n, Child(b, n), Child(o, n), Child(t, n));
      if child.Failure? {
        BreaksBelow(base, ours, theirs, n);
        r := Failure(child.error);
        return;
      }
      ProgressStep(m, dir, base, ours, theirs, seen, kept, found, n, child.value, next);
      kept := kept + if child.value.Some? then [child.value.value] else [];
      found, seen := found + next, seen + iset{n};
    }
    assert names[..|names|] == names;
    FinishNames(m, dir, base, ours, theirs, seen, kept, found);
    r := Success(kept);
  }

  lemma NothingMerged(m: nat, dir: Path, base: Option<Node>, ours: Node, theirs: Node)
    ensures Progress(m, dir, base, ours, theirs, iset{}, [], [])
  {
  }

  lemma FinishNames(m: nat, dir: Path, base: Option<Node>, ours: Node, theirs: Node, seen: iset<Name>, kept: seq<Entry>, found: seq<Path>)
    requires Progress(m, dir, base, ours, theirs, seen, kept, found)
    requires forall n: Name :: n !in seen ==>
      Child(EntriesOf(base), n).None? && Child(ours.entries, n).None? && Child(theirs.entries, n).None?
    ensures AllMerged(dir, base, ours, theirs, kept, found) && KeptMerge(ours.entries, theirs.entries, kept)
    ensures found == [] ==> TreeKeeps(m, base, ours, theirs, kept)
  {
    ReportAll(dir, base, ours, theirs, seen, found);
    if found == [] {
      MergesAll(EntriesOf(base), ours.entries, theirs.entries, seen, kept);
      KeepsAll(m, base, ours, theirs, seen, kept);
    }
  }

  ghost predicate TreeKeeps(m: nat, base: Option<Node>, ours: Node, theirs: Node, kept: seq<Entry>) {
    forall n: Name :: ChildKeeps(m, Child(EntriesOf(base), n), Child(ours.entries, n), Child(theirs.entries, n), Child(kept, n))
  }

  lemma KeepsAll(m: nat, base: Option<Node>, ours: Node, theirs: Node, seen: iset<Name>, kept: seq<Entry>)
    requires NamesKeep(m, EntriesOf(base), ours.entries, theirs.entries, seen, kept)
    requires forall n: Name :: n !in seen ==>
      Child(EntriesOf(base), n).None? && Child(ours.entries, n).None? && Child(theirs.entries, n).None? && Child(kept, n).None?
    ensures TreeKeeps(m, base, ours, theirs, kept)
  {
    hide Child, Keeps;
    TakenKeeps(m, None, None, None, None);
  }

  /** A directory of few children is one plain node, unless its shards were merged one by one. */
  ghost predicate Compact(m: nat, base: Option<Node>, ours: Option<Node>, theirs: Option<Node>, after: Option<Node>) {
    ours.Some? && theirs.Some? && !Resolvable(base, ours, theirs) && !Aligned(base, ours.value, theirs.value) &&
    Count(EntriesOf(after)) <= m ==>
      Plain(EntriesOf(after)) && |EntriesOf(after)| <= m
  }

  /** The merged names, written: invariant and all. */
  lemma NamesWritten(m: nat, base: Option<Node>, ours: Node, theirs: Node, kept: seq<Entry>, after: Option<Node>)
    requires 2 <= m && KeptMerge(ours.entries, theirs.entries, kept)
    requires if kept == [] then after == None else after.Some? && Builds(m, SortByName(kept), after.value)
    ensures Compact(m, base, Some(ours), Some(theirs), after)
    ensures !Aligned(base, ours, theirs) && TreeKeeps(m, base, ours, theirs, kept) ==>
      Keeps(m, base, Some(ours), Some(theirs), after)
  {
    SortSpec(kept);
    CountPlain(SortByName(kept));
    PlainIsWritable(kept);
    SortKeepsChildren(kept);
    hide TreeKeeps, Keeps, Builds, Aligned, Resolvable, KeptMerge, Distinct;
    assert Compact(m, base, Some(ours), Some(theirs), after) by {
      if kept != [] { BuildsCompact(m, SortByName(kept), after.value); }
    }
    if !Aligned(base, ours, theirs) && TreeKeeps(m, base, ours, theirs, kept) {
      if NoOverflow(m, base, Some(ours), Some(theirs)) {
        NamesSound(m, base, ours, theirs, kept, after);
      }
      if WellFormed(m, EntriesOf(after)) {
        SameAfter(m, kept, after);
        NamesFit(m, base, ours, theirs, kept, after);
      }
      assert Keeps(m, base, Some(ours), Some(theirs), after);
    }
  }

  lemma BuildsCompact(m: nat, es: seq<Entry>, node: Node)
    requires 0 < m && Builds(m, es, node) && Count(es) == |es|
    ensures Count(node.entries) <= m ==> node.entries == es && |es| <= m
  {
  }

  lemma SameAfter(m: nat, kept: seq<Entry>, after: Option<Node>)
    requires 2 <= m && Plain(kept)
    requires forall n: Name :: Child(SortByName(kept), n) == Child(kept, n)
    requires if kept == [] then after == None else after.Some? && Builds(m, SortByName(kept), after.value)
    ensures forall n: Name :: Child(EntriesOf(after), n) == Child(kept, n)
  {
  }

  lemma NamesSound(m: nat, base: Option<Node>, ours: Node, theirs: Node, kept: seq<Entry>, after: Option<Node>)
    requires 2 <= m && KeptMerge(ours.entries, theirs.entries, kept)
    requires if kept == [] then after == None else after.Some? && Builds(m, SortByName(kept), after.value)
    requires TreeKeeps(m, base, ours, theirs, kept) && NoOverflow(m, base, Some(ours), Some(theirs))
    ensures SoundTree(m, after)
  {
    forall e | e in kept && e.Dir? ensures Sound(m, e.child) {
      ChildOfPlain(kept, e.name, e);
      NoOverflowBelow(m, base, Some(ours), Some(theirs), e.name);
      assert ChildKeeps(m, Child(EntriesOf(base), e.name), Child(ours.entries, e.name), Child(theirs.entries, e.name), Some(e));
    }
    hide Sound, NoOverflow, TreeKeeps;
    if kept != [] {
      PlainBuilt(m, kept, after.value);
    }
  }

  lemma NamesFit(m: nat, base: Option<Node>, ours: Node, theirs: Node, kept: seq<Entry>, after: Option<Node>)
    requires !Aligned(base, ours, theirs) && TreeKeeps(m, base, ours, theirs, kept)
    requires WellFormed(m, EntriesOf(after)) && forall n: Name :: Child(EntriesOf(after), n) == Child(kept, n)
    ensures NoOverflow(m, base, Some(ours), Some(theirs))
  {
    forall n: Name
      ensures NoOverflow(m, SubtreeOf(Child(EntriesOf(base), n)), SubtreeOf(Child(ours.entries, n)), SubtreeOf(Child(theirs.entries, n)))
    {
      PublishedBelow(m, after, n);
      var sub := SubtreeOf(Child(kept, n));
      assert Published(m, sub) && WellFormed(m, EntriesOf(sub));
      assert ChildKeeps(m, Child(EntriesOf(base), n), Child(ours.entries, n), Child(theirs.entries, n), Child(kept, n));
    }
    hide WellFormed, TreeKeeps, Child, SubtreeOf;
    forall d: Path, i: nat ensures !Overflows(m, base, Some(ours), Some(theirs), d, i) {
      if d == [] {
        assert Overflows(m, base, Some(ours), Some(theirs), [], i) ==> Aligned(base, ours, theirs) by {
          HereOverflow(m, base, ours, theirs, i);
        }
      } else {
        OverflowBelow(m, base, Some(ours), Some(theirs), d[0], d[1..], i);
        assert d == [d[0]] + d[1..];
      }
    }
  }

  lemma HereOverflow(m: nat, base: Option<Node>, ours: Node, theirs: Node, i: nat)
    ensures Overflows(m, base, Some(ours), Some(theirs), [], i) <==>
            && Aligned(base, ours, theirs)
            && i < |EntriesOf(base)| && i < |ours.entries| && i < |theirs.entries|
            && !Resolvable(base.value.entries[i], ours.entries[i], theirs.entries[i])
            && m < |RangeSurvivors(base.value, ours, theirs, i)|
  {
    assert DirOf(Some(ours), []) == Some(ours) && DirOf(Some(theirs), []) == Some(theirs);
    assert base.Some? ==> DirOf(base, []) == base;
    hide Aligned, RangeSurvivors;
  }

  // ---- Merging shard ranges pairwise ----------------------------------------

  ghost function RangeNames(es: seq<Entry>, i: nat): iset<Name> {
    iset n: Name | ShardIndex(es, n) == i
  }

  ghost function NamesBefore(es: seq<Entry>, i: nat): iset<Name> {
    iset n: Name | ShardIndex(es, n) < i
  }

  /** The i-th bodies of three aligned directories hold the children of the i-th range. */
  lemma AlignedRange(m: nat, base: Node, ours: Node, theirs: Node, i: nat)
    requires Aligned(Some(base), ours, theirs) && i < |ours.entries|
    requires WellFormed(m, base.entries) && WellFormed(m, ours.entries) && WellFormed(m, theirs.entries)
    ensures |base.entries| == |ours.entries| == |theirs.entries|
    ensures base.entries[i].name == ours.entries[i].name == theirs.entries[i].name
    ensures base.entries[i].Shard? && ours.entries[i].Shard? && theirs.entries[i].Shard?
    ensures RangeHolds(ours.entries, base.entries, i)
    ensures RangeHolds(ours.entries, ours.entries, i)
    ensures RangeHolds(ours.entries, theirs.entries, i)
  {
    var b, o, t := base.entries, ours.entries, theirs.entries;
    assert |Names(b)| == |b| && |Names(o)| == |o| && |Names(t)| == |t|;
    assert Names(b)[i] == b[i].name && Names(o)[i] == o[i].name && Names(t)[i] == t[i].name;
    assert b[0] in b && o[0] in o && t[0] in t;
    forall n: Name
      ensures ShardIndex(b, n) == ShardIndex(o, n) == ShardIndex(t, n)
    {
      SameNamesSameIndex(b, o, n);
      SameNamesSameIndex(o, t, n);
    }
    OwnRange(m, b, i);
    OwnRange(m, o, i);
    OwnRange(m, t, i);
    assert b[i] in b && o[i] in o && t[i] in t;
  }

  /** Entry `i` of `es` holds the children of the i-th range of `ours`, and no others. */
  ghost predicate RangeHolds(ours: seq<Entry>, es: seq<Entry>, i: nat)
    requires i < |es|
  {
    && es[i].Shard?
    && (forall n: Name :: ShardIndex(ours, n) == i ==> Child(es, n) == Child(es[i].child.entries, n))
    && (forall n: Name :: ShardIndex(ours, n) != i ==> Child(es[i].child.entries, n) == None)
  }

  /** An undecided range gives the verdicts of its bodies. */
  lemma RangeVerdict(m: nat, base: Node, ours: Node, theirs: Node, i: nat, q: Path)
    requires Aligned(Some(base), ours, theirs) && i < |ours.entries|
    requires WellFormed(m, base.entries) && WellFormed(m, ours.entries) && WellFormed(m, theirs.entries)
    requires |base.entries| == |ours.entries| == |theirs.entries|
    requires !Resolvable(Some(base), Some(ours), Some(theirs))
    requires !Resolvable(base.entries[i], ours.entries[i], theirs.entries[i])
    requires base.entries[i].Shard? && ours.entries[i].Shard? && theirs.entries[i].Shard?
    ensures var body := TreeVerdict(Some(base.entries[i].child), Some(ours.entries[i].child), Some(theirs.entries[i].child), q);
      body == if q != [] && ShardIndex(ours.entries, q[0]) == i
              then TreeVerdict(Some(base), Some(ours), Some(theirs), q) else Fine
  {
    AlignedRange(m, base, ours, theirs, i);
    var b, o, t := base.entries[i].child, ours.entries[i].child, theirs.entries[i].child;
    BodyNotAligned(m, base, i, o, t);
    BodyVerdict(b, o, t, q);
    if q != [] {
      hide *;
      var n := q[0];
      NothingInRange(q);
      RangeChildren(ours.entries, base.entries, i, n);
      RangeChildren(ours.entries, ours.entries, i, n);
      RangeChildren(ours.entries, theirs.entries, i, n);
      if ShardIndex(ours.entries, n) == i {
        InRangeVerdict(base, ours, theirs, i, q);
      }
    }
  }

  lemma RangeChildren(ours: seq<Entry>, es: seq<Entry>, i: nat, n: Name)
    requires i < |es| && RangeHolds(ours, es, i)
    ensures Child(es[i].child.entries, n) == if ShardIndex(ours, n) == i then Child(es, n) else None
  {
  }

  lemma BodyVerdict(b: Node, o: Node, t: Node, q: Path)
    requires !Resolvable(b, o, t) && !Aligned(Some(b), o, t)
    ensures TreeVerdict(Some(b), Some(o), Some(t), q) ==
            if q == [] then Fine
            else ChildVerdict(Child(b.entries, q[0]), Child(o.entries, q[0]), Child(t.entries, q[0]), q)
  {
    hide Aligned, Child, ChildVerdict;
  }

  lemma InRangeVerdict(base: Node, ours: Node, theirs: Node, i: nat, q: Path)
    requires Aligned(Some(base), ours, theirs) && i < |ours.entries|
    requires |base.entries| == |ours.entries| == |theirs.entries|
    requires !Resolvable(Some(base), Some(ours), Some(theirs))
    requires !Resolvable(base.entries[i], ours.entries[i], theirs.entries[i])
    requires q != [] && ShardIndex(ours.entries, q[0]) == i
    ensures TreeVerdict(Some(base), Some(ours), Some(theirs), q) ==
            ChildVerdict(Child(base.entries, q[0]), Child(ours.entries, q[0]), Child(theirs.entries, q[0]), q)
  {
    hide Child, ChildVerdict, ShardIndex;
  }

  lemma BodyNotAligned(m: nat, base: Node, i: nat, ours: Node, theirs: Node)
    requires WellFormed(m, base.entries) && i < |base.entries| && base.entries[i].Shard?
    ensures !Aligned(Some(base.entries[i].child), ours, theirs)
  {
    var body := base.entries[i].child.entries;
    assert body != [] && Plain(body);
    assert body[0] in body;
  }

  lemma NothingInRange(q: Path)
    requires q != []
    ensures ChildVerdict(None, None, None, q) == Fine
  {
  }

  lemma ResolvableMerges(base: Option<Entry>, ours: Option<Entry>, theirs: Option<Entry>)
    requires Resolvable(base, ours, theirs)
    ensures ChildMerges(base, ours, theirs, Resolved(base, ours, theirs))
  {
  }

  /** The i-th range merged into `body`, with `found` its conflicts. */
  ghost predicate RangeMerges(dir: Path, base: Node, ours: Node, theirs: Node, i: nat, body: Option<Node>, found: seq<Path>)
    requires i < |ours.entries|
  {
    && NamesReport(dir, Some(base), Some(ours), Some(theirs), RangeNames(ours.entries, i), found)
    && Searchable(EntriesOf(body)) && Filled(body)
    && InRange(EntriesOf(body), ours.entries[i].name, None)
    && (forall n: Name :: Child(EntriesOf(body), n).Some? ==>
          ShardIndex(ours.entries, n) == i && (Child(ours.entries, n).Some? || Child(theirs.entries, n).Some?))
    && (found == [] ==>
          NamesMerge(base.entries, ours.entries, theirs.entries, RangeNames(ours.entries, i), EntriesOf(body)))
  }

  lemma BodyFromName(m: nat, es: seq<Entry>, i: nat)
    requires WellFormed(m, es) && i < |es| && es[i].Shard?
    ensures Searchable(es[i].child.entries) && es[i].child.entries != []
    ensures InRange(es[i].child.entries, es[i].name, None)
  {
    WellFormedIsSearchable(m, es[i].child.entries);
    assert InRange(es[i].child.entries, es[i].name, NextName(es, i));
  }

  lemma DecidedReports(dir: Path, base: Node, ours: Node, theirs: Node, i: nat)
    requires Aligned(Some(base), ours, theirs) && i < |ours.entries|
    requires |base.entries| == |ours.entries| == |theirs.entries|
    requires Resolvable(base.entries[i], ours.entries[i], theirs.entries[i])
    ensures NamesReport(dir, Some(base), Some(ours), Some(theirs), RangeNames(ours.entries, i), [])
  {
    assert forall n: Name :: ShardIndex(ours.entries, n) == i ==> RangeDecided(Some(base), ours, theirs, n);
  }

  lemma DecidedRange(m: nat, dir: Path, base: Node, ours: Node, theirs: Node, i: nat)
    requires Aligned(Some(base), ours, theirs) && i < |ours.entries|
    requires WellFormed(m, base.entries) && WellFormed(m, ours.entries) && WellFormed(m, theirs.entries)
    requires |base.entries| == |ours.entries| == |theirs.entries|
    requires Resolvable(base.entries[i], ours.entries[i], theirs.entries[i])
    requires ours.entries[i].Shard? && theirs.entries[i].Shard?
    ensures RangeMerges(dir, base, ours, theirs, i,
              Some(Resolved(base.entries[i], ours.entries[i], theirs.entries[i]).child), [])
  {
    AlignedRange(m, base, ours, theirs, i);
    BodyFromName(m, ours.entries, i);
    BodyFromName(m, theirs.entries, i);
    DecidedReports(dir, base, ours, theirs, i);
    DecidedMerges(base.entries, ours.entries, theirs.entries, i);
    hide WellFormed, Aligned, NamesReport, NamesMerge, Searchable, Child, InRange, ShardIndex;
  }

  lemma DecidedMerges(b: seq<Entry>, o: seq<Entry>, t: seq<Entry>, i: nat)
    requires |b| == |o| == |t| && i < |o|
    requires RangeHolds(o, b, i) && RangeHolds(o, o, i) && RangeHolds(o, t, i)
    requires Resolvable(b[i], o[i], t[i])
    ensures NamesMerge(b, o, t, RangeNames(o, i), Resolved(b[i], o[i], t[i]).child.entries)
  {
    var body := Resolved(b[i], o[i], t[i]).child;
    hide Child, ChildMerges, ShardIndex;
    forall n: Name | ShardIndex(o, n) == i
      ensures ChildMerges(Child(b, n), Child(o, n), Child(t, n), Child(body.entries, n))
    {
      ResolvableMerges(Child(b, n), Child(o, n), Child(t, n));
    }
  }

  lemma UndecidedReports(m: nat, dir: Path, base: Node, ours: Node, theirs: Node, i: nat, found: seq<Path>)
    requires Aligned(Some(base), ours, theirs) && i < |ours.entries|
    requires WellFormed(m, base.entries) && WellFormed(m, ours.entries) && WellFormed(m, theirs.entries)
    requires |base.entries| == |ours.entries| == |theirs.entries|
    requires !Resolvable(Some(base), Some(ours), Some(theirs))
    requires !Resolvable(base.entries[i], ours.entries[i], theirs.entries[i])
    requires base.entries[i].Shard? && ours.entries[i].Shard? && theirs.entries[i].Shard?
    requires !TreeBreaks(Some(base.entries[i].child), Some(ours.entries[i].child), Some(theirs.entries[i].child))
    requires TreeReports(dir, Some(base.entries[i].child), Some(ours.entries[i].child), Some(theirs.entries[i].child), found)
    ensures NamesReport(dir, Some(base), Some(ours), Some(theirs), RangeNames(ours.entries, i), found)
  {
    hide TreeVerdict, WellFormed, Aligned, ShardIndex, Resolvable;
    forall f | f in found ensures dir < f && f[|dir|] in RangeNames(ours.entries, i) {
      RangeVerdict(m, base, ours, theirs, i, f[|dir|..]);
      assert f == dir + f[|dir|..];
    }
    forall n: Name, q: Path | ShardIndex(ours.entries, n) == i
      ensures dir + [n] + q in found <==> TreeVerdict(Some(base), Some(ours), Some(theirs), [n] + q) == Conflict
      ensures TreeVerdict(Some(base), Some(ours), Some(theirs), [n] + q) != Broken
    {
      RangeVerdict(m, base, ours, theirs, i, [n] + q);
      assert dir + ([n] + q) == dir + [n] + q;
    }
  }

  lemma UndecidedRange(m: nat, dir: Path, base: Node, ours: Node, theirs: Node, i: nat, body: Option<Node>, found: seq<Path>)
    requires Aligned(Some(base), ours, theirs) && i < |ours.entries|
    requires WellFormed(m, base.entries) && WellFormed(m, ours.entries) && WellFormed(m, theirs.entries)
    requires |base.entries| == |ours.entries| == |theirs.entries|
    requires base.entries[i].Shard? && ours.entries[i].Shard? && theirs.entries[i].Shard?
    requires NamesReport(dir, Some(base), Some(ours), Some(theirs), RangeNames(ours.entries, i), found)
    requires Searchable(EntriesOf(body)) && Filled(body)
    requires forall n: Name :: Child(EntriesOf(body), n).Some? ==>
      Child(ours.entries[i].child.entries, n).Some? || Child(theirs.entries[i].child.entries, n).Some?
    requires found == [] ==> TreeMerges(base.entries[i].child.entries, ours.entries[i].child.entries,
                                        theirs.entries[i].child.entries, EntriesOf(body))
    ensures RangeMerges(dir, base, ours, theirs, i, body, found)
  {
    AlignedRange(m, base, ours, theirs, i);
    BodyFromName(m, ours.entries, i);
    BodyFromName(m, theirs.entries, i);
    hide WellFormed, Aligned, NamesReport, Searchable, Child, ChildMerges, ShardIndex;
  }

  // ---- Ranges and the node invariant ----------------------------------------

  /** Nothing overflows in the i-th range, nor anywhere below its names. */
  ghost predicate NoRangeOverflow(m: nat, base: Node, ours: Node, theirs: Node, i: nat) {
    && !Overflows(m, Some(base), Some(ours), Some(theirs), [], i)
    && forall d: Path, j: nat :: d != [] && ShardIndex(ours.entries, d[0]) == i ==>
         !Overflows(m, Some(base), Some(ours), Some(theirs), d, j)
  }

  /** A body that fits into one shard. */
  ghost predicate FitsShard(m: nat, body: Node) {
    Sound(m, body) && Plain(body.entries) && |body.entries| <= m
  }

  ghost predicate RangeKeeps(m: nat, base: Node, ours: Node, theirs: Node, i: nat, body: Option<Node>) {
    && (NoOverflow(m, Some(base), Some(ours), Some(theirs)) && body.Some? ==> FitsShard(m, body.value))
    && (WellFormed(m, EntriesOf(body)) && Plain(EntriesOf(body)) ==> NoRangeOverflow(m, base, ours, theirs, i))
  }

  lemma DecidedKeeps(m: nat, base: Node, ours: Node, theirs: Node, i: nat)
    requires Aligned(Some(base), ours, theirs) && i < |ours.entries|
    requires WellFormed(m, base.entries) && WellFormed(m, ours.entries) && WellFormed(m, theirs.entries)
    requires |base.entries| == |ours.entries| == |theirs.entries|
    requires Resolvable(base.entries[i], ours.entries[i], theirs.entries[i])
    requires ours.entries[i].Shard? && theirs.entries[i].Shard?
    ensures RangeKeeps(m, base, ours, theirs, i, Some(Resolved(base.entries[i], ours.entries[i], theirs.entries[i]).child))
  {
    var body := Resolved(base.entries[i], ours.entries[i], theirs.entries[i]).child;
    assert FitsShard(m, body) by {
      WellFormedIsSound(m, body.entries);
      assert Node(body.entries) == body;
    }
    AlignedRange(m, base, ours, theirs, i);
    hide WellFormed, Aligned, FitsShard;
    assert !Overflows(m, Some(base), Some(ours), Some(theirs), [], i) by {
      HereOverflow(m, Some(base), ours, theirs, i);
    }
    forall d: Path, j: nat | d != [] && ShardIndex(ours.entries, d[0]) == i
      ensures !Overflows(m, Some(base), Some(ours), Some(theirs), d, j)
    {
      var n := d[0];
      hide Overflows, Child;
      DecidedNoOverflow(m, SubtreeOf(Child(base.entries, n)), SubtreeOf(Child(ours.entries, n)), SubtreeOf(Child(theirs.entries, n)));
      OverflowBelow(m, Some(base), Some(ours), Some(theirs), n, d[1..], j);
      assert d == [n] + d[1..];
    }
  }

  /** In the bodies of a range overflows just what overflows below its names. */
  lemma BodyOverflow(m: nat, base: Node, ours: Node, theirs: Node, i: nat, d: Path, j: nat)
    requires i < |base.entries| && i < |ours.entries| && i < |theirs.entries|
    requires RangeHolds(ours.entries, base.entries, i) && RangeHolds(ours.entries, ours.entries, i)
    requires RangeHolds(ours.entries, theirs.entries, i)
    requires !Aligned(Some(base.entries[i].child), ours.entries[i].child, theirs.entries[i].child)
    ensures Overflows(m, Some(base.entries[i].child), Some(ours.entries[i].child), Some(theirs.entries[i].child), d, j) <==>
            && d != [] && ShardIndex(ours.entries, d[0]) == i
            && Overflows(m, Some(base), Some(ours), Some(theirs), d, j)
  {
    var b, o, t := base.entries[i].child, ours.entries[i].child, theirs.entries[i].child;
    if d == [] {
      HereOverflow(m, Some(b), o, t, j);
    } else {
      var n, q := d[0], d[1..];
      assert d == [n] + q;
      OverflowBelow(m, Some(b), Some(o), Some(t), n, q, j);
      OverflowBelow(m, Some(base), Some(ours), Some(theirs), n, q, j);
      RangeChildren(ours.entries, base.entries, i, n);
      RangeChildren(ours.entries, ours.entries, i, n);
      RangeChildren(ours.entries, theirs.entries, i, n);
      hide RangeHolds, Child, ShardIndex, Aligned, Overflows;
      if ShardIndex(ours.entries, n) != i {
        DecidedNoOverflow(m, None, None, None);
        assert !Overflows(m, None, None, None, q, j);
      }
    }
  }

  /** A cleanly merged body holds just the names that are left in its range. */
  lemma BodyCount(base: Node, ours: Node, theirs: Node, i: nat, body: seq<Entry>)
    requires i < |base.entries| && i < |ours.entries| && i < |theirs.entries|
    requires RangeHolds(ours.entries, base.entries, i) && RangeHolds(ours.entries, ours.entries, i)
    requires RangeHolds(ours.entries, theirs.entries, i)
    requires Searchable(body)
    requires forall n: Name :: Child(body, n).Some? ==>
      Child(ours.entries[i].child.entries, n).Some? || Child(theirs.entries[i].child.entries, n).Some?
    requires TreeMerges(base.entries[i].child.entries, ours.entries[i].child.entries, theirs.entries[i].child.entries, body)
    ensures Count(body) == |RangeSurvivors(base, ours, theirs, i)|
  {
    hide ChildMerges, RangeHolds, Survives, ShardIndex;
    forall n: Name ensures Child(body, n).Some? <==> n in RangeSurvivors(base, ours, theirs, i) {
      BodySurvivor(base, ours, theirs, i, body, n);
    }
    hide RangeSurvivors, TreeMerges, Searchable, Child;
    CountIs(body, RangeSurvivors(base, ours, theirs, i));
  }

  lemma BodySurvivor(base: Node, ours: Node, theirs: Node, i: nat, body: seq<Entry>, n: Name)
    requires i < |base.entries| && i < |ours.entries| && i < |theirs.entries|
    requires RangeHolds(ours.entries, base.entries, i) && RangeHolds(ours.entries, ours.entries, i)
    requires RangeHolds(ours.entries, theirs.entries, i)
    requires Searchable(body)
    requires Child(body, n).Some? ==>
      Child(ours.entries[i].child.entries, n).Some? || Child(theirs.entries[i].child.entries, n).Some?
    requires TreeMerges(base.entries[i].child.entries, ours.entries[i].child.entries, theirs.entries[i].child.entries, body)
    ensures Child(body, n).Some? <==> n in RangeSurvivors(base, ours, theirs, i)
  {
    RangeChildren(ours.entries, base.entries, i, n);
    RangeChildren(ours.entries, ours.entries, i, n);
    RangeChildren(ours.entries, theirs.entries, i, n);
    ChildNamesSpec(ours.entries, n);
    ChildNamesSpec(theirs.entries, n);
    assert ChildMerges(Child(base.entries[i].child.entries, n), Child(ours.entries[i].child.entries, n),
      Child(theirs.entries[i].child.entries, n), Child(body, n));
    ChildOfSearchable(body, n);
    SurvivesExactly(Child(base.entries[i].child.entries, n), Child(ours.entries[i].child.entries, n),
      Child(theirs.entries[i].child.entries, n), Child(body, n));
    hide Child, ChildMerges, Survives, RangeHolds, ShardIndex, Searchable, TreeMerges, ChildNames;
    if Child(ours.entries, n).None? && Child(theirs.entries, n).None? && ShardIndex(ours.entries, n) == i {
      assert n !in RangeSurvivors(base, ours, theirs, i);
    }
  }

  lemma {:induction false} ChildOfSearchable(es: seq<Entry>, n: Name)
    requires Searchable(es)
    ensures Child(es, n).Some? && Child(es, n).value.Dir? ==>
      Child(es, n).value.child.entries != [] && Searchable(Child(es, n).value.child.entries)
    decreases Height(es)
  {
    if Child(es, n).Some? {
      var k := ChildHolder(es, n);
      UniqueHolder(es, k, n);
      if es[k].Shard? {
        HeightOfMember(es, es[k]);
        ChildOfSearchable(es[k].child.entries, n);
      }
    }
  }

  lemma UndecidedKeeps(m: nat, base: Node, ours: Node, theirs: Node, i: nat, body: Option<Node>)
    requires 2 <= m && Aligned(Some(base), ours, theirs) && i < |ours.entries|
    requires WellFormed(m, base.entries) && WellFormed(m, ours.entries) && WellFormed(m, theirs.entries)
    requires |base.entries| == |ours.entries| == |theirs.entries|
    requires base.entries[i].Shard? && ours.entries[i].Shard? && theirs.entries[i].Shard?
    requires !Resolvable(base.entries[i], ours.entries[i], theirs.entries[i])
    requires Searchable(EntriesOf(body)) && Filled(body)
    requires forall n: Name :: Child(EntriesOf(body), n).Some? ==>
      Child(ours.entries[i].child.entries, n).Some? || Child(theirs.entries[i].child.entries, n).Some?
    requires TreeMerges(base.entries[i].child.entries, ours.entries[i].child.entries,
               theirs.entries[i].child.entries, EntriesOf(body))
    requires Keeps(m, Some(base.entries[i].child), Some(ours.entries[i].child), Some(theirs.entries[i].child), body)
    requires Compact(m, Some(base.entries[i].child), Some(ours.entries[i].child), Some(theirs.entries[i].child), body)
    ensures RangeKeeps(m, base, ours, theirs, i, body)
  {
    var b, o, t := base.entries[i].child, ours.entries[i].child, theirs.entries[i].child;
    AlignedRange(m, base, ours, theirs, i);
    BodyNotAligned(m, base, i, o, t);
    BodyCount(base, ours, theirs, i, EntriesOf(body));
    HereOverflow(m, Some(base), ours, theirs, i);
    SameShards(base.entries[i], ours.entries[i], theirs.entries[i]);
    forall d: Path, j: nat
      ensures Overflows(m, Some(b), Some(o), Some(t), d, j) <==>
              d != [] && ShardIndex(ours.entries, d[0]) == i && Overflows(m, Some(base), Some(ours), Some(theirs), d, j)
    {
      BodyOverflow(m, base, ours, theirs, i, d, j);
    }
    hide Aligned, RangeHolds, TreeMerges, Searchable, Child, Overflows, RangeSurvivors, Resolvable, ShardIndex;
    BodyKeeps(m, base, ours, theirs, i, b, o, t, body);
  }

  lemma SameShards(b: Entry, o: Entry, t: Entry)
    requires b.Shard? && o.Shard? && t.Shard? && b.name == o.name == t.name
    ensures Resolvable(b, o, t) <==> Resolvable(Some(b.child), Some(o.child), Some(t.child))
  {
  }

  lemma BodyKeeps(m: nat, base: Node, ours: Node, theirs: Node, i: nat, b: Node, o: Node, t: Node, body: Option<Node>)
    requires Filled(body)
    requires Overflows(m, Some(base), Some(ours), Some(theirs), [], i) <==> m < Count(EntriesOf(body))
    requires forall d: Path, j: nat ::
      Overflows(m, Some(b), Some(o), Some(t), d, j) <==>
      d != [] && ShardIndex(ours.entries, d[0]) == i && Overflows(m, Some(base), Some(ours), Some(theirs), d, j)
    requires Keeps(m, Some(b), Some(o), Some(t), body)
    requires !Aligned(Some(b), o, t) && !Resolvable(Some(b), Some(o), Some(t)) && Compact(m, Some(b), Some(o), Some(t), body)
    ensures RangeKeeps(m, base, ours, theirs, i, body)
  {
    hide Overflows, ShardIndex, WellFormed, Sound, Aligned;
    if WellFormed(m, EntriesOf(body)) && Plain(EntriesOf(body)) {
      CountPlain(EntriesOf(body));
      AtMost(m, EntriesOf(body));
    }
  }

  lemma AtMost(m: nat, es: seq<Entry>)
    requires WellFormed(m, es)
    ensures |es| <= m
  {
  }

  /** One shard of `_merge_sharded`. */
  method MergeShard(m: nat, dir: Path, base: Node, ours: Node, theirs: Node, i: nat)
    returns (r: Result<Option<Node>>, found: seq<Path>)
    requires 2 <= m && Aligned(Some(base), ours, theirs) && i < |ours.entries|
    requires WellFormed(m, base.entries) && WellFormed(m, ours.entries) && WellFormed(m, theirs.entries)
    requires !Resolvable(Some(base), Some(ours), Some(theirs))
    ensures r.Failure? ==> TreeBreaks(Some(base), Some(ours), Some(theirs))
    ensures r.Success? ==> RangeMerges(dir, base, ours, theirs, i, r.value, found)
    ensures r.Success? && found == [] ==> RangeKeeps(m, base, ours, theirs, i, r.value)
    decreases Height(ours.entries), 3
  {
    AlignedRange(m, base, ours, theirs, i);
    var b, o, t := base.entries[i], ours.entries[i], theirs.entries[i];
    if o.child == t.child || o.child == b.child || t.child == b.child {
      DecidedRange(m, dir, base, ours, theirs, i);
      DecidedKeeps(m, base, ours, theirs, i);
      return Success(Some(Resolved(b, o, t).child)), [];
    }
    HeightOfMember(ours.entries, o);
    hide WellFormed, TreeVerdict, RangeMerges, RangeKeeps, Searchable, Keeps, Compact;
    r, found := MergeDirectory(m, dir, Some(b.child), Some(o.child), Some(t.child));
    if r.Failure? {
      var q: Path :| TreeVerdict(Some(b.child), Some(o.child), Some(t.child), q) == Broken;
      RangeVerdict(m, base, ours, theirs, i, q);
    } else {
      UndecidedReports(m, dir, base, ours, theirs, i, found);
      UndecidedRange(m, dir, base, ours, theirs, i, r.value, found);
      if found == [] {
        UndecidedKeeps(m, base, ours, theirs, i, r.value);
      }
    }
  }

  /** The ranges before the i-th merged into the shards `kept`. */
  ghost predicate RangesMerged(dir: Path, base: Node, ours: Node, theirs: Node, i: nat, kept: seq<Entry>, found: seq<Path>) {
    && CoverUpTo(ours.entries, i, kept) && OnlyShards(kept)
    && (forall n: Name :: Child(kept, n).Some? ==> Child(ours.entries, n).Some? || Child(theirs.entries, n).Some?)
    && NamesReport(dir, Some(base), Some(ours), Some(theirs), NamesBefore(ours.entries, i), found)
    && (found == [] ==>
          NamesMerge(base.entries, ours.entries, theirs.entries, NamesBefore(ours.entries, i), kept))
  }

  /** The shards merged so far fit just when no range of theirs overflows. */
  ghost predicate RangesKeep(m: nat, base: Node, ours: Node, theirs: Node, i: nat, kept: seq<Entry>) {
    && (NoOverflow(m, Some(base), Some(ours), Some(theirs)) ==> forall s :: s in kept ==> s.Shard? && FitsShard(m, s.child))
    && ((forall s :: s in kept ==> s.Shard? && WellFormed(m, s.child.entries) && Plain(s.child.entries)) ==>
          forall j: nat :: j < i ==> NoRangeOverflow(m, base, ours, theirs, j))
  }

  lemma RangeKeepStep(m: nat, base: Node, ours: Node, theirs: Node, i: nat, kept: seq<Entry>, name: Name, body: Option<Node>)
    requires RangesKeep(m, base, ours, theirs, i, kept) && RangeKeeps(m, base, ours, theirs, i, body)
    ensures RangesKeep(m, base, ours, theirs, i + 1, kept + RangeShard(name, body))
  {
    hide NoOverflow, NoRangeOverflow, FitsShard, WellFormed;
    WellFormedNone(m);
    var next := kept + RangeShard(name, body);
    assert forall s :: s in kept ==> s in next;
    assert body.Some? ==> Shard(name, body.value) in next;
  }

  lemma WellFormedNone(m: nat)
    ensures WellFormed(m, [])
  {
  }

  /** The merged body of the i-th range as a shard, unless nothing is left of it. */
  function RangeShard(name: Name, body: Option<Node>): seq<Entry> {
    if body.Some? then [Shard(name, body.value)] else []
  }

  lemma RangeShardCovers(ours: seq<Entry>, i: nat, body: Option<Node>)
    requires i < |ours| && Sorted(ours)
    requires Searchable(EntriesOf(body)) && Filled(body) && InRange(EntriesOf(body), ours[i].name, None)
    requires forall n: Name :: Child(EntriesOf(body), n).Some? ==> ShardIndex(ours, n) == i
    ensures CoverRange(ours, i, RangeShard(ours[i].name, body))
    ensures forall n: Name :: Child(RangeShard(ours[i].name, body), n) == Child(EntriesOf(body), n)
  {
    ShardIndexSpec(ours, ours[i].name, i);
    if body.Some? {
      var shard := Shard(ours[i].name, body.value);
      assert [shard][1..] == [];
    }
  }

  lemma MergeUnion(base: seq<Entry>, ours: seq<Entry>, theirs: seq<Entry>, i: nat, kept: seq<Entry>, shard: seq<Entry>)
    requires NamesMerge(base, ours, theirs, NamesBefore(ours, i), kept)
    requires NamesMerge(base, ours, theirs, RangeNames(ours, i), shard)
    requires forall n: Name :: Child(kept + shard, n) == if ShardIndex(ours, n) == i then Child(shard, n) else Child(kept, n)
    ensures NamesMerge(base, ours, theirs, NamesBefore(ours, i + 1), kept + shard)
  {
    hide ChildMerges, Child, ShardIndex;
  }

  lemma RangeMergeStep(dir: Path, base: Node, ours: Node, theirs: Node, i: nat, kept: seq<Entry>, found: seq<Path>,
      body: Option<Node>, next: seq<Path>)
    requires i < |ours.entries| && Sorted(ours.entries)
    requires RangesMerged(dir, base, ours, theirs, i, kept, found)
    requires RangeMerges(dir, base, ours, theirs, i, body, next)
    ensures RangesMerged(dir, base, ours, theirs, i + 1,
              kept + RangeShard(ours.entries[i].name, body), found + next)
  {
    hide NamesReport, CoverUpTo, CoverRange, ChildMerges, Child, NamesMerge, Searchable, InRange, ShardIndex, Sorted;
    var shard := RangeShard(ours.entries[i].name, body);
    RangeShardCovers(ours.entries, i, body);
    AppendRange(ours.entries, i, kept, shard);
    var before, here := NamesBefore(ours.entries, i), RangeNames(ours.entries, i);
    ReportUnion(dir, Some(base), Some(ours), Some(theirs), before, found, here, next);
    assert before + here == NamesBefore(ours.entries, i + 1);
    if found + next == [] {
      SameChildrenMerge(base.entries, ours.entries, theirs.entries, here, EntriesOf(body), shard);
      MergeUnion(base.entries, ours.entries, theirs.entries, i, kept, shard);
    }
  }

  lemma SameChildrenMerge(base: seq<Entry>, ours: seq<Entry>, theirs: seq<Entry>, seen: iset<Name>, a: seq<Entry>, b: seq<Entry>)
    requires NamesMerge(base, ours, theirs, seen, a)
    requires forall n: Name :: Child(a, n) == Child(b, n)
    ensures NamesMerge(base, ours, theirs, seen, b)
  {
    hide ChildMerges, Child;
  }

  /** The loop over the shards in `_merge_sharded`. */
  method MergeRanges(m: nat, dir: Path, base: Node, ours: Node, theirs: Node)
    returns (r: Result<seq<Entry>>, found: seq<Path>)
    requires 2 <= m && Aligned(Some(base), ours, theirs)
    requires WellFormed(m, base.entries) && WellFormed(m, ours.entries) && WellFormed(m, theirs.entries)
    requires !Resolvable(Some(base), Some(ours), Some(theirs))
    ensures r.Failure? ==> TreeBreaks(Some(base), Some(ours), Some(theirs))
    ensures r.Success? ==> RangesMerged(dir, base, ours, theirs, |ours.entries|, r.value, found)
    ensures r.Success? ==> |r.value| <= |ours.entries|
    ensures r.Success? && found == [] ==> RangesKeep(m, base, ours, theirs, |ours.entries|, r.value)
    decreases Height(ours.entries), 4
  {
    var kept: seq<Entry> := [];
    found := [];
    hide WellFormed, RangesMerged, RangeMerges, TreeBreaks, RangeKeeps, RangesKeep;
    NoRangesYet(m, dir, base, ours, theirs);
    SortedEntries(m, ours.entries);
    for i := 0 to |ours.entries|
      invariant RangesMerged(dir, base, ours, theirs, i, kept, found) && |kept| <= i
      invariant found == [] ==> RangesKeep(m, base, ours, theirs, i, kept)
    {
      var body, next := MergeShard(m, dir, base, ours, theirs, i);
      if body.Failure? {
        r := Failure(body.error);
        return;
      }
      RangeMergeStep(dir, base, ours, theirs, i, kept, found, body.value, next);
      if found + next == [] {
        RangeKeepStep(m, base, ours, theirs, i, kept, ours.entries[i].name, body.value);
      }
      kept, found := kept + RangeShard(ours.entries[i].name, body.value), found + next;
    }
    r := Success(kept);
  }

  lemma NoRangesYet(m: nat, dir: Path, base: Node, ours: Node, theirs: Node)
    ensures RangesMerged(dir, base, ours, theirs, 0, [], [])
    ensures RangesKeep(m, base, ours, theirs, 0, [])
  {
  }

  lemma SortedEntries(m: nat, es: seq<Entry>)
    requires WellFormed(m, es)
    ensures Sorted(es)
  {
  }

  lemma FinishRanges(m: nat, dir: Path, base: Node, ours: Node, theirs: Node, kept: seq<Entry>, found: seq<Path>)
    requires WellFormed(m, ours.entries) && ours.entries != []
    requires !Resolvable(Some(base), Some(ours), Some(theirs))
    requires RangesMerged(dir, base, ours, theirs, |ours.entries|, kept, found)
    ensures AllMerged(dir, Some(base), ours, theirs, kept, found)
    ensures Searchable(kept) && OnlyShards(kept)
    ensures forall n: Name :: Child(kept, n).Some? ==> Child(ours.entries, n).Some? || Child(theirs.entries, n).Some?
  {
    var seen := NamesBefore(ours.entries, |ours.entries|);
    forall n: Name ensures n in seen {
      ShardIndexSpec(ours.entries, n, 0);
    }
    ReportAll(dir, Some(base), ours, theirs, seen, found);
    if found == [] {
      MergesAll(base.entries, ours.entries, theirs.entries, seen, kept);
    }
  }

  /** The merged shards, written: at most as many as before, so one node of shards. */
  lemma RangesWritten(m: nat, base: Node, ours: Node, theirs: Node, kept: seq<Entry>, after: Option<Node>)
    requires 2 <= m && WellFormed(m, ours.entries) && ours.entries != [] && Aligned(Some(base), ours, theirs)
    requires Searchable(kept) && OnlyShards(kept) && |kept| <= |ours.entries|
    requires RangesKeep(m, base, ours, theirs, |ours.entries|, kept)
    requires if kept == [] then after == None else after.Some? && Builds(m, SortByName(kept), after.value)
    ensures Keeps(m, Some(base), Some(ours), Some(theirs), after)
  {
    SortOfSorted(kept);
    assert EntriesOf(after) == kept;
    hide NoOverflow, NoRangeOverflow, Builds, Searchable, Aligned;
    if NoOverflow(m, Some(base), Some(ours), Some(theirs)) && kept != [] {
      hide WellFormed;
      ShardsSound(m, kept);
      assert after.value == Node(kept);
    }
    if WellFormed(m, kept) {
      ShardBodies(m, kept);
      hide WellFormed, FitsShard;
      RangesFit(m, base, ours, theirs);
    }
  }

  lemma ShardBodies(m: nat, shards: seq<Entry>)
    requires WellFormed(m, shards) && OnlyShards(shards)
    ensures forall s :: s in shards ==> s.Shard? && WellFormed(m, s.child.entries) && Plain(s.child.entries)
  {
  }

  lemma RangesFit(m: nat, base: Node, ours: Node, theirs: Node)
    requires WellFormed(m, ours.entries) && ours.entries != []
    requires forall j: nat :: j < |ours.entries| ==> NoRangeOverflow(m, base, ours, theirs, j)
    ensures NoOverflow(m, Some(base), Some(ours), Some(theirs))
  {
    forall d: Path, i: nat ensures !Overflows(m, Some(base), Some(ours), Some(theirs), d, i) {
      if d == [] {
        HereOverflow(m, Some(base), ours, theirs, i);
        assert i < |ours.entries| ==> NoRangeOverflow(m, base, ours, theirs, i);
      } else {
        ShardIndexSpec(ours.entries, d[0], 0);
        assert NoRangeOverflow(m, base, ours, theirs, ShardIndex(ours.entries, d[0]));
      }
    }
  }

  lemma ShardsSound(m: nat, shards: seq<Entry>)
    requires 0 < |shards| && Searchable(shards)
    requires |shards| <= m && forall s :: s in shards ==> s.Shard? && FitsShard(m, s.child)
    ensures Sound(m, Node(shards))
  {
    if Fits(m, shards) {
      forall i | 0 <= i < |shards| ensures WellFormed(m, shards[i].child.entries) {
        assert shards[i] in shards;
        BodyFits(m, shards, i);
      }
      ShardsFit(m, shards);
    }
  }

  lemma ShardsFit(m: nat, shards: seq<Entry>)
    requires 0 < |shards| <= m && Searchable(shards)
    requires forall s :: s in shards ==> s.Shard? && Plain(s.child.entries)
    requires forall i :: 0 <= i < |shards| ==> shards[i] in shards && WellFormed(m, shards[i].child.entries)
    ensures WellFormed(m, shards)
  {
  }

  lemma BodyFits(m: nat, shards: seq<Entry>, i: nat)
    requires Searchable(shards) && Fits(m, shards) && i < |shards| && shards[i].Shard?
    requires Plain(shards[i].child.entries) && |shards[i].child.entries| <= m
    ensures Fits(m, shards[i].child.entries)
  {
    var body := shards[i].child.entries;
    forall p: Path | DirAt(body, p).Some? ensures Count(DirAt(body, p).value.entries) <= m * m {
      if p == [] {
        CountPlain(body);
        MulMonotone(1, m, m);
      } else {
        UniqueHolder(shards, i, p[0]);
        assert DirAt(shards, p) == DirAt(body, p);
      }
    }
  }

  // ---- Merging directories --------------------------------------------------

  /** What a merged directory is, whichever way it was merged. */
  ghost predicate DirectoryMerged(dir: Path, base: Option<Node>, ours: Option<Node>, theirs: Option<Node>,
      after: Option<Node>, found: seq<Path>) {
    && TreeReports(dir, base, ours, theirs, found)
    && !TreeBreaks(base, ours, theirs)
    && Searchable(EntriesOf(after))
    && (forall n: Name :: Child(EntriesOf(after), n).Some? ==>
          Child(EntriesOf(ours), n).Some? || Child(EntriesOf(theirs), n).Some?)
    && (found == [] ==> TreeMerges(EntriesOf(base), EntriesOf(ours), EntriesOf(theirs), EntriesOf(after)))
  }

  lemma TakenWhole(m: nat, dir: Path, base: Option<Node>, ours: Option<Node>, theirs: Option<Node>)
    requires Resolvable(base, ours, theirs) && Published(m, ours) && Published(m, theirs)
    ensures DirectoryMerged(dir, base, ours, theirs, Resolved(base, ours, theirs), [])
    ensures Keeps(m, base, ours, theirs, Resolved(base, ours, theirs))
    ensures Compact(m, base, ours, theirs, Resolved(base, ours, theirs))
  {
    TakenKeeps(m, base, ours, theirs, Resolved(base, ours, theirs));
    hide Keeps;
    var after := Resolved(base, ours, theirs);
    if after.Some? {
      WellFormedIsSearchable(m, after.value.entries);
    }
    forall n: Name
      ensures ChildMerges(Child(EntriesOf(base), n), Child(EntriesOf(ours), n), Child(EntriesOf(theirs), n),
                Child(EntriesOf(after), n))
    {
      ResolvableMerges(Child(EntriesOf(base), n), Child(EntriesOf(ours), n), Child(EntriesOf(theirs), n));
    }
  }

  lemma OneSideGone(m: nat, dir: Path, base: Option<Node>, ours: Option<Node>, theirs: Option<Node>)
    requires !Resolvable(base, ours, theirs) && (ours.None? || theirs.None?)
    requires Published(m, ours) && Published(m, theirs)
    ensures DirectoryMerged(dir, base, ours, theirs, if ours.Some? then ours else theirs, [dir])
    ensures Compact(m, base, ours, theirs, if ours.Some? then ours else theirs)
  {
    assert dir + [] == dir;
    forall q: Path ensures dir + q in [dir] <==> q == [] {
      assert |dir + q| == |dir| + |q|;
    }
    if ours.Some? {
      WellFormedIsSearchable(m, ours.value.entries);
    } else if theirs.Some? {
      WellFormedIsSearchable(m, theirs.value.entries);
    }
  }

  lemma WrittenMerge(m: nat, dir: Path, base: Option<Node>, ours: Node, theirs: Node,
      kept: seq<Entry>, after: Option<Node>, found: seq<Path>)
    requires 0 < m && AllMerged(dir, base, ours, theirs, kept, found)
    requires if kept == [] then after == None else after.Some? && Builds(m, SortByName(kept), after.value)
    requires forall n: Name :: Child(SortByName(kept), n) == Child(kept, n)
    requires forall n: Name :: Child(kept, n).Some? ==> Child(ours.entries, n).Some? || Child(theirs.entries, n).Some?
    ensures DirectoryMerged(dir, base, Some(ours), Some(theirs), after, found)
  {
    hide ChildMerges, TreeReports, TreeBreaks;
  }

  /** `_merge_sharded`, for three directories with the same ranges. */
  method MergeSharded(m: nat, dir: Path, base: Node, ours: Node, theirs: Node)
    returns (r: Result<Option<Node>>, found: seq<Path>)
    requires 2 <= m && Aligned(Some(base), ours, theirs) && ours.entries != []
    requires WellFormed(m, base.entries) && WellFormed(m, ours.entries) && WellFormed(m, theirs.entries)
    requires !Resolvable(Some(base), Some(ours), Some(theirs))
    ensures r.Failure? ==> TreeBreaks(Some(base), Some(ours), Some(theirs))
    ensures r.Success? ==> DirectoryMerged(dir, Some(base), Some(ours), Some(theirs), r.value, found) && Filled(r.value)
    ensures r.Success? && found == [] ==> Keeps(m, Some(base), Some(ours), Some(theirs), r.value)
    decreases Height(ours.entries), 5
  {
    hide *;
    var kept;
    kept, found := MergeRanges(m, dir, base, ours, theirs);
    if kept.Failure? {
      return Failure(kept.error), found;
    }
    FinishRanges(m, dir, base, ours, theirs, kept.value, found);
    ShardsWritable(kept.value);
    SortOfSearchable(kept.value);
    r := WriteMerged(m, kept.value);
    WrittenMerge(m, dir, Some(base), ours, theirs, kept.value, r.value, found);
    if found == [] {
      RangesWritten(m, base, ours, theirs, kept.value, r.value);
    }
  }

  /** The rest of `_merge_directory`, with shards expanded. */
  method MergeExpanded(m: nat, dir: Path, base: Option<Node>, ours: Node, theirs: Node)
    returns (r: Result<Option<Node>>, found: seq<Path>)
    requires 2 <= m && Published(m, base) && WellFormed(m, ours.entries) && WellFormed(m, theirs.entries)
    requires !Resolvable(base, Some(ours), Some(theirs)) && !Aligned(base, ours, theirs)
    ensures r.Failure? ==> TreeBreaks(base, Some(ours), Some(theirs))
    ensures r.Success? ==> DirectoryMerged(dir, base, Some(ours), Some(theirs), r.value, found) && Filled(r.value)
    ensures r.Success? && found == [] ==> Keeps(m, base, Some(ours), Some(theirs), r.value)
    ensures r.Success? ==> Compact(m, base, Some(ours), Some(theirs), r.value)
    decreases Height(ours.entries), 5
  {
    hide *;
    var kept;
    kept, found := MergeNames(m, dir, base, ours, theirs);
    if kept.Failure? {
      return Failure(kept.error), found;
    }
    NamesWritable(ours, theirs, kept.value);
    r := WriteMerged(m, kept.value);
    WrittenMerge(m, dir, base, ours, theirs, kept.value, r.value, found);
    NamesWritten(m, base, ours, theirs, kept.value, r.value);
  }

  /** The merged children as a node, unless there are none. */
  method WriteMerged(m: nat, kept: seq<Entry>) returns (r: Result<Option<Node>>)
    requires 2 <= m && Writable(kept)
    ensures r.Success? && Filled(r.value)
    ensures if kept == [] then r.value == None else r.value.Some? && Builds(m, SortByName(kept), r.value.value)
  {
    hide Searchable;
    SortSpec(kept);
    if kept == [] {
      return Success(None);
    }
    var built := BuildChildren(m, kept);
    r := Nonempty(built);
  }

  /** Whichever way a directory was merged, its conflicts are the clashing names below it,
      and it broke only on a name lost twice. */
  lemma ReportedDirectly(m: nat, dir: Path, base: Option<Node>, ours: Option<Node>, theirs: Option<Node>,
      r: Result<Option<Node>>, found: seq<Path>)
    requires ours.Some? && theirs.Some? && Published(m, base) && Published(m, ours) && Published(m, theirs)
    requires r.Failure? ==> TreeBreaks(base, ours, theirs)
    requires r.Success? ==> DirectoryMerged(dir, base, ours, theirs, r.value, found)
    ensures r.Failure? <==> exists d: Path, n: Name :: LostTwice(base, ours, theirs, d, n)
    ensures r.Success? ==> forall q: Path :: dir + q in found <==> ConflictAt(base, ours, theirs, q)
  {
    BreaksExactly(m, base, ours.value, theirs.value);
    hide LostTwice, ConflictAt, TreeVerdict, TreeBreaks, WellFormed, TreeMerges, Searchable;
    if r.Success? {
      forall q: Path ensures dir + q in found <==> ConflictAt(base, ours, theirs, q) {
        ConflictsExactly(m, base, ours.value, theirs.value, q);
      }
    }
  }

  /** `_merge_directory`: hash shortcuts, then shard ranges, then child names. */
  method MergeDirectory(m: nat, dir: Path, base: Option<Node>, ours: Option<Node>, theirs: Option<Node>)
    returns (r: Result<Option<Node>>, found: seq<Path>)
    requires 2 <= m && Published(m, base) && Published(m, ours) && Published(m, theirs)
    ensures r.Failure? ==> TreeBreaks(base, ours, theirs)
    ensures r.Success? ==> DirectoryMerged(dir, base, ours, theirs, r.value, found)
    ensures r.Success? && Filled(ours) && Filled(theirs) ==> Filled(r.value)
    ensures r.Success? && found == [] ==> Keeps(m, base, ours, theirs, r.value)
    ensures r.Success? ==> Compact(m, base, ours, theirs, r.value)
    ensures ours.Some? && theirs.Some? ==>
      && (r.Failure? <==> exists d: Path, n: Name :: LostTwice(base, ours, theirs, d, n))
      && (r.Success? ==> forall q: Path :: dir + q in found <==> ConflictAt(base, ours, theirs, q))
    decreases Height(EntriesOf(ours)), 6
  {
    hide LostTwice, ConflictAt;
    found := [];
    hide DirectoryMerged, Keeps, Compact, TreeBreaks, AllMerged, RangesMerged, RangesKeep, TreeKeeps, KeptMerge;
    hide Searchable, WellFormed, Builds, Child, Aligned, Height, TreeVerdict;
    if ours == theirs || theirs == base {
      TakenWhole(m, dir, base, ours, theirs);
      r := Success(ours);
    } else if ours == base {
      TakenWhole(m, dir, base, ours, theirs);
      r := Success(theirs);
    } else if ours.None? || theirs.None? {
      OneSideGone(m, dir, base, ours, theirs);
      r, found := Success(if ours.Some? then ours else theirs), [dir];
    } else if Aligned(base, ours.value, theirs.value) {
      AlignedNotEmpty(base, ours.value, theirs.value);
      r, found := MergeSharded(m, dir, base.value, ours.value, theirs.value);
      if r.Success? { AlignedCompact(m, base, ours, theirs, r.value); }
    } else {
      r, found := MergeExpanded(m, dir, base, ours.value, theirs.value);
    }
    if ours.Some? && theirs.Some? {
      ReportedDirectly(m, dir, base, ours, theirs, r, found);
    }
  }

  lemma AlignedCompact(m: nat, base: Option<Node>, ours: Option<Node>, theirs: Option<Node>, after: Option<Node>)
    requires ours.Some? && theirs.Some? && Aligned(base, ours.value, theirs.value)
    ensures Compact(m, base, ours, theirs, after)
  {
  }

  lemma SortOfSearchable(kept: seq<Entry>)
    requires Searchable(kept)
    ensures SortByName(kept) == kept && forall n: Name :: Child(SortByName(kept), n) == Child(kept, n)
  {
    SortOfSorted(kept);
  }

  lemma NamesWritable(ours: Node, theirs: Node, kept: seq<Entry>)
    requires KeptMerge(ours.entries, theirs.entries, kept)
    ensures Writable(kept)
    ensures forall n: Name :: Child(SortByName(kept), n) == Child(kept, n)
    ensures forall n: Name :: Child(kept, n).Some? ==> Child(ours.entries, n).Some? || Child(theirs.entries, n).Some?
  {
    PlainIsWritable(kept);
    SortKeepsChildren(kept);
  }

  lemma AlignedNotEmpty(base: Option<Node>, ours: Node, theirs: Node)
    requires Aligned(base, ours, theirs) && ours != theirs
    ensures base.Some? && ours.entries != []
  {
    assert |Names(ours.entries)| == |ours.entries| && |Names(theirs.entries)| == |theirs.entries|;
  }

  // ---- Whole trees ----------------------------------------------------------

  datatype MergeResult = MergedTree(tree: Node) | Conflicts(paths: seq<Path>) | Crashed(error: Error)

  /** `merge_trees`: it crashes exactly on a name lost twice; the conflicts reported are the
      clashing names; without any, every path carries the resolved identity, and the tree
      keeps the node invariant exactly when no shard range overflows. */
  method MergeTrees(m: nat, base: Option<Node>, ours: Node, theirs: Node) returns (r: MergeResult)
    requires 2 <= m && Published(m, base) && WellFormed(m, ours.entries) && WellFormed(m, theirs.entries)
    ensures r.Crashed? <==> exists d: Path, n: Name :: LostTwice(base, Some(ours), Some(theirs), d, n)
    ensures r.Conflicts? ==>
      && r.paths != []
      && (forall p: Path :: p in r.paths <==> ConflictAt(base, Some(ours), Some(theirs), p))
    ensures r.MergedTree? ==>
      && (forall p: Path :: !ConflictAt(base, Some(ours), Some(theirs), p))
      && Searchable(r.tree.entries)
      && (forall p: Path :: p != [] ==>
            MergesAt(LeafAt(EntriesOf(base), p), LeafAt(ours.entries, p), LeafAt(theirs.entries, p), LeafAt(r.tree.entries, p)))
    ensures r.MergedTree? ==> forall p: Path :: p != [] ==>
      var base, ours, theirs, merged :=
        LeafAt(EntriesOf(base), p), LeafAt(ours.entries, p), LeafAt(theirs.entries, p), LeafAt(r.tree.entries, p);
      var b := if base.Some? then Some((base.value.kind, base.value.hash, base.value.size)) else None;
      var o := if ours.Some? then Some((ours.value.kind, ours.value.hash, ours.value.size)) else None;
      var t := if theirs.Some? then Some((theirs.value.kind, theirs.value.hash, theirs.value.size)) else None;
      var x := if merged.Some? then Some((merged.value.kind, merged.value.hash, merged.value.size)) else None;
      (o == b && x == t) || (t == b && x == o) || (o == t && x == o)
    ensures r.MergedTree? && Fits(m, r.tree.entries) ==>
      (WellFormed(m, r.tree.entries) <==> NoOverflow(m, base, Some(ours), Some(theirs)))
  {
    hide LostTwice, ConflictAt, TreeReports, TreeBreaks, TreeVerdict, WellFormed, Searchable, Fits, NoOverflow;
    var merged, found := MergeDirectory(m, [], base, Some(ours), Some(theirs));
    if merged.Failure? {
      return Crashed(merged.error);
    }
    forall p: Path ensures p in found <==> ConflictAt(base, Some(ours), Some(theirs), p) {
      assert [] + p == p;
    }
    if found != [] {
      return Conflicts(found);
    }
    forall p: Path | p != []
      ensures MergesAt(LeafAt(EntriesOf(base), p), LeafAt(ours.entries, p), LeafAt(theirs.entries, p),
                LeafAt(EntriesOf(merged.value), p))
    {
      TreeMergesAt(EntriesOf(base), ours.entries, theirs.entries, EntriesOf(merged.value), p);
    }
    ByFields(EntriesOf(base), ours.entries, theirs.entries, EntriesOf(merged.value));
    if Fits(m, EntriesOf(merged.value)) {
      KeptInvariant(m, base, ours, theirs, merged.value);
    }
    return MergedTree(if merged.value.Some? then merged.value.value else Node([]));
  }

  lemma ByFields(b: seq<Entry>, o: seq<Entry>, t: seq<Entry>, r: seq<Entry>)
    requires forall p: Path :: p != [] ==> MergesAt(LeafAt(b, p), LeafAt(o, p), LeafAt(t, p), LeafAt(r, p))
    ensures forall p: Path :: p != [] ==>
      var base, ours, theirs, merged := LeafAt(b, p), LeafAt(o, p), LeafAt(t, p), LeafAt(r, p);
      var b := if base.Some? then Some((base.value.kind, base.value.hash, base.value.size)) else None;
      var o := if ours.Some? then Some((ours.value.kind, ours.value.hash, ours.value.size)) else None;
      var t := if theirs.Some? then Some((theirs.value.kind, theirs.value.hash, theirs.value.size)) else None;
      var x := if merged.Some? then Some((merged.value.kind, merged.value.hash, merged.value.size)) else None;
      (o == b && x == t) || (t == b && x == o) || (o == t && x == o)
  {
    hide MergesAt, LeafAt;
    forall p: Path | p != [] {
      MergedByFields(LeafAt(b, p), LeafAt(o, p), LeafAt(t, p), LeafAt(r, p));
    }
  }

  lemma KeptInvariant(m: nat, base: Option<Node>, ours: Node, theirs: Node, after: Option<Node>)
    requires Keeps(m, base, Some(ours), Some(theirs), after) && Fits(m, EntriesOf(after))
    ensures WellFormed(m, EntriesOf(after)) <==> NoOverflow(m, base, Some(ours), Some(theirs))
  {
    hide NoOverflow, Fits;
  }

  /** A double removal is not dropped: `a` removed on both sides stops the merge, as
      soon as the sides differ elsewhere. */
  lemma DoubleRemovalBreaks(a: Name, b: Name, c: Name, leaf: Leaf)
    requires a != b && a != c && b != c
    ensures LostTwice(Some(Node([File(a, leaf)])), Some(Node([File(b, leaf)])), Some(Node([File(c, leaf)])), [], a)
  {
    var base, ours, theirs := Node([File(a, leaf)]), Node([File(b, leaf)]), Node([File(c, leaf)]);
    assert base.entries[0] in base.entries;
    ChildNone(base.entries, a);
    ChildNone(ours.entries, a);
    ChildNone(theirs.entries, a);
    assert Child(base.entries, a).Some? && Child(ours.entries, a).None? && Child(theirs.entries, a).None?;
    assert ours != theirs && ours.entries[0] in ours.entries;
  }

  // ---- A merge that nests shards --------------------------------------------

  /** A directory of two shards, the second holding just `x`. */
  function TwoRanges(body: seq<Entry>, leaf: Leaf): Node {
    Node([Shard("a", Node(body)), Shard("x", Node([File("x", leaf)]))])
  }

  lemma FirstLetters()
    ensures Lt("a", "b") && Lt("b", "c") && Lt("c", "x")
  {
    LtIsLexicographic("a", "b");
    LtIsLexicographic("b", "c");
    LtIsLexicographic("c", "x");
  }

  lemma LeafBody(body: seq<Entry>, lo: Name, hi: Option<Name>)
    requires 0 < |body| <= 2 && Sorted(body)
    requires forall e :: e in body ==> e.File? && !Lt(e.name, lo) && (hi.Some? ==> Lt(e.name, hi.value))
    ensures Plain(body) && WellFormed(2, body) && InRange(body, lo, hi)
  {
    assert forall i :: 0 <= i < |body| ==> body[i] in body;
    forall n: Name { ChildNone(body, n); }
    hide Child;
  }

  lemma TwoRangesWellFormed(body: seq<Entry>, leaf: Leaf)
    requires 0 < |body| <= 2 && Sorted(body)
    requires forall e :: e in body ==> e.File? && !Lt(e.name, "a") && Lt(e.name, "x")
    ensures WellFormed(2, TwoRanges(body, leaf).entries)
  {
    FirstLetters();
    LeafBody(body, "a", Some("x"));
    LeafBody([File("x", leaf)], "x", None);
    TwoShardsWellFormed("a", body, "x", [File("x", leaf)]);
  }

  lemma TwoShardsWellFormed(low: Name, body: seq<Entry>, high: Name, rest: seq<Entry>)
    requires Lt(low, high) && body != [] && rest != []
    requires Plain(body) && WellFormed(2, body) && InRange(body, low, Some(high))
    requires Plain(rest) && WellFormed(2, rest) && InRange(rest, high, None)
    ensures WellFormed(2, [Shard(low, Node(body)), Shard(high, Node(rest))])
  {
    var es := [Shard(low, Node(body)), Shard(high, Node(rest))];
    hide InRange, Lt, Child;
    assert AllShards(es) && NextName(es, 0) == Some(high) && NextName(es, 1) == None;
  }

  lemma TwoRangesChild(body: seq<Entry>, leaf: Leaf, n: Name)
    requires Lt(n, "x")
    ensures Child(TwoRanges(body, leaf).entries, n) == Child(body, n) && ShardIndex(TwoRanges(body, leaf).entries, n) == 0
  {
    var es := TwoRanges(body, leaf).entries;
    OneName("x", leaf);
    assert es[1..] == [es[1]] && [es[1]][1..] == [];
    assert Child([es[1]], n) == None && BisectRight([es[1]], n) == 0;
  }

  lemma OneName(n: Name, leaf: Leaf)
    ensures forall k: Name :: Child([File(n, leaf)], k) == if k == n then Some(File(n, leaf)) else None
  {
    assert [File(n, leaf)][1..] == [];
  }

  lemma TwoNames(a: Name, b: Name, leaf: Leaf)
    requires a != b
    ensures forall k: Name :: Child([File(a, leaf), File(b, leaf)], k) ==
                              if k == a then Some(File(a, leaf)) else if k == b then Some(File(b, leaf)) else None
  {
    OneName(b, leaf);
    assert [File(a, leaf), File(b, leaf)][1..] == [File(b, leaf)];
  }

  /** Nesting happens: with two entries to a node, sides that each add a name to the same
      full shard merge to a range of three. */
  lemma MergeNests(leaf: Leaf)
    ensures var base := TwoRanges([File("a", leaf)], leaf);
      var ours := TwoRanges([File("a", leaf), File("b", leaf)], leaf);
      var theirs := TwoRanges([File("a", leaf), File("c", leaf)], leaf);
      && WellFormed(2, base.entries) && WellFormed(2, ours.entries) && WellFormed(2, theirs.entries)
      && !NoOverflow(2, Some(base), Some(ours), Some(theirs))
  {
    FirstLetters();
    assert Lt("a", "x") && Lt("a", "c") && Lt("b", "x");
    hide *;
    TwoRangesWellFormed([File("a", leaf)], leaf);
    TwoFilesWellFormed("b", leaf);
    TwoFilesWellFormed("c", leaf);
    RangeOfThree(leaf);
  }

  lemma TwoFilesWellFormed(n: Name, leaf: Leaf)
    requires Lt("a", n) && Lt(n, "x")
    ensures WellFormed(2, TwoRanges([File("a", leaf), File(n, leaf)], leaf).entries)
  {
    TwoRangesWellFormed([File("a", leaf), File(n, leaf)], leaf);
  }

  lemma RangeOfThree(leaf: Leaf)
    ensures !NoOverflow(2, Some(TwoRanges([File("a", leaf)], leaf)), Some(TwoRanges([File("a", leaf), File("b", leaf)], leaf)),
              Some(TwoRanges([File("a", leaf), File("c", leaf)], leaf)))
  {
    var a, b, c := File("a", leaf), File("b", leaf), File("c", leaf);
    var base, ours, theirs := TwoRanges([a], leaf), TwoRanges([a, b], leaf), TwoRanges([a, c], leaf);
    assert |[a]| == 1 && |[a, b]| == 2 && |[a, c]| == 2 && [a, b][1] != [a, c][1];
    assert Names(base.entries) == ["a", "x"] && Names(ours.entries) == ["a", "x"] && Names(theirs.entries) == ["a", "x"];
    HereOverflow(2, Some(base), ours, theirs, 0);
    hide Overflows, RangeSurvivors;
    ThreeSurvive(a, b, c, leaf);
    assert Overflows(2, Some(base), Some(ours), Some(theirs), [], 0);
  }

  lemma ThreeSurvive(a: Entry, b: Entry, c: Entry, leaf: Leaf)
    requires a == File("a", leaf) && b == File("b", leaf) && c == File("c", leaf)
    ensures 2 < |RangeSurvivors(TwoRanges([a], leaf), TwoRanges([a, b], leaf), TwoRanges([a, c], leaf), 0)|
  {
    var base, ours, theirs := TwoRanges([a], leaf), TwoRanges([a, b], leaf), TwoRanges([a, c], leaf);
    FirstLetters();
    hide *;
    var names: set<Name> := {"a", "b", "c"};
    forall n | n in names ensures n in RangeSurvivors(base, ours, theirs, 0) {
      EachSurvives(a, b, c, leaf, n);
    }
    assert |names| == 3;
    Subset(names, RangeSurvivors(base, ours, theirs, 0));
  }

  lemma EachSurvives(a: Entry, b: Entry, c: Entry, leaf: Leaf, n: Name)
    requires a == File("a", leaf) && b == File("b", leaf) && c == File("c", leaf)
    requires n in {"a", "b", "c"}
    ensures n in RangeSurvivors(TwoRanges([a], leaf), TwoRanges([a, b], leaf), TwoRanges([a, c], leaf), 0)
  {
    var base, ours, theirs := TwoRanges([a], leaf), TwoRanges([a, b], leaf), TwoRanges([a, c], leaf);
    FirstLetters();
    OneName("a", leaf);
    TwoNames("a", "b", leaf);
    TwoNames("a", "c", leaf);
    assert Lt(n, "x");
    hide Lt, Child, ShardIndex, Survives, ChildNames, TwoRanges;
    TwoRangesChild([a], leaf, n);
    TwoRangesChild([a, b], leaf, n);
    TwoRangesChild([a, c], leaf, n);
    ChildNamesSpec(ours.entries, n);
    ChildNamesSpec(theirs.entries, n);
    FileSurvives(Child(base.entries, n), Child(ours.entries, n), Child(theirs.entries, n), n, leaf);
  }

  lemma FileSurvives(base: Option<Entry>, ours: Option<Entry>, theirs: Option<Entry>, n: Name, leaf: Leaf)
    requires ours == Some(File(n, leaf)) || theirs == Some(File(n, leaf))
    requires base.None? || (base == ours && base == theirs)
    requires (ours.None? || ours == Some(File(n, leaf))) && (theirs.None? || theirs == Some(File(n, leaf)))
    ensures Survives(base, ours, theirs)
  {
    var p: Path := [n];
    assert p != [] && Resolved(IdentityOf(LeafIn(base, p)), IdentityOf(LeafIn(ours, p)), IdentityOf(LeafIn(theirs, p))).Some?;
  }
}
