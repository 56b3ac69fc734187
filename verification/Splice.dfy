/** Path splicing: additions and removals merged into a tree, touching only the
    directories and shards they reach. */
module Splice {
  import opened Paths
  import opened Trees
  import opened Builder
  import opened Shards

  // ---- What a splice means on the flat map ----------------------------------

  /** The leaf staged at exactly `p`; a later addition replaces an earlier one. */
  function AddedAt(adds: seq<Item>, p: Path): Option<Leaf> {
    if adds == [] then None
    else if adds[|adds| - 1].path == p then Some(adds[|adds| - 1].leaf)
    else AddedAt(adds[..|adds| - 1], p)
  }

  function PathsOf(adds: seq<Item>): set<Path> {
    set a | a in adds :: a.path
  }

  /** An added path lies strictly above or strictly below `p`. */
  ghost predicate Shadowed(adds: seq<Item>, p: Path) {
    exists q :: q in PathsOf(adds) && (q < p || p < q)
  }

  /** `p` or one of its ancestors is removed. */
  predicate PathIsRemoved(p: Path, removed: set<Path>) {
    exists k :: 1 <= k <= |p| && p[..k] in removed
  }

  /** What a splice leaves at `p`, where `before` was. */
  ghost function SplicedLeaf(before: Option<Leaf>, p: Path, adds: seq<Item>, removed: set<Path>): Option<Leaf> {
    if AddedAt(adds, p).Some? then AddedAt(adds, p)
    else if PathIsRemoved(p, removed) || Shadowed(adds, p) then None
    else before
  }

  /** No added path lies strictly below another. */
  ghost predicate PrefixFree(adds: seq<Item>) {
    forall p, q :: p in PathsOf(adds) && q in PathsOf(adds) ==> !(p < q)
  }

  // ---- Splitting additions by first component -------------------------------

  /** The additions strictly below `d`, in order. */
  function Below(adds: seq<Item>, d: Path): seq<Item> {
    if adds == [] then []
    else
      var a := adds[|adds| - 1];
      Below(adds[..|adds| - 1], d) + if d < a.path then [a] else []
  }

  lemma {:induction false} BelowSpec(adds: seq<Item>, d: Path, p: Path)
    ensures forall a :: a in Below(adds, d) <==> a in adds && d < a.path
    ensures d < p ==> AddedAt(Below(adds, d), p) == AddedAt(adds, p)
    ensures AddedAt(adds, p).Some? <==> p in PathsOf(adds)
  {
    if adds != [] {
      var k := |adds| - 1;
      assert adds == adds[..k] + [adds[k]];
      BelowSpec(adds[..k], d, p);
      var low := Below(adds[..k], d);
      if d < adds[k].path {
        assert Below(adds, d) == low + [adds[k]];
        assert (low + [adds[k]])[..|low|] == low;
      } else {
        assert Below(adds, d) == low;
      }
    }
  }

  ghost predicate AllBelow(adds: seq<Item>, d: Path, depth: nat) {
    forall a :: a in adds ==> d < a.path && |a.path| <= |d| + depth
  }

  /** The additions split by the name under `dir` that they touch. */
  ghost predicate IsSplit(dir: Path, adds: seq<Item>, local: map<Name, Leaf>, nested: map<Name, seq<Item>>) {
    && (forall n :: n in local <==> AddedAt(adds, dir + [n]).Some?)
    && (forall n :: n in local ==> local[n] == AddedAt(adds, dir + [n]).value)
    && (forall n :: n in nested <==> Below(adds, dir + [n]) != [])
    && (forall n :: n in nested ==> nested[n] == Below(adds, dir + [n]))
  }

  lemma SplitStep(dir: Path, adds: seq<Item>, a: Item, n: Name)
    requires dir < a.path
    ensures AddedAt(adds + [a], dir + [n]) ==
            if a.path[|dir|..] == [n] then Some(a.leaf) else AddedAt(adds, dir + [n])
    ensures Below(adds + [a], dir + [n]) ==
            Below(adds, dir + [n]) +
            if |a.path| > |dir| + 1 && a.path[|dir|] == n then [a] else []
  {
    assert (adds + [a])[..|adds|] == adds;
    BelowDirectory(dir, a.path, n);
  }

  lemma SplitLeaf(dir: Path, adds: seq<Item>, a: Item, local: map<Name, Leaf>, nested: map<Name, seq<Item>>)
    requires dir < a.path && |a.path| == |dir| + 1 && IsSplit(dir, adds, local, nested)
    ensures IsSplit(dir, adds + [a], local[a.path[|dir|] := a.leaf], nested)
  {
    assert a.path[|dir|..] == [a.path[|dir|]];
    forall n: Name { SplitStep(dir, adds, a, n); }
    hide AddedAt, Below;
  }

  lemma NestedNames(dir: Path, adds: seq<Item>, a: Item)
    requires dir < a.path && |a.path| > |dir| + 1
    ensures forall n: Name ::
      && AddedAt(adds + [a], dir + [n]) == AddedAt(adds, dir + [n])
      && Below(adds + [a], dir + [n]) ==
         if n == a.path[|dir|] then Below(adds, dir + [n]) + [a] else Below(adds, dir + [n])
  {
    forall n: Name
      ensures AddedAt(adds + [a], dir + [n]) == AddedAt(adds, dir + [n])
      ensures Below(adds + [a], dir + [n]) ==
              if n == a.path[|dir|] then Below(adds, dir + [n]) + [a] else Below(adds, dir + [n])
    {
      SplitStep(dir, adds, a, n);
      hide AddedAt, Below;
      var none: seq<Item> := [];
      assert Below(adds, dir + [n]) + none == Below(adds, dir + [n]);
    }
  }

  lemma SplitNested(dir: Path, adds: seq<Item>, a: Item, local: map<Name, Leaf>, nested: map<Name, seq<Item>>)
    requires dir < a.path && |a.path| > |dir| + 1 && IsSplit(dir, adds, local, nested)
    ensures var n := a.path[|dir|];
      IsSplit(dir, adds + [a], local, nested[n := (if n in nested then nested[n] else []) + [a]])
  {
    var n := a.path[|dir|];
    NestedNames(dir, adds, a);
    hide AddedAt, Below;
    assert Below(adds, dir + [n]) == if n in nested then nested[n] else [];
  }

  /** `_split_additions`. */
  method SplitAdditions(dir: Path, adds: seq<Item>)
    returns (local: map<Name, Leaf>, nested: map<Name, seq<Item>>)
    requires forall a :: a in adds ==> dir < a.path
    ensures IsSplit(dir, adds, local, nested)
  {
    local, nested := map[], map[];
    assert adds[..0] == [];
    for i := 0 to |adds|
      invariant IsSplit(dir, adds[..i], local, nested)
    {
      hide IsSplit;
      assert adds[..i + 1] == adds[..i] + [adds[i]];
      var rel := adds[i].path[|dir|..];
      if |rel| == 1 {
        SplitLeaf(dir, adds[..i], adds[i], local, nested);
        local := local[rel[0] := adds[i].leaf];
      } else {
        SplitNested(dir, adds[..i], adds[i], local, nested);
        var group := if rel[0] in nested then nested[rel[0]] else [];
        nested := nested[rel[0] := group + [adds[i]]];
      }
    }
    assert adds[..|adds|] == adds;
  }

  function Group(nested: map<Name, seq<Item>>, n: Name): seq<Item> {
    if n in nested then nested[n] else []
  }

  /** The additions that touch the child named `n`. */
  function NameAdds(dir: Path, n: Name, local: map<Name, Leaf>, nested: map<Name, seq<Item>>): seq<Item> {
    if n in local then [Item(dir + [n], local[n])]
    else Group(nested, n)
  }

  lemma SplitAddedAt(dir: Path, adds: seq<Item>, local: map<Name, Leaf>, nested: map<Name, seq<Item>>, p: Path)
    requires p != [] && IsSplit(dir, adds, local, nested)
    requires !(p[0] in local && p[0] in nested)
    ensures AddedAt(NameAdds(dir, p[0], local, nested), dir + p) == AddedAt(adds, dir + p)
  {
    var d := dir + [p[0]];
    assert Group(nested, p[0]) == Below(adds, d);
    BelowSpec(adds, d, dir + p);
    assert d == (dir + p)[..|dir| + 1];
    assert |p| == 1 ==> d == dir + p;
    if p[0] in local {
      OneAdded(d, local[p[0]], dir + p);
    } else if |p| == 1 {
      BelowSpec(Below(adds, d), d, d);
    }
  }

  lemma OneAdded(d: Path, leaf: Leaf, p: Path)
    ensures AddedAt([Item(d, leaf)], p) == if d == p then Some(leaf) else None
  {
    assert [Item(d, leaf)][..0] == [];
  }

  /** The additions that touch a name are those whose path goes through it. */
  lemma SplitPaths(dir: Path, adds: seq<Item>, local: map<Name, Leaf>, nested: map<Name, seq<Item>>, n: Name)
    requires IsSplit(dir, adds, local, nested)
    requires forall a :: a in adds ==> dir < a.path
    ensures n in local <==> dir + [n] in PathsOf(adds)
    ensures forall q :: q in PathsOf(Group(nested, n)) <==>
              q in PathsOf(adds) && |q| > |dir| + 1 && q[|dir|] == n
  {
    BelowSpec(adds, dir + [n], dir + [n]);
    forall a | a in adds { BelowDirectory(dir, a.path, n); }
    assert Group(nested, n) == Below(adds, dir + [n]);
  }

  lemma OwnPaths(dir: Path, adds: seq<Item>, local: map<Name, Leaf>, nested: map<Name, seq<Item>>, n: Name)
    requires IsSplit(dir, adds, local, nested)
    requires forall a :: a in adds ==> dir < a.path
    requires !(n in local && n in nested)
    ensures forall q :: q in PathsOf(NameAdds(dir, n, local, nested)) <==>
              q in PathsOf(adds) && |q| > |dir| && q[|dir|] == n
  {
    SplitPaths(dir, adds, local, nested, n);
    forall q | q in PathsOf(adds) { BelowDirectory(dir, q, n); }
    forall q | q in PathsOf(adds) && q[|dir|] == n
      ensures if n in local then q == dir + [n] else |q| > |dir| + 1
    {
      assert n in local ==> q !in PathsOf(Group(nested, n));
      assert |q| == |dir| + 1 ==> q[|dir|..] == [q[|dir|]];
    }
    if n in local {
      assert NameAdds(dir, n, local, nested)[0].path == dir + [n];
    }
  }

  lemma SplitShadowed(dir: Path, adds: seq<Item>, local: map<Name, Leaf>, nested: map<Name, seq<Item>>, p: Path)
    requires p != [] && IsSplit(dir, adds, local, nested)
    requires forall a :: a in adds ==> dir < a.path
    requires !(p[0] in local && p[0] in nested)
    ensures Shadowed(NameAdds(dir, p[0], local, nested), dir + p) <==> Shadowed(adds, dir + p)
  {
    OwnPaths(dir, adds, local, nested, p[0]);
    assert (dir + p)[|dir|] == p[0];
    forall q | q in PathsOf(adds) && (q < dir + p || dir + p < q) ensures q[|dir|] == p[0] {
      assert q[|dir|] == (dir + p)[|dir|];
    }
  }

  /** The children of a directory can be spliced one by one. */
  lemma SplitMeaning(dir: Path, adds: seq<Item>, local: map<Name, Leaf>, nested: map<Name, seq<Item>>,
      removed: set<Path>, p: Path, before: Option<Leaf>)
    requires p != [] && IsSplit(dir, adds, local, nested)
    requires forall a :: a in adds ==> dir < a.path
    requires !(p[0] in local && p[0] in nested)
    ensures SplicedLeaf(before, dir + p, adds, removed) ==
            SplicedLeaf(before, dir + p, NameAdds(dir, p[0], local, nested), removed)
  {
    SplitAddedAt(dir, adds, local, nested, p);
    SplitShadowed(dir, adds, local, nested, p);
  }

  /** Additions conflict exactly where the split shows it, here or further down. */
  lemma SplitPrefixFree(dir: Path, adds: seq<Item>, local: map<Name, Leaf>, nested: map<Name, seq<Item>>)
    requires IsSplit(dir, adds, local, nested)
    requires forall a :: a in adds ==> dir < a.path
    ensures PrefixFree(adds) <==>
            local.Keys !! nested.Keys && forall n :: n in nested ==> PrefixFree(nested[n])
  {
    if PrefixFree(adds) {
      forall n | n in nested ensures n !in local && PrefixFree(nested[n]) {
        FreeBelow(dir, adds, local, nested, n);
      }
    } else {
      var p, q :| p in PathsOf(adds) && q in PathsOf(adds) && p < q;
      ConflictBelow(dir, adds, local, nested, p, q);
    }
  }

  lemma FreeBelow(dir: Path, adds: seq<Item>, local: map<Name, Leaf>, nested: map<Name, seq<Item>>, n: Name)
    requires IsSplit(dir, adds, local, nested) && PrefixFree(adds) && n in nested
    requires forall a :: a in adds ==> dir < a.path
    ensures n !in local && PrefixFree(nested[n])
  {
    SplitPaths(dir, adds, local, nested, n);
    var q := nested[n][0].path;
    assert q in PathsOf(nested[n]);
    hide IsSplit;
    BelowDirectory(dir, q, n);
  }

  lemma ConflictBelow(dir: Path, adds: seq<Item>, local: map<Name, Leaf>, nested: map<Name, seq<Item>>, p: Path, q: Path)
    requires IsSplit(dir, adds, local, nested)
    requires forall a :: a in adds ==> dir < a.path
    requires p in PathsOf(adds) && q in PathsOf(adds) && p < q
    ensures var n := p[|dir|]; n in nested && (n in local || !PrefixFree(nested[n]))
  {
    var n := p[|dir|];
    assert dir < p && dir < q && q[|dir|] == n && |q| > |dir| + 1;
    assert |p| == |dir| + 1 ==> p == dir + [n];
    SplitPaths(dir, adds, local, nested, n);
    NoPaths();
    hide IsSplit, PathsOf, PrefixFree;
    assert q in PathsOf(Group(nested, n)) && n in nested;
    if |p| > |dir| + 1 {
      NotFree(nested[n], p, q);
    }
  }

  lemma NoPaths()
    ensures PathsOf([]) == {}
  {
  }

  lemma NotFree(adds: seq<Item>, p: Path, q: Path)
    requires p in PathsOf(adds) && q in PathsOf(adds) && p < q
    ensures !PrefixFree(adds)
  {
  }

  // ---- Splicing one entry ---------------------------------------------------

  /** Below the name `n` of `dir`, the new child is the old one spliced. */
  ghost predicate Spliced(dir: Path, n: Name, before: Option<Entry>, after: Option<Entry>,
      adds: seq<Item>, removed: set<Path>) {
    forall p: Path :: p != [] && p[0] == n ==>
      LeafIn(after, p) == SplicedLeaf(LeafIn(before, p), dir + p, adds, removed)
  }

  /** What becomes of one entry; `taken` and `entered` say whether its own name was
      handled among the leaf and among the nested additions. */
  datatype Outcome = Outcome(kept: Option<Entry>, changed: bool, taken: bool, entered: bool)

  function Longest(adds: seq<Item>): (r: nat)
    ensures forall a :: a in adds ==> |a.path| <= r
  {
    if adds == [] then 0
    else
      var rest := Longest(adds[1..]);
      if rest < |adds[0].path| then |adds[0].path| else rest
  }

  ghost predicate NestedBelow(dir: Path, nested: map<Name, seq<Item>>, depth: nat) {
    forall n :: n in nested ==> nested[n] != [] && 0 < depth && AllBelow(nested[n], dir + [n], depth - 1)
  }

  /** Removal of a path reaches everything below it. */
  lemma RemovedBelow(full: Path, p: Path, removed: set<Path>)
    requires full <= p
    ensures PathIsRemoved(full, removed) ==> PathIsRemoved(p, removed)
    ensures PathIsRemoved(p, removed) && !PathIsRemoved(full, removed) ==>
      exists r :: r in removed && full <= r
  {
    assert forall k :: 0 <= k <= |full| ==> full[..k] == p[..k];
    if PathIsRemoved(p, removed) {
      var k :| 1 <= k <= |p| && p[..k] in removed;
      assert |full| <= k ==> full <= p[..k];
    }
  }

  lemma RemovedHere(dir: Path, n: Name, removed: set<Path>)
    requires PathIsRemoved(dir + [n], removed)
    ensures PathIsRemoved(dir, removed) || dir + [n] in removed
  {
    var full := dir + [n];
    var k :| 1 <= k <= |full| && full[..k] in removed;
    assert k < |full| ==> full[..k] == dir[..k];
    assert k == |full| ==> full[..k] == full;
  }

  /** An unaffected child needs no rewriting. */
  lemma KeptAsIs(dir: Path, e: Entry, removed: set<Path>)
    requires !e.Shard?
    requires !PathIsRemoved(dir + [e.name], removed)
    requires e.Dir? ==> forall r :: r in removed ==> !(dir + [e.name] <= r)
    ensures Spliced(dir, e.name, Some(e), Some(e), [], removed)
  {
    forall p: Path | p != [] && p[0] == e.name
      ensures LeafIn(Some(e), p) == SplicedLeaf(LeafIn(Some(e), p), dir + p, [], removed)
    {
      if |p| == 1 {
        assert dir + p == dir + [e.name];
      } else {
        RemovedBelow(dir + [e.name], dir + p, removed);
      }
    }
  }

  /** A removed child leaves nothing behind. */
  lemma Dropped(dir: Path, n: Name, before: Option<Entry>, removed: set<Path>)
    requires PathIsRemoved(dir + [n], removed) || before == None
    ensures Spliced(dir, n, before, None, [], removed)
  {
    forall p: Path | p != [] && p[0] == n
      ensures SplicedLeaf(LeafIn(before, p), dir + p, [], removed) == None
    {
      RemovedBelow(dir + [n], dir + p, removed);
    }
  }

  /** A leaf staged at the entry's own path replaces whatever was there. */
  lemma Replaced(dir: Path, n: Name, before: Option<Entry>, leaf: Leaf, removed: set<Path>)
    ensures Spliced(dir, n, before, Some(File(n, leaf)), [Item(dir + [n], leaf)], removed)
  {
    var own := [Item(dir + [n], leaf)];
    forall p: Path | p != [] && p[0] == n
      ensures LeafIn(Some(File(n, leaf)), p) == SplicedLeaf(LeafIn(before, p), dir + p, own, removed)
    {
      if |p| == 1 {
        assert dir + p == dir + [n];
      } else {
        assert own[0].path in PathsOf(own) && own[0].path < dir + p;
        assert AddedAt(own[..0], dir + p) == None;
      }
    }
  }

  /** A subdirectory spliced on its own is the child spliced; what lies there goes
      when it is a leaf or removed as a whole. */
  lemma Descended(dir: Path, n: Name, before: Option<Entry>, tree: Option<Node>, after: Option<Node>,
      adds: seq<Item>, removed: set<Path>)
    requires before.Some? ==> !before.value.Shard?
    requires forall a :: a in adds ==> dir + [n] < a.path
    requires forall q: Path :: q != [] ==>
      LeafAt(EntriesOf(after), q) == SplicedLeaf(LeafAt(EntriesOf(tree), q), dir + [n] + q, adds, removed)
    requires tree.Some? ==> before == Some(Dir(n, tree.value))
    requires tree.None? ==>
      before.None? || PathIsRemoved(dir + [n], removed) || (before.value.File? && adds != [])
    ensures Spliced(dir, n, before, if after.Some? then Some(Dir(n, after.value)) else None, adds, removed)
  {
    var child := if after.Some? then Some(Dir(n, after.value)) else None;
    forall p: Path | p != [] && p[0] == n
      ensures LeafIn(child, p) == SplicedLeaf(LeafIn(before, p), dir + p, adds, removed)
    {
      RemovedBelow(dir + [n], dir + p, removed);
      if |p| == 1 {
        assert dir + p == dir + [n];
        BelowSpec(adds, dir + [n], dir + p);
        assert adds != [] ==> adds[0].path in PathsOf(adds);
        assert LeafIn(child, p) == None;
      } else {
        assert dir + [n] + p[1..] == dir + p;
        assert LeafIn(child, p) == LeafAt(EntriesOf(after), p[1..]);
        assert LeafAt(EntriesOf(after), p[1..]) ==
               SplicedLeaf(LeafAt(EntriesOf(tree), p[1..]), dir + p, adds, removed);
        assert tree.Some? ==> LeafIn(before, p) == LeafAt(EntriesOf(tree), p[1..]);
        assert tree.None? ==> LeafAt(EntriesOf(tree), p[1..]) == None;
      }
    }
  }

  /** What splicing one entry yields. */
  ghost predicate EntrySpliced(m: nat, dir: Path, e: Entry, r: Outcome,
      local: map<Name, Leaf>, nested: map<Name, seq<Item>>, removed: set<Path>) {
    && (r.taken ==> e.name in local)
    && (e.name in nested ==> r.entered)
    && (r.kept.Some? ==> r.kept.value.name == e.name && !r.kept.value.Shard?)
    && (r.kept.Some? && r.kept.value.Dir? ==> Sound(m, r.kept.value.child))
    && (if e.name in local && !r.taken then r.kept == None
        else Spliced(dir, e.name, Some(e), r.kept, NameAdds(dir, e.name, local, nested), removed))
    && (!r.changed ==> r.kept == Some(e) && e.name !in local)
  }

  /** One turn of the loop in `_splice_children`. */
  method SpliceEntry(m: nat, dir: Path, e: Entry, local: map<Name, Leaf>, nested: map<Name, seq<Item>>,
      removed: set<Path>, ghost depth: nat) returns (r: Result<Outcome>)
    requires 2 <= m && !e.Shard?
    requires e.Dir? ==> e.child.entries != [] && WellFormed(m, e.child.entries)
    requires local.Keys !! nested.Keys && NestedBelow(dir, nested, depth)
    ensures r.Success? ==> EntrySpliced(m, dir, e, r.value, local, nested, removed)
    ensures r.Success? && e.name in nested ==> PrefixFree(nested[e.name])
    ensures r.Failure? ==> e.name in nested && !PrefixFree(nested[e.name])
    decreases Height([e]), depth, 2
  {
    var n, full := e.name, dir + [e.name];
    var gone := PathIsRemoved(full, removed);
    if e.File? {
      if n in local {
        Replaced(dir, n, Some(e), local[n], removed);
        return Success(Outcome(Some(File(n, local[n])), true, true, !gone));
      }
      if n in nested {
        var sub :- SpliceDirectory(m, full, None, nested[n], removed, depth - 1);
        Descended(dir, n, Some(e), None, sub, nested[n], removed);
        return Success(Outcome(if sub.Some? then Some(Dir(n, sub.value)) else None, true, false, true));
      }
      if gone {
        Dropped(dir, n, Some(e), removed);
        return Success(Outcome(None, true, false, false));
      }
      KeptAsIs(dir, e, removed);
      return Success(Outcome(Some(e), false, false, false));
    }
    if gone && n !in nested {
      Dropped(dir, n, Some(e), removed);
      return Success(Outcome(None, true, false, false));
    }
    if n in local {
      Replaced(dir, n, Some(e), local[n], removed);
      return Success(Outcome(Some(File(n, local[n])), true, true, true));
    }
    var inside := exists r :: r in removed && full <= r;
    if !gone && !inside && n !in nested {
      WellFormedIsSound(m, e.child.entries);
      KeptAsIs(dir, e, removed);
      return Success(Outcome(Some(e), false, false, false));
    }
    var tree := if gone then None else Some(e.child);
    var adds := Group(nested, n);
    HeightOfMember([e], e);
    var sub :- SpliceDirectory(m, full, tree, adds, removed, if depth == 0 then 0 else depth - 1);
    Descended(dir, n, Some(e), tree, sub, adds, removed);
    if sub.None? {
      return Success(Outcome(None, true, false, true));
    }
    return Success(Outcome(Some(Dir(n, sub.value)), sub.value != e.child, false, true));
  }

  // ---- Splicing the entries of one node -------------------------------------

  ghost predicate WellFormedDirs(m: nat, es: seq<Entry>) {
    forall e :: e in es && e.Dir? ==> e.child.entries != [] && WellFormed(m, e.child.entries)
  }

  /** Halfway through a node: every name is spliced into `kept`, but for the leaf
      and nested additions still to be appended, whose names `kept` lacks. */
  ghost predicate SplicedBut(m: nat, dir: Path, es: seq<Entry>, kept: seq<Entry>, leaves: set<Name>, subdirs: set<Name>,
      local: map<Name, Leaf>, nested: map<Name, seq<Item>>, removed: set<Path>) {
    && Plain(kept) && Distinct(kept) && SoundDirs(m, kept)
    && (forall n: Name :: n in leaves || n in subdirs ==> Child(kept, n) == None)
    && (forall n: Name :: n in subdirs ==> Child(es, n) == None)
    && (forall n: Name :: Child(kept, n).Some? ==> Child(es, n).Some? || n in local || n in nested)
    && (forall n: Name :: n !in leaves && n !in subdirs ==>
          Spliced(dir, n, Child(es, n), Child(kept, n), NameAdds(dir, n, local, nested), removed))
  }

  /** Only names seen so far were handled or kept. */
  ghost predicate OnlySeen(es: seq<Entry>, kept: seq<Entry>, taken: set<Name>, entered: set<Name>) {
    forall n: Name :: n in taken || n in entered || Child(kept, n).Some? ==> Child(es, n).Some?
  }

  lemma AppendKept(m: nat, kept: seq<Entry>, e: Entry)
    requires Plain(kept) && Distinct(kept) && SoundDirs(m, kept)
    requires !e.Shard? && Child(kept, e.name) == None && (e.Dir? ==> Sound(m, e.child))
    ensures Plain(kept + [e]) && Distinct(kept + [e]) && SoundDirs(m, kept + [e])
    ensures forall n: Name :: Child(kept + [e], n) == if n == e.name then Some(e) else Child(kept, n)
  {
    ChildNone(kept, e.name);
    forall n: Name { ChildSnoc(kept, e, n); }
  }

  lemma NextChildren(m: nat, es: seq<Entry>, e: Entry, kept: seq<Entry>, child: Option<Entry>)
    requires Plain(es + [e]) && Distinct(es + [e])
    requires Plain(kept) && Distinct(kept) && SoundDirs(m, kept)
    requires child.Some? ==> child.value.name == e.name && !child.value.Shard? && (child.value.Dir? ==> Sound(m, child.value.child))
    requires Child(kept, e.name).Some? ==> Child(es, e.name).Some?
    ensures var next := if child.Some? then kept + [child.value] else kept;
      && Plain(next) && Distinct(next) && SoundDirs(m, next)
      && (forall n: Name :: Child(next, n) == if n == e.name then child else Child(kept, n))
    ensures Child(es, e.name) == None
    ensures forall n: Name :: Child(es + [e], n) == if n == e.name then Some(e) else Child(es, n)
  {
    assert Plain(es) by { assert forall x :: x in es ==> x in es + [e]; }
    assert Child(es, e.name) == None by {
      ChildNone(es, e.name);
      assert forall i :: 0 <= i < |es| ==> (es + [e])[i] == es[i];
      assert (es + [e])[|es|] == e;
    }
    assert e in es + [e];
    forall n: Name { ChildSnoc(es, e, n); }
    if child.Some? {
      AppendKept(m, kept, child.value);
    }
  }

  /** The pending names once the entry `e` is handled; only its own name may leave them. */
  lemma SplicedNext(m: nat, dir: Path, es: seq<Entry>, e: Entry, kept: seq<Entry>, child: Option<Entry>,
      leaves: set<Name>, subdirs: set<Name>, leaves': set<Name>, subdirs': set<Name>,
      local: map<Name, Leaf>, nested: map<Name, seq<Item>>, removed: set<Path>)
    requires Plain(es + [e]) && Distinct(es + [e])
    requires SplicedBut(m, dir, es, kept, leaves, subdirs, local, nested, removed)
    requires Child(kept, e.name).Some? ==> Child(es, e.name).Some?
    requires child.Some? ==> child.value.name == e.name && !child.value.Shard? && (child.value.Dir? ==> Sound(m, child.value.child))
    requires forall n: Name :: n != e.name ==> (n in leaves' <==> n in leaves) && (n in subdirs' <==> n in subdirs)
    requires e.name !in subdirs'
    requires if e.name in leaves' then child == None
             else Spliced(dir, e.name, Some(e), child, NameAdds(dir, e.name, local, nested), removed)
    ensures SplicedBut(m, dir, es + [e], if child.Some? then kept + [child.value] else kept,
              leaves', subdirs', local, nested, removed)
  {
    NextChildren(m, es, e, kept, child);
    hide Sound, Plain, Distinct, SoundDirs, NameAdds, Child, Spliced;
  }

  lemma SeenNext(m: nat, es: seq<Entry>, e: Entry, kept: seq<Entry>, child: Option<Entry>,
      taken: set<Name>, entered: set<Name>, taken': set<Name>, entered': set<Name>)
    requires Plain(es + [e]) && Distinct(es + [e])
    requires Plain(kept) && Distinct(kept) && SoundDirs(m, kept)
    requires OnlySeen(es, kept, taken, entered)
    requires child.Some? ==> child.value.name == e.name && !child.value.Shard? && (child.value.Dir? ==> Sound(m, child.value.child))
    requires taken' <= taken + {e.name} && entered' <= entered + {e.name}
    ensures OnlySeen(es + [e], if child.Some? then kept + [child.value] else kept, taken', entered')
    ensures Child(kept, e.name).Some? ==> Child(es, e.name).Some?
    ensures e.name !in taken && e.name !in entered
  {
    NextChildren(m, es, e, kept, child);
    hide Sound, Plain, Distinct, SoundDirs, Child;
  }

  lemma EntryStep(m: nat, dir: Path, es: seq<Entry>, e: Entry, kept: seq<Entry>, o: Outcome,
      local: map<Name, Leaf>, nested: map<Name, seq<Item>>, taken: set<Name>, entered: set<Name>, removed: set<Path>)
    requires Plain(es + [e]) && Distinct(es + [e])
    requires SplicedBut(m, dir, es, kept, local.Keys - taken, nested.Keys - entered, local, nested, removed)
    requires OnlySeen(es, kept, taken, entered)
    requires EntrySpliced(m, dir, e, o, local, nested, removed)
    ensures var kept' := if o.kept.Some? then kept + [o.kept.value] else kept;
      var taken' := if o.taken then taken + {e.name} else taken;
      var entered' := if o.entered then entered + {e.name} else entered;
      && SplicedBut(m, dir, es + [e], kept', local.Keys - taken', nested.Keys - entered', local, nested, removed)
      && OnlySeen(es + [e], kept', taken', entered')
  {
    var taken' := if o.taken then taken + {e.name} else taken;
    var entered' := if o.entered then entered + {e.name} else entered;
    KeptIsPlain(m, dir, es, kept, local.Keys - taken, nested.Keys - entered, local, nested, removed);
    hide SplicedBut, OnlySeen, Spliced, NameAdds, Child, Sound, Plain, Distinct, SoundDirs;
    SeenNext(m, es, e, kept, o.kept, taken, entered, taken', entered');
    SplicedNext(m, dir, es, e, kept, o.kept, local.Keys - taken, nested.Keys - entered,
                local.Keys - taken', nested.Keys - entered', local, nested, removed);
  }

  lemma KeptIsPlain(m: nat, dir: Path, es: seq<Entry>, kept: seq<Entry>, leaves: set<Name>, subdirs: set<Name>,
      local: map<Name, Leaf>, nested: map<Name, seq<Item>>, removed: set<Path>)
    requires SplicedBut(m, dir, es, kept, leaves, subdirs, local, nested, removed)
    ensures Plain(kept) && Distinct(kept) && SoundDirs(m, kept)
  {
  }

  lemma NothingSpliced(m: nat, dir: Path, local: map<Name, Leaf>, nested: map<Name, seq<Item>>, removed: set<Path>)
    ensures SplicedBut(m, dir, [], [], local.Keys - {}, nested.Keys - {}, local, nested, removed)
    ensures OnlySeen([], [], {}, {})
  {
    forall n: Name | n !in local && n !in nested { Dropped(dir, n, None, removed); }
  }

  /** The loop over the entries of a node in `_splice_children`. */
  method SpliceEntries(m: nat, dir: Path, entries: seq<Entry>, local: map<Name, Leaf>, nested: map<Name, seq<Item>>,
      removed: set<Path>, ghost depth: nat)
    returns (r: Result<Rewrite>, taken: set<Name>, entered: set<Name>)
    requires 2 <= m && Plain(entries) && Distinct(entries) && WellFormedDirs(m, entries)
    requires local.Keys !! nested.Keys && NestedBelow(dir, nested, depth)
    ensures r.Success? ==>
      && SplicedBut(m, dir, entries, r.value.kept, local.Keys - taken, nested.Keys - entered, local, nested, removed)
      && (forall n :: n in nested && n in entered ==> PrefixFree(nested[n]))
      && (!r.value.changed ==> r.value.kept == entries && local.Keys !! taken)
    ensures r.Failure? ==> exists n :: n in nested && !PrefixFree(nested[n])
    decreases Height(entries), depth, 3
  {
    var kept: seq<Entry>, changed := [], false;
    taken, entered := {}, {};
    NothingSpliced(m, dir, local, nested, removed);
    hide SplicedBut, EntrySpliced, OnlySeen;
    assert entries[..0] == [];
    for i := 0 to |entries|
      invariant SplicedBut(m, dir, entries[..i], kept, local.Keys - taken, nested.Keys - entered, local, nested, removed)
      invariant OnlySeen(entries[..i], kept, taken, entered)
      invariant forall n :: n in nested && n in entered ==> PrefixFree(nested[n])
      invariant !changed ==> kept == entries[..i] && local.Keys !! taken
    {
      var e := entries[i];
      HeightOfEntry(entries, i);
      var one := SpliceEntry(m, dir, e, local, nested, removed, depth);
      if one.Failure? {
        r := Failure(one.error);
        return;
      }
      changed := changed || one.value.changed;
      EntryStep(m, dir, entries[..i], e, kept, one.value, local, nested, taken, entered, removed);
      assert entries[..i + 1] == entries[..i] + [e];
      if one.value.kept.Some? {
        kept := kept + [one.value.kept.value];
      }
      if one.value.taken { taken := taken + {e.name}; }
      if one.value.entered { entered := entered + {e.name}; }
    }
    assert entries[..|entries|] == entries;
    r := Success(Rewrite(kept, changed));
  }

  /** The new directory is the old one spliced, at every path below `dir`. */
  ghost predicate DirectorySpliced(m: nat, dir: Path, tree: Option<Node>, after: Option<Node>,
      adds: seq<Item>, removed: set<Path>) {
    && (after.Some? ==> Sound(m, after.value))
    && (forall p: Path :: p != [] ==>
          LeafAt(EntriesOf(after), p) == SplicedLeaf(LeafAt(EntriesOf(tree), p), dir + p, adds, removed))
  }

  /** One pending name settled: `child`, if any, is appended. */
  lemma Settled(m: nat, dir: Path, es: seq<Entry>, kept: seq<Entry>, leaves: set<Name>, subdirs: set<Name>,
      local: map<Name, Leaf>, nested: map<Name, seq<Item>>, removed: set<Path>, n: Name, child: Option<Entry>)
    requires SplicedBut(m, dir, es, kept, leaves, subdirs, local, nested, removed)
    requires (n in leaves && n in local) || (n in subdirs && n in nested)
    requires child.Some? ==>
      child.value.name == n && !child.value.Shard? && (child.value.Dir? ==> Sound(m, child.value.child))
    requires Spliced(dir, n, Child(es, n), child, NameAdds(dir, n, local, nested), removed)
    ensures SplicedBut(m, dir, es, if child.Some? then kept + [child.value] else kept,
              leaves - {n}, subdirs - {n}, local, nested, removed)
  {
    hide Spliced, Sound;
    if child.Some? {
      AppendKept(m, kept, child.value);
    }
  }

  lemma NewSubdir(m: nat, dir: Path, es: seq<Entry>, kept: seq<Entry>, subdirs: set<Name>,
      local: map<Name, Leaf>, nested: map<Name, seq<Item>>, removed: set<Path>, n: Name, sub: Option<Node>)
    requires SplicedBut(m, dir, es, kept, {}, subdirs, local, nested, removed)
    requires n in subdirs && n in nested && n !in local
    requires forall a :: a in nested[n] ==> dir + [n] < a.path
    requires DirectorySpliced(m, dir + [n], None, sub, nested[n], removed)
    ensures SplicedBut(m, dir, es, if sub.Some? then kept + [Dir(n, sub.value)] else kept,
              {}, subdirs - {n}, local, nested, removed)
  {
    Descended(dir, n, None, None, sub, nested[n], removed);
    assert Child(es, n) == None;
    hide SplicedBut, Spliced;
    Settled(m, dir, es, kept, {}, subdirs, local, nested, removed, n,
            if sub.Some? then Some(Dir(n, sub.value)) else None);
    var none: set<Name> := {};
    assert none - {n} == none;
  }

  /** Appends the leaf additions no entry took. */
  method AppendLeaves(m: nat, dir: Path, ghost entries: seq<Entry>, begun: Rewrite, pending: set<Name>, ghost subdirs: set<Name>,
      local: map<Name, Leaf>, ghost nested: map<Name, seq<Item>>, removed: set<Path>) returns (r: Rewrite)
    requires pending <= local.Keys && local.Keys !! nested.Keys && subdirs <= nested.Keys
    requires SplicedBut(m, dir, entries, begun.kept, pending, subdirs, local, nested, removed)
    ensures SplicedBut(m, dir, entries, r.kept, {}, subdirs, local, nested, removed)
    ensures if pending == {} then r == begun else r.changed
  {
    hide SplicedBut, Spliced;
    var leaves := pending;
    r := begun;
    while leaves != {}
      invariant leaves <= pending
      invariant SplicedBut(m, dir, entries, r.kept, leaves, subdirs, local, nested, removed)
      invariant if leaves == pending then r == begun else r.changed
      decreases |leaves|
    {
      var n :| n in leaves;
      Replaced(dir, n, Child(entries, n), local[n], removed);
      Settled(m, dir, entries, r.kept, leaves, subdirs, local, nested, removed, n, Some(File(n, local[n])));
      assert subdirs - {n} == subdirs;
      r, leaves := Rewrite(r.kept + [File(n, local[n])], true), leaves - {n};
    }
  }

  /** Appends the subdirectories made of nested additions no entry took. */
  method AppendSubdirs(m: nat, dir: Path, ghost entries: seq<Entry>, begun: Rewrite, pending: set<Name>,
      ghost local: map<Name, Leaf>, nested: map<Name, seq<Item>>, removed: set<Path>, ghost depth: nat)
    returns (r: Result<Rewrite>)
    requires 2 <= m && local.Keys !! nested.Keys && NestedBelow(dir, nested, depth) && pending <= nested.Keys
    requires SplicedBut(m, dir, entries, begun.kept, {}, pending, local, nested, removed)
    ensures r.Success? ==> SplicedBut(m, dir, entries, r.value.kept, {}, {}, local, nested, removed)
    ensures r.Success? ==> r.value == begun || r.value.changed
    ensures r.Success? <==> forall n :: n in pending ==> PrefixFree(nested[n])
    decreases 0, depth, 3
  {
    hide SplicedBut, DirectorySpliced, PrefixFree;
    var subdirs, done := pending, begun;
    while subdirs != {}
      invariant subdirs <= pending
      invariant SplicedBut(m, dir, entries, done.kept, {}, subdirs, local, nested, removed)
      invariant forall n :: n in pending && n !in subdirs ==> PrefixFree(nested[n])
      invariant done == begun || done.changed
      decreases |subdirs|
    {
      var n :| n in subdirs;
      var sub :- SpliceDirectory(m, dir + [n], None, nested[n], removed, depth - 1);
      NewSubdir(m, dir, entries, done.kept, subdirs, local, nested, removed, n, sub);
      if sub.Some? {
        done := Rewrite(done.kept + [Dir(n, sub.value)], true);
      }
      subdirs := subdirs - {n};
    }
    return Success(done);
  }

  /** `_splice_children`: the entries of one node, then the additions no entry took. */
  method SpliceChildren(m: nat, dir: Path, entries: seq<Entry>, local: map<Name, Leaf>, nested: map<Name, seq<Item>>,
      removed: set<Path>, ghost depth: nat) returns (r: Result<Rewrite>)
    requires 2 <= m && Plain(entries) && Distinct(entries) && WellFormedDirs(m, entries)
    requires local.Keys !! nested.Keys && NestedBelow(dir, nested, depth)
    ensures r.Success? <==> forall n :: n in nested ==> PrefixFree(nested[n])
    ensures r.Success? ==> SplicedBut(m, dir, entries, r.value.kept, {}, {}, local, nested, removed)
    ensures r.Success? && !r.value.changed ==> r.value.kept == entries
    decreases Height(entries), depth, 4
  {
    hide SplicedBut, PrefixFree, WellFormedDirs;
    var first, taken, entered := SpliceEntries(m, dir, entries, local, nested, removed, depth);
    var begun :- first;
    var leaves, subdirs := local.Keys - taken, nested.Keys - entered;
    var withLeaves := AppendLeaves(m, dir, entries, begun, leaves, subdirs, local, nested, removed);
    r := AppendSubdirs(m, dir, entries, withLeaves, subdirs, local, nested, removed, depth);
  }

  // ---- Splicing a directory -------------------------------------------------

  /** The new directory is the old one spliced, name by name. */
  ghost predicate NamesSpliced(m: nat, dir: Path, es: seq<Entry>, after: Option<Node>,
      local: map<Name, Leaf>, nested: map<Name, seq<Item>>, removed: set<Path>) {
    && (after.Some? ==> Sound(m, after.value))
    && (forall n: Name ::
          Spliced(dir, n, Child(es, n), Child(EntriesOf(after), n), NameAdds(dir, n, local, nested), removed))
  }

  lemma Assembled(m: nat, dir: Path, tree: Option<Node>, after: Option<Node>, adds: seq<Item>,
      local: map<Name, Leaf>, nested: map<Name, seq<Item>>, removed: set<Path>)
    requires forall a :: a in adds ==> dir < a.path
    requires IsSplit(dir, adds, local, nested) && local.Keys !! nested.Keys
    requires NamesSpliced(m, dir, EntriesOf(tree), after, local, nested, removed)
    ensures DirectorySpliced(m, dir, tree, after, adds, removed)
  {
    hide IsSplit, SplicedLeaf;
    forall p: Path | p != []
      ensures LeafAt(EntriesOf(after), p) == SplicedLeaf(LeafAt(EntriesOf(tree), p), dir + p, adds, removed)
    {
      SplitMeaning(dir, adds, local, nested, removed, p, LeafAt(EntriesOf(tree), p));
      assert Spliced(dir, p[0], Child(EntriesOf(tree), p[0]), Child(EntriesOf(after), p[0]),
                     NameAdds(dir, p[0], local, nested), removed);
    }
  }

  lemma PlainSpliced(m: nat, dir: Path, es: seq<Entry>, kept: seq<Entry>, after: Option<Node>,
      local: map<Name, Leaf>, nested: map<Name, seq<Item>>, removed: set<Path>)
    requires SplicedBut(m, dir, es, kept, {}, {}, local, nested, removed)
    requires after.Some? ==> Sound(m, after.value)
    requires forall n: Name :: Child(EntriesOf(after), n) == Child(kept, n)
    ensures NamesSpliced(m, dir, es, after, local, nested, removed)
  {
    hide Spliced;
  }

  /** A directory without shards. */
  method SplicePlain(m: nat, dir: Path, tree: Option<Node>, local: map<Name, Leaf>, nested: map<Name, seq<Item>>,
      removed: set<Path>, ghost depth: nat) returns (r: Result<Option<Node>>)
    requires 2 <= m && Plain(EntriesOf(tree)) && WellFormed(m, EntriesOf(tree))
    requires local.Keys !! nested.Keys && NestedBelow(dir, nested, depth)
    ensures r.Success? <==> forall n :: n in nested ==> PrefixFree(nested[n])
    ensures r.Success? ==> NamesSpliced(m, dir, EntriesOf(tree), r.value, local, nested, removed)
    decreases Height(EntriesOf(tree)), depth, 5
  {
    var entries := EntriesOf(tree);
    SortedIsDistinct(entries);
    var parts :- SpliceChildren(m, dir, entries, local, nested, removed, depth);
    SplicedIsKept(m, dir, entries, parts.kept, local, nested, removed);
    hide SplicedBut, NamesSpliced, Spliced;
    if parts.kept == [] {
      r := Success(None);
    } else if !parts.changed && tree.Some? {
      WellFormedIsSound(m, entries);
      r := Success(tree);
    } else {
      PlainIsWritable(parts.kept);
      var built := BuildChildren(m, parts.kept);
      PlainBuilt(m, parts.kept, built.value);
      r := Nonempty(built);
    }
    PlainSpliced(m, dir, entries, parts.kept, r.value, local, nested, removed);
  }

  lemma SplicedIsKept(m: nat, dir: Path, es: seq<Entry>, kept: seq<Entry>,
      local: map<Name, Leaf>, nested: map<Name, seq<Item>>, removed: set<Path>)
    requires SplicedBut(m, dir, es, kept, {}, {}, local, nested, removed)
    ensures Plain(kept) && Distinct(kept) && SoundDirs(m, kept)
  {
  }

  /** `_splice_directory`: fails exactly when one addition lies below another. */
  method SpliceDirectory(m: nat, dir: Path, tree: Option<Node>, adds: seq<Item>,
      removed: set<Path>, ghost depth: nat) returns (r: Result<Option<Node>>)
    requires 2 <= m
    requires tree.Some? ==> WellFormed(m, tree.value.entries)
    requires tree.Some? ==> !PathIsRemoved(dir, removed)
    requires AllBelow(adds, dir, depth)
    ensures r.Success? <==> PrefixFree(adds)
    ensures r.Success? ==> DirectorySpliced(m, dir, tree, r.value, adds, removed)
    decreases Height(EntriesOf(tree)), depth, 8
  {
    hide NamesSpliced, DirectorySpliced, IsSplit, WellFormed, PrefixFree;
    var local, nested := SplitAdditions(dir, adds);
    SplitPrefixFree(dir, adds, local, nested);
    if local.Keys * nested.Keys != {} {
      return Failure(ConflictingAdditions);
    }
    assert forall n: Name :: n in local && n in nested ==> n in local.Keys * nested.Keys;
    SplitIsBelow(dir, adds, local, nested, depth);
    var sharded := exists e :: e in EntriesOf(tree) && e.Shard?;
    WellFormedCases(m, EntriesOf(tree));
    if sharded {
      r := SpliceSharded(m, dir, tree.value, local, nested, removed, depth);
    } else {
      r := SplicePlain(m, dir, tree, local, nested, removed, depth);
    }
    if r.Success? {
      Assembled(m, dir, tree, r.value, adds, local, nested, removed);
    }
  }

  lemma SplitIsBelow(dir: Path, adds: seq<Item>, local: map<Name, Leaf>, nested: map<Name, seq<Item>>, depth: nat)
    requires IsSplit(dir, adds, local, nested) && AllBelow(adds, dir, depth)
    ensures NestedBelow(dir, nested, depth)
  {
    forall n | n in nested
      ensures nested[n] != [] && 0 < depth && AllBelow(nested[n], dir + [n], depth - 1)
    {
      BelowSpec(adds, dir + [n], dir + [n]);
      assert nested[n][0] in nested[n];
    }
  }

  // ---- Splicing a sharded directory -----------------------------------------

  /** `_touched_direct_names`: the children of `dir` a splice can change. */
  function TouchedNames(dir: Path, local: map<Name, Leaf>, nested: map<Name, seq<Item>>, removed: set<Path>): set<Name> {
    local.Keys + nested.Keys + set r | r in removed && dir < r :: r[|dir|]
  }

  /** The part of a map that falls to the i-th shard. */
  function Share<T>(es: seq<Entry>, i: nat, all: map<Name, T>): map<Name, T> {
    map n | n in all && ShardIndex(es, n) == i :: all[n]
  }

  /** The i-th range of a sharded directory spliced into `next`. */
  ghost predicate RangeSpliced(m: nat, dir: Path, es: seq<Entry>, i: nat, next: seq<Entry>,
      local: map<Name, Leaf>, nested: map<Name, seq<Item>>, removed: set<Path>) {
    && CoverRange(es, i, next) && GoodShards(m, next)
    && (forall n: Name :: ShardIndex(es, n) == i ==>
          Spliced(dir, n, Child(es, n), Child(next, n), NameAdds(dir, n, local, nested), removed))
  }

  /** The ranges before the i-th spliced into `kept`. */
  ghost predicate RangesSpliced(m: nat, dir: Path, es: seq<Entry>, i: nat, kept: seq<Entry>,
      local: map<Name, Leaf>, nested: map<Name, seq<Item>>, removed: set<Path>) {
    && CoverUpTo(es, i, kept) && GoodShards(m, kept)
    && (forall n: Name :: ShardIndex(es, n) < i ==>
          Spliced(dir, n, Child(es, n), Child(kept, n), NameAdds(dir, n, local, nested), removed))
  }

  lemma RangeStep(m: nat, dir: Path, es: seq<Entry>, i: nat, kept: seq<Entry>, next: seq<Entry>,
      local: map<Name, Leaf>, nested: map<Name, seq<Item>>, removed: set<Path>)
    requires Sorted(es) && es != []
    requires RangesSpliced(m, dir, es, i, kept, local, nested, removed)
    requires RangeSpliced(m, dir, es, i, next, local, nested, removed)
    ensures RangesSpliced(m, dir, es, i + 1, kept + next, local, nested, removed)
  {
    hide Spliced, NameAdds;
    AppendRange(es, i, kept, next);
  }

  /** A shard no touched name falls to stays as it is. */
  lemma UntouchedRange(m: nat, dir: Path, es: seq<Entry>, i: nat,
      local: map<Name, Leaf>, nested: map<Name, seq<Item>>, removed: set<Path>)
    requires WellFormed(m, es) && AllShards(es) && i < |es| && !PathIsRemoved(dir, removed)
    requires forall n :: n in TouchedNames(dir, local, nested, removed) ==> ShardIndex(es, n) != i
    ensures RangeSpliced(m, dir, es, i, [es[i]], local, nested, removed)
  {
    OwnRange(m, es, i);
    forall n: Name | ShardIndex(es, n) == i
      ensures Spliced(dir, n, Child(es, n), Child([es[i]], n), NameAdds(dir, n, local, nested), removed)
    {
      assert n !in TouchedNames(dir, local, nested, removed);
      UntouchedName(dir, n, Child(es, n), local, nested, removed);
    }
  }

  lemma UntouchedName(dir: Path, n: Name, child: Option<Entry>,
      local: map<Name, Leaf>, nested: map<Name, seq<Item>>, removed: set<Path>)
    requires !PathIsRemoved(dir, removed) && n !in TouchedNames(dir, local, nested, removed)
    requires child.Some? ==> child.value.name == n && !child.value.Shard?
    ensures Spliced(dir, n, child, child, NameAdds(dir, n, local, nested), removed)
  {
    assert forall r :: r in removed && dir < r ==> r[|dir|] in TouchedNames(dir, local, nested, removed);
    if child.None? {
      Dropped(dir, n, child, removed);
    } else {
      assert forall r :: r in removed && dir + [n] <= r ==> dir < r && r[|dir|] == n;
      if PathIsRemoved(dir + [n], removed) {
        RemovedHere(dir, n, removed);
        assert false;
      }
      KeptAsIs(dir, child.value, removed);
    }
  }

  /** The rewritten body of the i-th shard, however it is cut, splices its range. */
  lemma RewrittenRange(m: nat, dir: Path, es: seq<Entry>, i: nat, kept: seq<Entry>, next: seq<Entry>,
      local: map<Name, Leaf>, nested: map<Name, seq<Item>>, removed: set<Path>)
    requires WellFormed(m, es) && AllShards(es) && i < |es|
    requires SplicedBut(m, dir, es[i].child.entries, kept, {}, {}, Share(es, i, local), Share(es, i, nested), removed)
    requires CoverRange(es, i, next) && GoodShards(m, next)
    requires forall n: Name :: Child(next, n) == Child(kept, n)
    ensures RangeSpliced(m, dir, es, i, next, local, nested, removed)
  {
    OwnRange(m, es, i);
    hide Spliced, CoverRange, GoodShards;
  }

  /** The balanced split: the groups hold at most `m` entries each. */
  lemma BalancedSize(k: nat, m: nat)
    requires 0 < k && 0 < m
    ensures var groups := (k + m - 1) / m;
      0 < groups && 0 < (k + groups - 1) / groups <= m
  {
    var groups := (k + m - 1) / m;
    assert 0 < groups && k <= groups * m;
    var size := (k + groups - 1) / groups;
    assert size * groups <= k + groups - 1;
    if m < size {
      MulMonotone(m + 1, size, groups);
    }
  }

  /** A rewritten body cut into balanced shards. */
  lemma SplitRange(m: nat, dir: Path, es: seq<Entry>, i: nat, kept: seq<Entry>, size: nat,
      local: map<Name, Leaf>, nested: map<Name, seq<Item>>, removed: set<Path>)
    requires WellFormed(m, es) && AllShards(es) && i < |es| && 0 < size <= m
    requires SplicedBut(m, dir, es[i].child.entries, kept, {}, {}, Share(es, i, local), Share(es, i, nested), removed)
    ensures Sorted(SortByName(kept))
    ensures RangeSpliced(m, dir, es, i, Chunks(SortByName(kept), size), local, nested, removed)
  {
    var sorted := SortByName(kept);
    SplicedIsKept(m, dir, es[i].child.entries, kept, Share(es, i, local), Share(es, i, nested), removed);
    SortSpec(kept);
    SortKeepsChildren(kept);
    PlainIsWritable(kept);
    OwnRange(m, es, i);
    forall n: Name | Child(sorted, n).Some? ensures ShardIndex(es, n) == i {
      SplicedNames(m, dir, es[i].child.entries, kept, Share(es, i, local), Share(es, i, nested), removed, n);
    }
    ChunksCoverRange(m, es, i, sorted, size);
    RewrittenRange(m, dir, es, i, kept, Chunks(sorted, size), local, nested, removed);
  }

  lemma SplicedNames(m: nat, dir: Path, es: seq<Entry>, kept: seq<Entry>,
      local: map<Name, Leaf>, nested: map<Name, seq<Item>>, removed: set<Path>, n: Name)
    requires SplicedBut(m, dir, es, kept, {}, {}, local, nested, removed) && Child(kept, n).Some?
    ensures Child(es, n).Some? || n in local || n in nested
  {
  }

  /** One affected shard of `_splice_sharded_directory`. */
  method SpliceShard(m: nat, dir: Path, es: seq<Entry>, i: nat, local: map<Name, Leaf>, nested: map<Name, seq<Item>>,
      removed: set<Path>, ghost depth: nat) returns (r: Result<Rewrite>)
    requires 2 <= m && WellFormed(m, es) && AllShards(es) && i < |es|
    requires local.Keys !! nested.Keys && NestedBelow(dir, nested, depth)
    ensures r.Success? <==> forall n :: n in nested && ShardIndex(es, n) == i ==> PrefixFree(nested[n])
    ensures r.Success? ==> RangeSpliced(m, dir, es, i, r.value.kept, local, nested, removed)
    ensures r.Success? && !r.value.changed ==> r.value.kept == [es[i]]
    decreases Height(es[i].child.entries), depth, 5
  {
    var body := es[i].child.entries;
    SortedIsDistinct(body);
    var own, below := Share(es, i, local), Share(es, i, nested);
    hide SplicedBut, RangeSpliced, PrefixFree, ShardIndex;
    var parts :- SpliceChildren(m, dir, body, own, below, removed, depth);
    var kept := parts.kept;
    if kept == [] {
      RewrittenRange(m, dir, es, i, kept, [], local, nested, removed);
      r := Success(Rewrite([], true));
    } else if !parts.changed {
      OwnRange(m, es, i);
      RewrittenRange(m, dir, es, i, kept, [es[i]], local, nested, removed);
      r := Success(Rewrite([es[i]], false));
    } else {
      BalancedSize(|kept|, m);
      var groups := (|kept| + m - 1) / m;
      var size := (|kept| + groups - 1) / groups;
      SplitRange(m, dir, es, i, kept, size, local, nested, removed);
      var shards := WriteShards(SortByName(kept), size);
      r := Success(Rewrite(shards.value, true));
    }
  }

  /** The loop over the shards of a directory. */
  method SpliceRanges(m: nat, dir: Path, es: seq<Entry>, local: map<Name, Leaf>, nested: map<Name, seq<Item>>,
      removed: set<Path>, ghost depth: nat) returns (r: Result<Rewrite>)
    requires 2 <= m && WellFormed(m, es) && AllShards(es)
    requires !PathIsRemoved(dir, removed)
    requires local.Keys !! nested.Keys && NestedBelow(dir, nested, depth)
    ensures r.Success? <==> forall n :: n in nested ==> PrefixFree(nested[n])
    ensures r.Success? ==> RangesSpliced(m, dir, es, |es|, r.value.kept, local, nested, removed)
    ensures r.Success? && !r.value.changed ==> r.value.kept == es
    decreases Height(es), depth, 6
  {
    var affected := set n | n in TouchedNames(dir, local, nested, removed) :: ShardIndex(es, n);
    var kept: seq<Entry>, changed := [], false;
    hide RangesSpliced, RangeSpliced, WellFormed, PrefixFree, ShardIndex;
    NoRangesYet(m, dir, es, local, nested, removed);
    SortedShards(m, es);
    for i := 0 to |es|
      invariant RangesSpliced(m, dir, es, i, kept, local, nested, removed)
      invariant forall n :: n in nested && ShardIndex(es, n) < i ==> PrefixFree(nested[n])
      invariant !changed ==> kept == es[..i]
    {
      var next := [es[i]];
      if i in affected {
        HeightOfMember(es, es[i]);
        var part :- SpliceShard(m, dir, es, i, local, nested, removed, depth);
        next, changed := part.kept, changed || part.changed;
      } else {
        UntouchedRange(m, dir, es, i, local, nested, removed);
      }
      RangeStep(m, dir, es, i, kept, next, local, nested, removed);
      kept := kept + next;
    }
    forall n | n in nested ensures ShardIndex(es, n) < |es| { ShardIndexSpec(es, n, 0); }
    return Success(Rewrite(kept, changed));
  }

  /** `_splice_sharded_directory`: rewrites the shards that a change touches. */
  method SpliceSharded(m: nat, dir: Path, tree: Node, local: map<Name, Leaf>, nested: map<Name, seq<Item>>,
      removed: set<Path>, ghost depth: nat) returns (r: Result<Option<Node>>)
    requires 2 <= m && WellFormed(m, tree.entries) && AllShards(tree.entries)
    requires !PathIsRemoved(dir, removed)
    requires local.Keys !! nested.Keys && NestedBelow(dir, nested, depth)
    ensures r.Success? <==> forall n :: n in nested ==> PrefixFree(nested[n])
    ensures r.Success? ==> NamesSpliced(m, dir, tree.entries, r.value, local, nested, removed)
    decreases Height(tree.entries), depth, 7
  {
    var es := tree.entries;
    hide RangesSpliced, PrefixFree, Spliced;
    var parts :- SpliceRanges(m, dir, es, local, nested, removed, depth);
    var kept := parts.kept;
    AllRanges(m, dir, es, kept, local, nested, removed);
    if kept == [] {
      r := Success(None);
    } else if !parts.changed {
      WellFormedIsSound(m, es);
      r := Success(Some(tree));
    } else if |kept| > m {
      r := SpliceExpanded(m, dir, es, local, nested, removed, depth);
    } else {
      ShardsWritable(kept);
      var built := BuildChildren(m, kept);
      ShardsBuilt(m, kept, built.value);
      r := Nonempty(built);
    }
  }

  lemma SortedShards(m: nat, es: seq<Entry>)
    requires WellFormed(m, es)
    ensures Sorted(es)
  {
  }

  lemma NoRangesYet(m: nat, dir: Path, es: seq<Entry>,
      local: map<Name, Leaf>, nested: map<Name, seq<Item>>, removed: set<Path>)
    ensures RangesSpliced(m, dir, es, 0, [], local, nested, removed)
  {
  }

  lemma AllRanges(m: nat, dir: Path, es: seq<Entry>, kept: seq<Entry>,
      local: map<Name, Leaf>, nested: map<Name, seq<Item>>, removed: set<Path>)
    requires Sorted(es) && es != []
    requires RangesSpliced(m, dir, es, |es|, kept, local, nested, removed)
    ensures Searchable(kept) && GoodShards(m, kept)
    ensures forall n: Name ::
      Spliced(dir, n, Child(es, n), Child(kept, n), NameAdds(dir, n, local, nested), removed)
  {
    forall n: Name { ShardIndexSpec(es, n, 0); }
  }

  /** The rebuild when even the shard pointers would overflow a node. */
  method SpliceExpanded(m: nat, dir: Path, es: seq<Entry>, local: map<Name, Leaf>, nested: map<Name, seq<Item>>,
      removed: set<Path>, ghost depth: nat) returns (r: Result<Option<Node>>)
    requires 2 <= m && WellFormed(m, es) && AllShards(es)
    requires local.Keys !! nested.Keys && NestedBelow(dir, nested, depth)
    ensures r.Success? <==> forall n :: n in nested ==> PrefixFree(nested[n])
    ensures r.Success? ==> NamesSpliced(m, dir, es, r.value, local, nested, removed)
    decreases Height(es), depth, 5
  {
    var expanded := ExpandShards(es);
    ExpandHeight(es);
    ExpandWellFormed(m, es);
    SortedIsDistinct(expanded);
    hide WellFormed;
    var parts :- SpliceChildren(m, dir, expanded, local, nested, removed, depth);
    SplicedIsKept(m, dir, expanded, parts.kept, local, nested, removed);
    hide SplicedBut, NamesSpliced, Spliced;
    if parts.kept == [] {
      r := Success(None);
    } else {
      PlainIsWritable(parts.kept);
      var built := BuildChildren(m, parts.kept);
      PlainBuilt(m, parts.kept, built.value);
      r := Nonempty(built);
    }
    PlainSpliced(m, dir, expanded, parts.kept, r.value, local, nested, removed);
    SameChildrenSpliced(m, dir, expanded, es, r.value, local, nested, removed);
  }

  lemma SameChildrenSpliced(m: nat, dir: Path, a: seq<Entry>, b: seq<Entry>, after: Option<Node>,
      local: map<Name, Leaf>, nested: map<Name, seq<Item>>, removed: set<Path>)
    requires NamesSpliced(m, dir, a, after, local, nested, removed)
    requires forall n: Name :: Child(a, n) == Child(b, n)
    ensures NamesSpliced(m, dir, b, after, local, nested, removed)
  {
    hide Spliced;
  }

  /** `splice_tree` over an existing tree: the flat map afterwards is the additions
      plus every leaf neither removed nor above or below an added path. */
  method SpliceTree(m: nat, parent: Node, adds: seq<Item>, removed: set<Path>) returns (r: Result<Node>)
    requires 2 <= m && WellFormed(m, parent.entries)
    requires forall a :: a in adds ==> a.path != []
    ensures r.Success? <==> PrefixFree(adds)
    ensures r.Success? ==> forall p: Path :: p != [] ==>
      LeafAt(r.value.entries, p) == SplicedLeaf(LeafAt(parent.entries, p), p, adds, removed)
    ensures r.Success? ==> Searchable(r.value.entries)
    ensures r.Success? && Fits(m, r.value.entries) ==> WellFormed(m, r.value.entries)
  {
    var result :- SpliceDirectory(m, [], Some(parent), adds, removed, Longest(adds));
    r := Success(if result.Some? then result.value else Node([]));
    assert r.value.entries == EntriesOf(result);
    forall p: Path | p != []
      ensures LeafAt(r.value.entries, p) == SplicedLeaf(LeafAt(parent.entries, p), p, adds, removed)
    {
      assert [] + p == p;
    }
  }
}
