/** What a three-way merge of trees means: resolved identities, conflicts, and the names
    that stop it. */
module MergeRules {
  import opened Paths
  import opened Trees
  import opened Builder
  import opened Shards

  // ---- What a merge means on the flat map -----------------------------------

  /** What a merge compares of a leaf. */
  datatype Identity = Identity(kind: LeafKind, hash: Hash, size: nat)

  function IdentityOf(leaf: Option<Leaf>): Option<Identity> {
    if leaf.Some? then Some(Identity(leaf.value.kind, leaf.value.hash, leaf.value.size)) else None
  }

  /** Both sides agree, or one of them left the base as it was. */
  predicate Resolvable<T(==)>(base: T, ours: T, theirs: T) {
    ours == theirs || ours == base || theirs == base
  }

  function Resolved<T(==)>(base: T, ours: T, theirs: T): T {
    if ours == base then theirs else ours
  }

  /** At `p`, the three leaves are resolvable and `merged` resolves them. */
  ghost predicate MergesAt(base: Option<Leaf>, ours: Option<Leaf>, theirs: Option<Leaf>, merged: Option<Leaf>) {
    var b, o, t := IdentityOf(base), IdentityOf(ours), IdentityOf(theirs);
    Resolvable(b, o, t) && IdentityOf(merged) == Resolved(b, o, t)
  }

  /** Resolving, said on the fields themselves: where a side has the presence, kind, hash and
      size of the base, the merge has the other side's; where both sides agree, theirs. */
  lemma MergedByFields(base: Option<Leaf>, ours: Option<Leaf>, theirs: Option<Leaf>, merged: Option<Leaf>)
    ensures MergesAt(base, ours, theirs, merged) <==>
            var b := if base.Some? then Some((base.value.kind, base.value.hash, base.value.size)) else None;
            var o := if ours.Some? then Some((ours.value.kind, ours.value.hash, ours.value.size)) else None;
            var t := if theirs.Some? then Some((theirs.value.kind, theirs.value.hash, theirs.value.size)) else None;
            var r := if merged.Some? then Some((merged.value.kind, merged.value.hash, merged.value.size)) else None;
            (o == b && r == t) || (t == b && r == o) || (o == t && r == o)
  {
    assert forall x: Option<Leaf>, y: Option<Leaf> ::
      IdentityOf(x) == IdentityOf(y) <==>
      (if x.Some? then Some((x.value.kind, x.value.hash, x.value.size)) else None) ==
      (if y.Some? then Some((y.value.kind, y.value.hash, y.value.size)) else None);
  }

  ghost predicate ChildMerges(base: Option<Entry>, ours: Option<Entry>, theirs: Option<Entry>, merged: Option<Entry>) {
    forall p: Path :: p != [] ==>
      MergesAt(LeafIn(base, p), LeafIn(ours, p), LeafIn(theirs, p), LeafIn(merged, p))
  }

  ghost predicate TreeMerges(base: seq<Entry>, ours: seq<Entry>, theirs: seq<Entry>, merged: seq<Entry>) {
    forall n: Name :: ChildMerges(Child(base, n), Child(ours, n), Child(theirs, n), Child(merged, n))
  }

  lemma TreeMergesAt(base: seq<Entry>, ours: seq<Entry>, theirs: seq<Entry>, merged: seq<Entry>, p: Path)
    requires TreeMerges(base, ours, theirs, merged) && p != []
    ensures MergesAt(LeafAt(base, p), LeafAt(ours, p), LeafAt(theirs, p), LeafAt(merged, p))
  {
    assert ChildMerges(Child(base, p[0]), Child(ours, p[0]), Child(theirs, p[0]), Child(merged, p[0]));
  }

  // ---- Which paths conflict, and which break the merge -----------------------

  datatype Verdict = Fine | Conflict | Broken

  /** `equal`: same kind, hash and size. */
  predicate Same(a: Option<Entry>, b: Option<Entry>) {
    && a.Some? && b.Some?
    && ((a.value.File? && b.value.File? && IdentityOf(Some(a.value.leaf)) == IdentityOf(Some(b.value.leaf)))
        || (a.value.Dir? && b.value.Dir? && a.value.child == b.value.child))
  }

  function Names(es: seq<Entry>): seq<Name> {
    seq(|es|, i requires 0 <= i < |es| => es[i].name)
  }

  predicate OnlyShards(es: seq<Entry>) {
    forall e :: e in es ==> e.Shard?
  }

  /** All three sides are sharded into the same ranges. */
  predicate Aligned(base: Option<Node>, ours: Node, theirs: Node) {
    && base.Some?
    && OnlyShards(base.value.entries) && OnlyShards(ours.entries) && OnlyShards(theirs.entries)
    && Names(ours.entries) == Names(theirs.entries) && Names(base.value.entries) == Names(theirs.entries)
  }

  function SubtreeOf(e: Option<Entry>): Option<Node> {
    if e.Some? && e.value.Dir? then Some(e.value.child) else None
  }

  /** What merging three children yields at `p`, below the name `p[0]`. */
  function ChildVerdict(base: Option<Entry>, ours: Option<Entry>, theirs: Option<Entry>, p: Path): Verdict
    requires p != []
    decreases |p|, 0
  {
    if Same(ours, theirs) then Fine
    else if ours.None? || theirs.None? then
      var present := if ours.Some? then ours else theirs;
      if |p| > 1 then Fine
      else if present.None? then (if base.Some? then Broken else Fine)
      else if base.None? || Same(present, base) then Fine
      else Conflict
    else if Same(ours, base) || Same(theirs, base) then Fine
    else if ours.value.Dir? && theirs.value.Dir? then
      TreeVerdict(SubtreeOf(base), Some(ours.value.child), Some(theirs.value.child), p[1..])
    else if |p| == 1 then Conflict
    else Fine
  }

  /** The range of `n` is taken as a whole from one side. */
  predicate RangeDecided(base: Option<Node>, ours: Node, theirs: Node, n: Name) {
    && Aligned(base, ours, theirs)
    && var i := ShardIndex(ours.entries, n);
       i < |ours.entries| && |base.value.entries| == |ours.entries| == |theirs.entries| &&
       Resolvable(base.value.entries[i], ours.entries[i], theirs.entries[i])
  }

  /** What merging three directories yields at `p`. */
  function TreeVerdict(base: Option<Node>, ours: Option<Node>, theirs: Option<Node>, p: Path): Verdict
    decreases |p|, 1
  {
    if Resolvable(base, ours, theirs) then Fine
    else if ours.None? || theirs.None? then (if p == [] then Conflict else Fine)
    else if p == [] || RangeDecided(base, ours.value, theirs.value, p[0]) then Fine
    else
      ChildVerdict(Child(EntriesOf(base), p[0]), Child(ours.value.entries, p[0]), Child(theirs.value.entries, p[0]), p)
  }

  lemma {:induction false} SameNamesSameIndex(a: seq<Entry>, b: seq<Entry>, n: Name)
    requires Names(a) == Names(b)
    ensures |a| == |b|
    ensures ShardIndex(a, n) == ShardIndex(b, n)
  {
    assert |Names(a)| == |a| && |Names(b)| == |b|;
    SameNamesSameCount(a, b, n);
  }

  lemma {:induction false} SameNamesSameCount(a: seq<Entry>, b: seq<Entry>, n: Name)
    requires |a| == |b| && forall i :: 0 <= i < |a| ==> Names(a)[i] == Names(b)[i]
    ensures BisectRight(a, n) == BisectRight(b, n)
  {
    if a != [] {
      assert Names(a)[0] == a[0].name && Names(b)[0] == b[0].name;
      forall i | 0 <= i < |a| - 1 ensures Names(a[1..])[i] == Names(b[1..])[i] {
        assert Names(a)[i + 1] == Names(b)[i + 1];
      }
      SameNamesSameCount(a[1..], b[1..], n);
    }
  }

  lemma RangeSymmetric(base: Option<Node>, ours: Node, theirs: Node, n: Name)
    ensures RangeDecided(base, ours, theirs, n) == RangeDecided(base, theirs, ours, n)
  {
    if Names(ours.entries) == Names(theirs.entries) {
      SameNamesSameIndex(ours.entries, theirs.entries, n);
    }
  }

  ghost predicate Published(m: nat, tree: Option<Node>) {
    tree.Some? ==> WellFormed(m, tree.value.entries)
  }

  ghost predicate TreeBreaks(base: Option<Node>, ours: Option<Node>, theirs: Option<Node>) {
    exists q: Path :: TreeVerdict(base, ours, theirs, q) == Broken
  }

  // ---- Verdicts without the walk --------------------------------------------

  /** The directory of a tree at a path. */
  function DirOf(tree: Option<Node>, d: Path): Option<Node> {
    if tree.Some? then DirAt(tree.value.entries, d) else None
  }

  predicate Alike(a: Option<Entry>, b: Option<Entry>) {
    Same(a, b) || (a.None? && b.None?)
  }

  predicate BothDirs(a: Option<Entry>, b: Option<Entry>) {
    a.Some? && a.value.Dir? && b.Some? && b.value.Dir?
  }

  /** Three versions of one name that cannot be merged: each two differ, and the sides
      are not both directories. */
  predicate Clash(base: Option<Entry>, ours: Option<Entry>, theirs: Option<Entry>) {
    !Alike(ours, theirs) && !Alike(ours, base) && !Alike(theirs, base) && !BothDirs(ours, theirs)
  }

  /** A clash, said on the fields themselves: files differ in kind, hash or size,
      directories in their node. */
  lemma ClashByFields(base: Option<Entry>, ours: Option<Entry>, theirs: Option<Entry>)
    requires (base.Some? ==> !base.value.Shard?) && (ours.Some? ==> !ours.value.Shard?) && (theirs.Some? ==> !theirs.value.Shard?)
    ensures var bf := if base.Some? && base.value.File? then Some((base.value.leaf.kind, base.value.leaf.hash, base.value.leaf.size)) else None;
      var f := if ours.Some? && ours.value.File? then Some((ours.value.leaf.kind, ours.value.leaf.hash, ours.value.leaf.size)) else None;
      var tf := if theirs.Some? && theirs.value.File? then Some((theirs.value.leaf.kind, theirs.value.leaf.hash, theirs.value.leaf.size)) else None;
      var bd := if base.Some? && base.value.Dir? then Some(base.value.child) else None;
      var d := if ours.Some? && ours.value.Dir? then Some(ours.value.child) else None;
      var td := if theirs.Some? && theirs.value.Dir? then Some(theirs.value.child) else None;
      Clash(base, ours, theirs) <==>
      (f, d) != (tf, td) && (f, d) != (bf, bd) && (tf, td) != (bf, bd) && !(d.Some? && td.Some?)
  {
  }

  function ParentPath(p: Path): Path
    requires p != []
  {
    p[..|p| - 1]
  }

  /** Both sides have the directory of `p`, and the versions of its last name clash. */
  predicate ConflictAt(base: Option<Node>, ours: Option<Node>, theirs: Option<Node>, p: Path) {
    p != [] &&
    var d, n := ParentPath(p), p[|p| - 1];
    var o, t := DirOf(ours, d), DirOf(theirs, d);
    o.Some? && t.Some? &&
    Clash(Child(EntriesOf(DirOf(base, d)), n), Child(o.value.entries, n), Child(t.value.entries, n))
  }

  /** In a directory that base and both sides have, both sides lost the name `n` of the
      base and differ otherwise, and neither in the very same shard. */
  predicate LostTwice(base: Option<Node>, ours: Option<Node>, theirs: Option<Node>, d: Path, n: Name) {
    var b, o, t := DirOf(base, d), DirOf(ours, d), DirOf(theirs, d);
    b.Some? && o.Some? && t.Some? && o != t &&
    Child(b.value.entries, n).Some? && Child(o.value.entries, n).None? && Child(t.value.entries, n).None? &&
    !RangeDecided(b, o.value, t.value, n)
  }

  /** The verdict read off the directories of `p`. */
  function Direct(base: Option<Node>, ours: Option<Node>, theirs: Option<Node>, p: Path): Verdict {
    if p != [] && LostTwice(base, ours, theirs, ParentPath(p), p[|p| - 1]) then Broken
    else if ConflictAt(base, ours, theirs, p) then Conflict
    else Fine
  }

  lemma DirOfChild(tree: Option<Node>, n: Name, d: Path)
    ensures DirOf(tree, [n] + d) == DirOf(SubtreeOf(Child(EntriesOf(tree), n)), d)
  {
    assert ([n] + d)[1..] == d;
  }

  /** Below a name, the verdict is that of the subdirectories. */
  lemma DirectBelow(base: Option<Node>, ours: Option<Node>, theirs: Option<Node>, n: Name, q: Path)
    requires q != []
    ensures Direct(base, ours, theirs, [n] + q) ==
            Direct(SubtreeOf(Child(EntriesOf(base), n)), SubtreeOf(Child(EntriesOf(ours), n)),
              SubtreeOf(Child(EntriesOf(theirs), n)), q)
  {
    var p := [n] + q;
    assert ParentPath(p) == [n] + ParentPath(q) && p[|p| - 1] == q[|q| - 1];
    DirOfChild(base, n, ParentPath(q));
    DirOfChild(ours, n, ParentPath(q));
    DirOfChild(theirs, n, ParentPath(q));
    hide DirOf, Clash, RangeDecided, Child, SubtreeOf;
  }

  lemma DirectHere(base: Option<Node>, ours: Node, theirs: Node, n: Name)
    ensures Direct(base, Some(ours), Some(theirs), [n]) ==
            var b, o, t := Child(EntriesOf(base), n), Child(ours.entries, n), Child(theirs.entries, n);
            if b.Some? && o.None? && t.None? && ours != theirs && !RangeDecided(base, ours, theirs, n) then Broken
            else if Clash(b, o, t) then Conflict
            else Fine
  {
    assert ParentPath([n]) == [];
    assert DirOf(Some(ours), []) == Some(ours) && DirOf(Some(theirs), []) == Some(theirs);
    assert base.Some? ==> DirOf(base, []) == base;
    hide Clash, RangeDecided, Child;
  }

  /** Where two of the three agree on all below, nothing is wrong. */
  lemma DirectResolvable(base: Option<Node>, ours: Option<Node>, theirs: Option<Node>, p: Path)
    requires Resolvable(base, ours, theirs)
    ensures Direct(base, ours, theirs, p) == Fine
  {
    hide RangeDecided, Child;
  }

  lemma DirectMissing(base: Option<Node>, ours: Option<Node>, theirs: Option<Node>, p: Path)
    requires ours.None? || theirs.None?
    ensures Direct(base, ours, theirs, p) == Fine
  {
  }

  /** A shard taken as a whole decides each of its names. */
  lemma DecidedChildren(m: nat, base: Option<Node>, ours: Node, theirs: Node, n: Name)
    requires Published(m, base) && WellFormed(m, ours.entries) && WellFormed(m, theirs.entries)
    requires RangeDecided(base, ours, theirs, n)
    ensures Resolvable(Child(EntriesOf(base), n), Child(ours.entries, n), Child(theirs.entries, n))
  {
    var b, o, t := base.value.entries, ours.entries, theirs.entries;
    var i := ShardIndex(o, n);
    SameNamesSameIndex(b, o, n);
    SameNamesSameIndex(o, t, n);
    assert b[i] in b && o[i] in o && t[i] in t;
    InItsShard(m, b, n);
    InItsShard(m, o, n);
    InItsShard(m, t, n);
  }

  lemma InItsShard(m: nat, es: seq<Entry>, n: Name)
    requires WellFormed(m, es) && OnlyShards(es) && es != []
    ensures ShardIndex(es, n) < |es| && es[ShardIndex(es, n)].Shard?
    ensures Child(es, n) == Child(es[ShardIndex(es, n)].child.entries, n)
  {
    WellFormedIsSearchable(m, es);
    ChildInShard(es, n);
    assert es[ShardIndex(es, n)] in es;
  }

  /** What `TreeVerdict` finds on its way down is what the directories of `p` say. */
  lemma {:induction false} VerdictIsDirect(m: nat, base: Option<Node>, ours: Node, theirs: Node, p: Path)
    requires Published(m, base) && WellFormed(m, ours.entries) && WellFormed(m, theirs.entries)
    ensures TreeVerdict(base, Some(ours), Some(theirs), p) == Direct(base, Some(ours), Some(theirs), p)
    decreases |p|
  {
    if Resolvable(base, Some(ours), Some(theirs)) {
      DirectResolvable(base, Some(ours), Some(theirs), p);
    } else if p != [] {
      var n, q := p[0], p[1..];
      var b, o, t := Child(EntriesOf(base), n), Child(ours.entries, n), Child(theirs.entries, n);
      if RangeDecided(base, ours, theirs, n) {
        DecidedChildren(m, base, ours, theirs, n);
      }
      if q == [] {
        assert p == [n];
        DirectHere(base, ours, theirs, n);
        VerdictHere(base, ours, theirs, n);
      } else {
        assert p == [n] + q;
        DirectBelow(base, Some(ours), Some(theirs), n, q);
        if BothDirs(o, t) && !Resolvable(b, o, t) {
          PublishedBelow(m, base, n);
          PublishedBelow(m, Some(ours), n);
          PublishedBelow(m, Some(theirs), n);
          VerdictIsDirect(m, SubtreeOf(b), o.value.child, t.value.child, q);
        }
        VerdictBelow(base, ours, theirs, p);
      }
    }
  }

  lemma PublishedBelow(m: nat, tree: Option<Node>, n: Name)
    requires Published(m, tree)
    ensures Published(m, SubtreeOf(Child(EntriesOf(tree), n)))
  {
    if tree.Some? {
      ExpandListed(m, tree.value.entries);
      assert PublishedChild(m, n, Child(tree.value.entries, n));
    }
  }

  lemma VerdictHere(base: Option<Node>, ours: Node, theirs: Node, n: Name)
    requires !Resolvable(base, Some(ours), Some(theirs))
    requires var b, o, t := Child(EntriesOf(base), n), Child(ours.entries, n), Child(theirs.entries, n);
      RangeDecided(base, ours, theirs, n) ==> Resolvable(b, o, t)
    ensures TreeVerdict(base, Some(ours), Some(theirs), [n]) ==
            var b, o, t := Child(EntriesOf(base), n), Child(ours.entries, n), Child(theirs.entries, n);
            if b.Some? && o.None? && t.None? && ours != theirs && !RangeDecided(base, ours, theirs, n) then Broken
            else if Clash(b, o, t) then Conflict
            else Fine
  {
    var b, o, t := Child(EntriesOf(base), n), Child(ours.entries, n), Child(theirs.entries, n);
    hide RangeDecided, Child;
    assert Resolvable(b, o, t) ==> !Clash(b, o, t);
  }

  lemma ChildVerdictBelow(b: Option<Entry>, o: Option<Entry>, t: Option<Entry>, p: Path)
    requires |p| > 1
    requires (o.Some? ==> !o.value.Shard?) && (t.Some? ==> !t.value.Shard?)
    requires BothDirs(o, t) && !Resolvable(b, o, t) ==>
      TreeVerdict(SubtreeOf(b), Some(o.value.child), Some(t.value.child), p[1..]) ==
      Direct(SubtreeOf(b), SubtreeOf(o), SubtreeOf(t), p[1..])
    ensures ChildVerdict(b, o, t, p) == Direct(SubtreeOf(b), SubtreeOf(o), SubtreeOf(t), p[1..])
  {
    hide TreeVerdict, Direct;
    if !BothDirs(o, t) {
      DirectMissing(SubtreeOf(b), SubtreeOf(o), SubtreeOf(t), p[1..]);
    } else if Resolvable(SubtreeOf(b), SubtreeOf(o), SubtreeOf(t)) {
      DirectResolvable(SubtreeOf(b), SubtreeOf(o), SubtreeOf(t), p[1..]);
    }
  }

  lemma VerdictBelow(base: Option<Node>, ours: Node, theirs: Node, p: Path)
    requires !Resolvable(base, Some(ours), Some(theirs)) && |p| > 1
    requires var b, o, t := Child(EntriesOf(base), p[0]), Child(ours.entries, p[0]), Child(theirs.entries, p[0]);
      && (RangeDecided(base, ours, theirs, p[0]) ==> Resolvable(b, o, t))
      && (BothDirs(o, t) && !Resolvable(b, o, t) ==>
            TreeVerdict(SubtreeOf(b), Some(o.value.child), Some(t.value.child), p[1..]) ==
            Direct(SubtreeOf(b), SubtreeOf(o), SubtreeOf(t), p[1..]))
    ensures TreeVerdict(base, Some(ours), Some(theirs), p) ==
            var b, o, t := Child(EntriesOf(base), p[0]), Child(ours.entries, p[0]), Child(theirs.entries, p[0]);
            Direct(SubtreeOf(b), SubtreeOf(o), SubtreeOf(t), p[1..])
  {
    var b, o, t := Child(EntriesOf(base), p[0]), Child(ours.entries, p[0]), Child(theirs.entries, p[0]);
    ChildVerdictBelow(b, o, t, p);
    if Resolvable(b, o, t) {
      DirectResolvable(SubtreeOf(b), SubtreeOf(o), SubtreeOf(t), p[1..]);
    }
    hide RangeDecided, Child, Direct, ChildVerdict;
  }

  /** A merge breaks exactly on a name lost twice. */
  lemma BreaksExactly(m: nat, base: Option<Node>, ours: Node, theirs: Node)
    requires Published(m, base) && WellFormed(m, ours.entries) && WellFormed(m, theirs.entries)
    ensures TreeBreaks(base, Some(ours), Some(theirs)) <==>
            exists d: Path, n: Name :: LostTwice(base, Some(ours), Some(theirs), d, n)
  {
    hide TreeVerdict, LostTwice, ConflictAt;
    if TreeBreaks(base, Some(ours), Some(theirs)) {
      var q: Path :| TreeVerdict(base, Some(ours), Some(theirs), q) == Broken;
      VerdictIsDirect(m, base, ours, theirs, q);
    }
    if d: Path, n: Name :| LostTwice(base, Some(ours), Some(theirs), d, n) {
      VerdictIsDirect(m, base, ours, theirs, d + [n]);
      assert ParentPath(d + [n]) == d;
    }
  }

  /** The conflicts of a merge that does not break are just the clashing names. */
  lemma ConflictsExactly(m: nat, base: Option<Node>, ours: Node, theirs: Node, p: Path)
    requires Published(m, base) && WellFormed(m, ours.entries) && WellFormed(m, theirs.entries)
    ensures TreeVerdict(base, Some(ours), Some(theirs), p) == Conflict <==> ConflictAt(base, Some(ours), Some(theirs), p)
  {
    VerdictIsDirect(m, base, ours, theirs, p);
    hide Child, RangeDecided, TreeVerdict;
  }

  /** The sides of a merge may be swapped: the same names clash, and the same are lost. */
  lemma MergeSymmetric(base: Option<Node>, ours: Option<Node>, theirs: Option<Node>)
    ensures forall p: Path :: ConflictAt(base, ours, theirs, p) <==> ConflictAt(base, theirs, ours, p)
    ensures forall d: Path, n: Name :: LostTwice(base, ours, theirs, d, n) <==> LostTwice(base, theirs, ours, d, n)
  {
    forall d: Path, n: Name ensures LostTwice(base, ours, theirs, d, n) <==> LostTwice(base, theirs, ours, d, n) {
      var b, o, t := DirOf(base, d), DirOf(ours, d), DirOf(theirs, d);
      if o.Some? && t.Some? {
        RangeSymmetric(b, o.value, t.value, n);
      }
    }
    hide DirOf, RangeDecided, Child;
  }

  // ---- Ranges that outgrow a node -------------------------------------------

  /** Some leaf at or below the name is left when both sides are resolved. */
  ghost predicate Survives(base: Option<Entry>, ours: Option<Entry>, theirs: Option<Entry>) {
    exists p: Path :: p != [] &&
      Resolved(IdentityOf(LeafIn(base, p)), IdentityOf(LeafIn(ours, p)), IdentityOf(LeafIn(theirs, p))).Some?
  }

  /** The names that are left in the i-th shard range of three directories. */
  ghost function RangeSurvivors(base: Node, ours: Node, theirs: Node, i: nat): set<Name> {
    set n | n in ChildNames(ours.entries) + ChildNames(theirs.entries) && ShardIndex(ours.entries, n) == i &&
            Survives(Child(base.entries, n), Child(ours.entries, n), Child(theirs.entries, n))
  }

  /** At `d`, three directories have the same shard ranges, the i-th differs in all of them,
      and more than `m` names are left in it: too many for one shard. */
  ghost predicate Overflows(m: nat, base: Option<Node>, ours: Option<Node>, theirs: Option<Node>, d: Path, i: nat) {
    var b, o, t := DirOf(base, d), DirOf(ours, d), DirOf(theirs, d);
    && b.Some? && o.Some? && t.Some? && Aligned(b, o.value, t.value)
    && i < |b.value.entries| && i < |o.value.entries| && i < |t.value.entries|
    && !Resolvable(b.value.entries[i], o.value.entries[i], t.value.entries[i])
    && m < |RangeSurvivors(b.value, o.value, t.value, i)|
  }

  ghost predicate NoOverflow(m: nat, base: Option<Node>, ours: Option<Node>, theirs: Option<Node>) {
    forall d: Path, i: nat :: !Overflows(m, base, ours, theirs, d, i)
  }

  lemma OverflowBelow(m: nat, base: Option<Node>, ours: Option<Node>, theirs: Option<Node>, n: Name, d: Path, i: nat)
    ensures Overflows(m, base, ours, theirs, [n] + d, i) <==>
            Overflows(m, SubtreeOf(Child(EntriesOf(base), n)), SubtreeOf(Child(EntriesOf(ours), n)),
              SubtreeOf(Child(EntriesOf(theirs), n)), d, i)
  {
    DirOfChild(base, n, d);
    DirOfChild(ours, n, d);
    DirOfChild(theirs, n, d);
    hide DirOf, Aligned, RangeSurvivors, Child, SubtreeOf;
  }

  lemma NoOverflowBelow(m: nat, base: Option<Node>, ours: Option<Node>, theirs: Option<Node>, n: Name)
    requires NoOverflow(m, base, ours, theirs)
    ensures NoOverflow(m, SubtreeOf(Child(EntriesOf(base), n)), SubtreeOf(Child(EntriesOf(ours), n)),
              SubtreeOf(Child(EntriesOf(theirs), n)))
  {
    hide Overflows, Child, SubtreeOf;
    forall d: Path, i: nat
      ensures !Overflows(m, SubtreeOf(Child(EntriesOf(base), n)), SubtreeOf(Child(EntriesOf(ours), n)),
                SubtreeOf(Child(EntriesOf(theirs), n)), d, i)
    {
      OverflowBelow(m, base, ours, theirs, n, d, i);
    }
  }

  /** Only where all three differ can anything overflow. */
  lemma DecidedNoOverflow(m: nat, base: Option<Node>, ours: Option<Node>, theirs: Option<Node>)
    requires Resolvable(base, ours, theirs) || ours.None? || theirs.None?
    ensures NoOverflow(m, base, ours, theirs)
  {
    hide RangeSurvivors;
  }

  /** Nor can it without shards. */
  lemma PlainNoOverflow(m: nat, base: Option<Node>, ours: Node, theirs: Node)
    requires forall d: Path :: DirAt(ours.entries, d).Some? ==> Plain(DirAt(ours.entries, d).value.entries)
    ensures NoOverflow(m, base, Some(ours), Some(theirs))
  {
    forall d: Path, i: nat ensures !Overflows(m, base, Some(ours), Some(theirs), d, i) {
      var dir := DirAt(ours.entries, d);
      assert dir.Some? && i < |dir.value.entries| ==> dir.value.entries[i] in dir.value.entries;
    }
  }

  /** A name survives exactly when it is in a clean merge. */
  lemma SurvivesExactly(base: Option<Entry>, ours: Option<Entry>, theirs: Option<Entry>, merged: Option<Entry>)
    requires ChildMerges(base, ours, theirs, merged)
    requires merged.Some? ==> !merged.value.Shard?
    requires merged.Some? && merged.value.Dir? ==> merged.value.child.entries != [] && Searchable(merged.value.child.entries)
    ensures merged.Some? <==> Survives(base, ours, theirs)
  {
    if merged.Some? {
      var p := LeafOf(merged.value);
      assert MergesAt(LeafIn(base, p), LeafIn(ours, p), LeafIn(theirs, p), LeafIn(merged, p));
    }
  }

  lemma LeafOf(e: Entry) returns (p: Path)
    requires !e.Shard? && (e.Dir? ==> e.child.entries != [] && Searchable(e.child.entries))
    ensures p != [] && LeafIn(Some(e), p).Some?
  {
    if e.File? {
      p := [e.name];
    } else {
      var n := SomeChild(e.child.entries);
      var q := SomeLeafBelow(e.child.entries, n);
      p := [e.name] + q;
      assert p[1..] == q;
    }
  }
}
