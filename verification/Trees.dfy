/** Merkle tree nodes and the flat map from paths to leaves that they stand for. */
module Trees {
  import opened Paths
  import opened Sets

  /** A digest, told apart by what was digested. */
  datatype Hash = OfBytes(bytes: string) | OfPathAndSize(path: Path, size: nat)

  datatype LeafKind = Blob | Meta | BlobParquet | MetaParquet

  datatype Leaf = Leaf(
    kind: LeafKind, hash: Hash, size: nat, mtime: nat,
    sourceUri: Option<string>, footer: Option<Hash>, sourceEtag: Option<string>)

  /** Backed by a stored blob, not by a pointer to a source. */
  predicate ContentKind(kind: LeafKind) {
    kind == Blob || kind == BlobParquet
  }

  /** A leaf with its full path. */
  datatype Item = Item(path: Path, leaf: Leaf)

  datatype Entry =
    | File(name: Name, leaf: Leaf)
    | Dir(name: Name, child: Node)
    | Shard(name: Name, child: Node)

  datatype Node = Node(entries: seq<Entry>)

  /** The entries of a tree; a missing tree has none. */
  function EntriesOf(tree: Option<Node>): seq<Entry> {
    if tree.Some? then tree.value.entries else []
  }

  /** The child of a directory with a given name, shards read as their contents. */
  function Child(es: seq<Entry>, n: Name): (r: Option<Entry>)
    ensures r.Some? ==> r.value.name == n && !r.value.Shard?
  {
    if es == [] then None
    else if es[0].Shard? then
      var inner := Child(es[0].child.entries, n);
      if inner.Some? then inner else Child(es[1..], n)
    else if es[0].name == n then Some(es[0])
    else Child(es[1..], n)
  }

  /** The leaf at `p`, read from the child its first component names. */
  function LeafIn(c: Option<Entry>, p: Path): Option<Leaf>
    requires p != []
    decreases |p|, 0
  {
    match c
    case None => None
    case Some(File(_, leaf)) => if |p| == 1 then Some(leaf) else None
    case Some(Dir(_, child)) => LeafAt(child.entries, p[1..])
    case Some(Shard(_, child)) => None
  }

  /** The flat map of a tree: the leaf stored at a path, if any. */
  function LeafAt(es: seq<Entry>, p: Path): Option<Leaf>
    decreases |p|, 1
  {
    if p == [] then None else LeafIn(Child(es, p[0]), p)
  }

  lemma NoLeaves()
    ensures forall p: Path :: LeafAt([], p) == None
  {
  }

  // ---- Shape of a node ------------------------------------------------------

  predicate Plain(es: seq<Entry>) {
    forall e :: e in es ==> !e.Shard?
  }

  predicate Distinct(es: seq<Entry>) {
    forall i, j :: 0 <= i < j < |es| ==> es[i].name != es[j].name
  }

  predicate Sorted(es: seq<Entry>) {
    forall i, j :: 0 <= i < j < |es| ==> Lt(es[i].name, es[j].name)
  }

  /** Every name of `es` lies at or after `lo` and before `hi`. */
  ghost predicate InRange(es: seq<Entry>, lo: Name, hi: Option<Name>) {
    forall n: Name :: Child(es, n).Some? ==> !Lt(n, lo) && (hi.Some? ==> Lt(n, hi.value))
  }

  /** The start of the range after the i-th shard. */
  function NextName(es: seq<Entry>, i: nat): Option<Name>
    requires i < |es|
  {
    if i + 1 < |es| then Some(es[i + 1].name) else None
  }

  /** What lookups need: names ascend, a shard holds names of its own range, and
      nothing below is empty. */
  ghost predicate Searchable(es: seq<Entry>) {
    && Sorted(es)
    && (forall i :: 0 <= i < |es| && !es[i].File? ==>
          es[i].child.entries != [] && Searchable(es[i].child.entries))
    && (forall i :: 0 <= i < |es| && es[i].Shard? ==>
          InRange(es[i].child.entries, es[i].name, NextName(es, i)))
  }

  predicate AllShards(es: seq<Entry>) {
    es != [] && forall e :: e in es ==> e.Shard?
  }

  /** The invariant of every directory node the repository publishes: at most `m`
      entries in ascending order, either all direct children or all name-range
      shards; a shard is a plain node with names of its own range, and no
      subdirectory and no shard is empty. */
  ghost predicate WellFormed(m: nat, es: seq<Entry>) {
    && Sorted(es) && |es| <= m
    && (Plain(es) || AllShards(es))
    && (forall i :: 0 <= i < |es| && !es[i].File? ==>
          es[i].child.entries != [] && WellFormed(m, es[i].child.entries))
    && (forall i :: 0 <= i < |es| && es[i].Shard? ==>
          && Plain(es[i].child.entries)
          && InRange(es[i].child.entries, es[i].name, NextName(es, i)))
  }

  lemma {:induction false} WellFormedIsSearchable(m: nat, es: seq<Entry>)
    requires WellFormed(m, es)
    ensures Searchable(es)
  {
    forall i | 0 <= i < |es| && !es[i].File? ensures es[i].child.entries != [] && Searchable(es[i].child.entries) {
      WellFormedIsSearchable(m, es[i].child.entries);
    }
  }

  lemma WellFormedCases(m: nat, es: seq<Entry>)
    requires es != [] ==> WellFormed(m, es)
    ensures WellFormed(m, es)
    ensures (exists e :: e in es && e.Shard?) <==> AllShards(es)
    ensures Plain(es) <==> !AllShards(es)
  {
    if AllShards(es) {
      assert es[0] in es;
    }
  }

  lemma {:induction false} SortedIsDistinct(es: seq<Entry>)
    requires Sorted(es)
    ensures Distinct(es)
  {
    PlaceInjective();
  }

  // ---- Children of concatenated and of plain nodes --------------------------

  lemma {:induction false} ChildConcat(a: seq<Entry>, b: seq<Entry>, n: Name)
    ensures Child(a + b, n) == if Child(a, n).Some? then Child(a, n) else Child(b, n)
  {
    if a == [] {
      assert a + b == b;
    } else {
      assert (a + b)[0] == a[0] && (a + b)[1..] == a[1..] + b;
      ChildConcat(a[1..], b, n);
    }
  }

  lemma ChildSnoc(es: seq<Entry>, e: Entry, n: Name)
    requires !e.Shard?
    ensures Child(es + [e], n) ==
            if Child(es, n).Some? then Child(es, n) else if n == e.name then Some(e) else None
  {
    ChildConcat(es, [e], n);
    assert [e][1..] == [];
  }

  /** Without shards and duplicate names, a child is an entry of that name. */
  lemma {:induction false} ChildOfPlain(es: seq<Entry>, n: Name, e: Entry)
    requires Plain(es) && Distinct(es)
    ensures Child(es, n) == Some(e) <==> e in es && e.name == n
  {
    if es != [] {
      assert forall x :: x in es <==> x == es[0] || x in es[1..];
      if es[0].name != n {
        ChildOfPlain(es[1..], n, e);
      } else if e in es && e.name == n {
        var j :| 0 <= j < |es| && es[j] == e;
        assert j == 0;
      }
    }
  }

  lemma {:induction false} ChildNone(es: seq<Entry>, n: Name)
    requires Plain(es)
    ensures Child(es, n).None? <==> forall e :: e in es ==> e.name != n
    ensures Child(es, n).Some? ==> Child(es, n).value in es
  {
    if es != [] {
      assert forall x :: x in es <==> x == es[0] || x in es[1..];
      ChildNone(es[1..], n);
    }
  }

  /** Entry `e` supplies the child named `n`, directly or out of its shard. */
  predicate Holds(e: Entry, n: Name) {
    if e.Shard? then Child(e.child.entries, n).Some? else e.name == n
  }

  lemma {:induction false} ChildHolder(es: seq<Entry>, n: Name) returns (k: nat)
    requires Child(es, n).Some?
    ensures k < |es| && Holds(es[k], n)
  {
    if Holds(es[0], n) {
      k := 0;
    } else {
      k := ChildHolder(es[1..], n);
      k := k + 1;
    }
  }

  /** How deep shards and subdirectories nest. */
  function Height(es: seq<Entry>): nat {
    if es == [] then 0
    else
      var rest := Height(es[1..]);
      var here := if es[0].File? then 0 else 1 + Height(es[0].child.entries);
      if rest < here then here else rest
  }

  lemma {:induction false} HeightOfMember(es: seq<Entry>, e: Entry)
    requires e in es && !e.File?
    ensures Height(e.child.entries) < Height(es)
  {
    if e != es[0] {
      HeightOfMember(es[1..], e);
    }
  }

  lemma {:induction false} HeightOfEntry(es: seq<Entry>, i: nat)
    requires i < |es|
    ensures Height([es[i]]) <= Height(es)
  {
    if i > 0 {
      HeightOfEntry(es[1..], i - 1);
    }
  }

  // ---- Size of directories --------------------------------------------------

  /** The number of children of a directory. */
  function Count(es: seq<Entry>): nat {
    if es == [] then 0
    else (if es[0].Shard? then Count(es[0].child.entries) else 1) + Count(es[1..])
  }

  lemma {:induction false} CountConcat(a: seq<Entry>, b: seq<Entry>)
    ensures Count(a + b) == Count(a) + Count(b)
  {
    if a == [] {
      assert a + b == b;
    } else {
      assert (a + b)[0] == a[0] && (a + b)[1..] == a[1..] + b;
      CountConcat(a[1..], b);
    }
  }

  lemma {:induction false} CountPlain(es: seq<Entry>)
    requires Plain(es)
    ensures Count(es) == |es|
  {
    if es != [] {
      CountPlain(es[1..]);
    }
  }

  /** The directory at a path; the empty path is the directory itself. */
  function DirAt(es: seq<Entry>, p: Path): Option<Node>
    decreases |p|
  {
    if p == [] then Some(Node(es))
    else match Child(es, p[0])
      case Some(Dir(_, child)) => DirAt(child.entries, p[1..])
      case _ => None
  }

  /** No directory has more than `m * m` children. */
  ghost predicate Fits(m: nat, es: seq<Entry>) {
    forall p: Path :: DirAt(es, p).Some? ==> Count(DirAt(es, p).value.entries) <= m * m
  }

  lemma FitsHere(m: nat, es: seq<Entry>)
    requires Fits(m, es)
    ensures Count(es) <= m * m
  {
    assert DirAt(es, []) == Some(Node(es));
  }

  lemma FitsBelow(m: nat, es: seq<Entry>, n: Name)
    requires Fits(m, es) && Child(es, n).Some? && Child(es, n).value.Dir?
    ensures Fits(m, Child(es, n).value.child.entries)
  {
    var sub := Child(es, n).value.child.entries;
    forall p: Path | DirAt(sub, p).Some? ensures Count(DirAt(sub, p).value.entries) <= m * m {
      assert ([n] + p)[1..] == p;
      assert DirAt(es, [n] + p) == DirAt(sub, p);
    }
  }

  /** What every rewritten directory is: not empty, fit for lookups, and well formed
      as long as no directory outgrows `m * m` children. */
  ghost predicate Sound(m: nat, node: Node) {
    && node.entries != []
    && Searchable(node.entries)
    && (Fits(m, node.entries) ==> WellFormed(m, node.entries))
  }

  ghost predicate SoundDirs(m: nat, es: seq<Entry>) {
    forall e :: e in es && e.Dir? ==> Sound(m, e.child)
  }

  lemma WellFormedIsSound(m: nat, es: seq<Entry>)
    requires WellFormed(m, es)
    ensures SoundDirs(m, es)
    ensures es != [] ==> Sound(m, Node(es))
  {
    WellFormedIsSearchable(m, es);
    forall e | e in es && e.Dir? ensures Sound(m, e.child) {
      WellFormedIsSearchable(m, e.child.entries);
    }
  }

  // ---- Searchable nodes -----------------------------------------------------

  /** Neighbouring entries of a searchable node are searchable, and fill the
      range up to the next entry. */
  lemma SliceSearchable(es: seq<Entry>, s: nat, t: nat)
    requires Searchable(es) && s < t <= |es|
    ensures Searchable(es[s..t])
  {
    var part := es[s..t];
    forall i | 0 <= i < |part| && part[i].Shard?
      ensures InRange(part[i].child.entries, part[i].name, NextName(part, i))
    {
      assert part[i] == es[s + i];
      assert InRange(es[s + i].child.entries, es[s + i].name, NextName(es, s + i));
    }
  }

  lemma HolderInRange(es: seq<Entry>, k: nat, n: Name)
    requires Searchable(es) && k < |es| && Holds(es[k], n)
    ensures !Lt(n, es[k].name)
    ensures forall j :: k < j < |es| ==> Lt(n, es[j].name)
  {
    assert Sorted(es);
    if es[k].Shard? {
      assert InRange(es[k].child.entries, es[k].name, NextName(es, k));
    }
    hide Searchable;
    forall j | k < j < |es| ensures Lt(n, es[j].name) {
      assert j == k + 1 || Lt(es[k + 1].name, es[j].name);
    }
  }

  lemma SliceBounds(es: seq<Entry>, s: nat, t: nat, n: Name)
    requires Searchable(es) && s < t <= |es|
    requires Child(es[s..t], n).Some?
    ensures !Lt(n, es[s].name)
    ensures t < |es| ==> Lt(n, es[t].name)
  {
    assert Sorted(es);
    hide Searchable, Child, Lt, Holds;
    var k := ChildHolder(es[s..t], n);
    assert es[s..t][k] == es[s + k];
    HolderInRange(es, s + k, n);
    assert !Lt(es[s + k].name, es[s].name);
  }

  /** One entry alone supplies a name. */
  lemma {:induction false} UniqueHolder(es: seq<Entry>, k: nat, n: Name)
    requires Searchable(es) && k < |es| && Holds(es[k], n)
    ensures Child(es, n) == if es[k].Shard? then Child(es[k].child.entries, n) else Some(es[k])
  {
    if 0 < k {
      HolderInRange(es, k, n);
      if Holds(es[0], n) {
        HolderInRange(es, 0, n);
        assert false;
      }
      SliceSearchable(es, 1, |es|);
      assert es[1..|es|] == es[1..];
      UniqueHolder(es[1..], k - 1, n);
    }
  }

  // ---- The names of a directory ---------------------------------------------

  lemma {:induction false} SomeChild(es: seq<Entry>) returns (n: Name)
    requires Searchable(es) && es != []
    ensures Child(es, n).Some?
  {
    if es[0].Shard? {
      n := SomeChild(es[0].child.entries);
    } else {
      n := es[0].name;
    }
    UniqueHolder(es, 0, n);
  }

  lemma {:induction false} SomeLeafBelow(es: seq<Entry>, n: Name) returns (p: Path)
    requires Searchable(es) && Child(es, n).Some?
    ensures p != [] && p[0] == n && LeafAt(es, p).Some?
    decreases Height(es)
  {
    var k := ChildHolder(es, n);
    UniqueHolder(es, k, n);
    match es[k]
    case File(_, _) =>
      p := [n];
    case Dir(_, child) =>
      HeightOfMember(es, es[k]);
      var first := SomeChild(child.entries);
      var q := SomeLeafBelow(child.entries, first);
      p := [n] + q;
    case Shard(_, child) =>
      HeightOfMember(es, es[k]);
      p := SomeLeafBelow(child.entries, n);
  }

  lemma HeldOnce(es: seq<Entry>, n: Name)
    requires es != [] && Searchable(es)
    ensures Holds(es[0], n) ==> Child(es, n).Some? && Child(es[1..], n).None?
    ensures Child(es[1..], n).Some? ==> Child(es, n).Some?
    ensures 1 < |es| ==> Searchable(es[1..])
  {
    var rest := es[1..];
    if 1 < |es| {
      SliceSearchable(es, 1, |es|);
      assert es[1..|es|] == rest;
    }
    if Holds(es[0], n) {
      UniqueHolder(es, 0, n);
      HolderInRange(es, 0, n);
    }
    if Child(rest, n).Some? {
      var k := ChildHolder(rest, n);
      UniqueHolder(es, k + 1, n);
      UniqueHolder(rest, k, n);
      HolderInRange(es, k + 1, n);
    }
  }

  lemma TailHeight(es: seq<Entry>)
    requires es != []
    ensures Height(es[1..]) <= Height(es)
  {
  }

  /** A directory has just as many children as there are names with a child. */
  lemma {:induction false} CountIs(es: seq<Entry>, names: set<Name>)
    requires Searchable(es) && forall n: Name :: Child(es, n).Some? <==> n in names
    ensures Count(es) == |names|
    decreases Height(es), |es|
  {
    if es == [] {
      assert names == {};
    } else {
      var first, rest := es[0], es[1..];
      var own := set n | n in names && Holds(first, n);
      var others := names - own;
      forall n: Name
        ensures Holds(first, n) <==> n in own
        ensures Child(rest, n).Some? <==> n in others
      {
        HeldOnce(es, n);
      }
      if 1 < |es| { HeldOnce(es, first.name); }
      TailHeight(es);
      CountIs(rest, others);
      assert names == own + others && own !! others;
      if first.Shard? { HeightOfMember(es, first); }
      OwnCount(first, own);
    }
  }

  lemma {:induction false} OwnCount(e: Entry, own: set<Name>)
    requires (!e.File? ==> Searchable(e.child.entries)) && forall n: Name :: Holds(e, n) <==> n in own
    ensures (if e.Shard? then Count(e.child.entries) else 1) == |own|
    decreases if e.Shard? then Height(e.child.entries) else 0, if e.Shard? then |e.child.entries| + 1 else 0
  {
    if e.Shard? {
      CountIs(e.child.entries, own);
    } else {
      assert own == {e.name};
    }
  }

  /** The names of the children. */
  function ChildNames(es: seq<Entry>): set<Name> {
    if es == [] then {}
    else (if es[0].Shard? then ChildNames(es[0].child.entries) else {es[0].name}) + ChildNames(es[1..])
  }

  lemma {:induction false} ChildNamesSpec(es: seq<Entry>, n: Name)
    ensures n in ChildNames(es) <==> Child(es, n).Some?
  {
    if es != [] {
      if es[0].Shard? {
        ChildNamesSpec(es[0].child.entries, n);
      }
      ChildNamesSpec(es[1..], n);
    }
  }

  /** A directory has no more children than there are names for them. */
  lemma CountBound(es: seq<Entry>, names: set<Name>)
    requires Searchable(es) && forall n: Name :: Child(es, n).Some? ==> n in names
    ensures Count(es) <= |names|
  {
    forall n: Name ensures n in ChildNames(es) <==> Child(es, n).Some? {
      ChildNamesSpec(es, n);
    }
    CountIs(es, ChildNames(es));
    Subset(ChildNames(es), names);
  }
}
