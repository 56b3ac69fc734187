/** Tree walks: exact lookup, directory resolution, full and prefix listings. */
module Query {
  import opened Paths
  import opened Trees
  import opened Shards

  // ---- Descending by name ---------------------------------------------------

  /** The first entry at or after `n`, by binary search (Python's `bisect_left`). */
  method BisectLeft(es: seq<Entry>, n: Name) returns (r: nat)
    requires Sorted(es)
    ensures r <= |es|
    ensures forall i :: 0 <= i < |es| ==> (i < r <==> Lt(es[i].name, n))
  {
    var lo, hi := 0, |es|;
    while lo < hi
      invariant lo <= hi <= |es|
      invariant forall i :: 0 <= i < lo ==> Lt(es[i].name, n)
      invariant forall i :: hi <= i < |es| ==> !Lt(es[i].name, n)
    {
      var mid := (lo + hi) / 2;
      if Lt(es[mid].name, n) {
        lo := mid + 1;
      } else {
        hi := mid;
      }
    }
    r := lo;
  }

  /** `_descend`: the entry through which every path starting with `n` goes. */
  method Descend(es: seq<Entry>, n: Name) returns (r: Option<Entry>)
    requires Searchable(es)
    ensures r.None? ==> Child(es, n) == None
    ensures r.Some? && r.value.Shard? ==> Child(es, n) == Child(r.value.child.entries, n)
    ensures r.Some? && !r.value.Shard? ==> Child(es, n) == r
    ensures r.Some? && !r.value.File? ==>
      r.value in es && Searchable(r.value.child.entries) && Height(r.value.child.entries) < Height(es)
  {
    var i := BisectLeft(es, n);
    PlaceInjective();
    OnlyHolder(es, n, i);
    if i < |es| && es[i].name == n {
      if !es[i].File? { HeightOfMember(es, es[i]); }
      return Some(es[i]);
    }
    if 0 < i && es[i - 1].Shard? {
      HeightOfMember(es, es[i - 1]);
      return Some(es[i - 1]);
    }
    return None;
  }

  /** Only the entry of that name, or else the shard just before it, can hold `n`. */
  lemma OnlyHolder(es: seq<Entry>, n: Name, i: nat)
    requires Searchable(es) && i <= |es|
    requires forall j :: 0 <= j < |es| ==> (j < i <==> Lt(es[j].name, n))
    ensures i < |es| && es[i].name == n ==>
      Child(es, n) == if es[i].Shard? then Child(es[i].child.entries, n) else Some(es[i])
    ensures (i < |es| ==> es[i].name != n) ==>
      Child(es, n) == if 0 < i && es[i - 1].Shard? then Child(es[i - 1].child.entries, n) else None
  {
    PlaceInjective();
    if Child(es, n).Some? {
      var k := ChildHolder(es, n);
      HolderInRange(es, k, n);
      UniqueHolder(es, k, n);
    }
    forall k | 0 <= k < |es| && Holds(es[k], n) ensures Child(es, n).Some? {
      UniqueHolder(es, k, n);
    }
  }

  /** `lookup_entry`: finds exactly the leaf the flat map has at `p`. */
  method LookupEntry(root: Node, p: Path) returns (r: Option<Leaf>)
    requires Searchable(root.entries)
    ensures r == LeafAt(root.entries, p)
  {
    var current, index := root, 0;
    assert p[0..] == p;
    while index < |p|
      invariant index <= |p| && Searchable(current.entries)
      invariant LeafAt(root.entries, p) == LeafAt(current.entries, p[index..])
      decreases |p| - index, Height(current.entries)
    {
      var target := Descend(current.entries, p[index]);
      assert p[index..][1..] == p[index + 1..];
      match target
      case None => return None;
      case Some(File(_, leaf)) =>
        return if index == |p| - 1 then Some(leaf) else None;
      case Some(Dir(_, child)) => current, index := child, index + 1;
      case Some(Shard(_, child)) => current := child;
    }
    return None;
  }

  function Subdirectory(c: Option<Entry>): Option<Node> {
    if c.Some? && c.value.Dir? then Some(c.value.child) else None
  }

  lemma {:induction false} DirAtSnoc(es: seq<Entry>, p: Path, n: Name)
    ensures DirAt(es, p + [n]) ==
            if DirAt(es, p).None? then None
            else Subdirectory(Child(DirAt(es, p).value.entries, n))
    decreases |p|
  {
    if p == [] {
      assert p + [n] == [n];
    } else {
      assert (p + [n])[1..] == p[1..] + [n];
      if Child(es, p[0]).Some? && Child(es, p[0]).value.Dir? {
        DirAtSnoc(Child(es, p[0]).value.child.entries, p[1..], n);
      }
    }
  }

  lemma DirIsPublished(m: nat, es: seq<Entry>, n: Name)
    requires WellFormed(m, es) && Child(es, n).Some? && Child(es, n).value.Dir?
    ensures Child(es, n).value.child.entries != [] && WellFormed(m, Child(es, n).value.child.entries)
  {
    ExpandWellFormed(m, es);
    ChildNone(Expand(es), n);
  }

  /** `resolve_directory`: the directory at `dir`, and its children with shards unpacked. */
  method ResolveDirectory(m: nat, root: Node, dir: Path) returns (r: Option<(Node, seq<Entry>)>)
    requires WellFormed(m, root.entries)
    ensures r.None? <==> DirAt(root.entries, dir).None?
    ensures r.Some? ==>
      DirAt(root.entries, dir) == Some(r.value.0) && r.value.1 == Expand(r.value.0.entries) &&
      WellFormed(m, r.value.0.entries)
  {
    var current := root;
    for i := 0 to |dir|
      invariant DirAt(root.entries, dir[..i]) == Some(current) && WellFormed(m, current.entries)
    {
      hide WellFormed;
      var entries := ExpandShards(current.entries);
      ExpandWellFormed(m, current.entries);
      var target := Descend(entries, dir[i]);
      DirAtSnoc(root.entries, dir[..i], dir[i]);
      assert dir[..i + 1] == dir[..i] + [dir[i]];
      assert target == Child(current.entries, dir[i]);
      if target.None? || target.value.File? {
        MissingDir(root.entries, dir, i + 1);
        return None;
      }
      DirIsPublished(m, current.entries, dir[i]);
      current := target.value.child;
    }
    assert dir[..|dir|] == dir;
    var children := ExpandShards(current.entries);
    return Some((current, children));
  }

  lemma {:induction false} MissingDir(es: seq<Entry>, p: Path, k: nat)
    requires k <= |p| && DirAt(es, p[..k]).None?
    ensures DirAt(es, p).None?
    decreases |p|
  {
    if 0 < k && Child(es, p[0]).Some? && Child(es, p[0]).value.Dir? {
      assert p[..k][1..] == p[1..][..k - 1];
      MissingDir(Child(es, p[0]).value.child.entries, p[1..], k - 1);
    }
  }

  // ---- Listing a tree -------------------------------------------------------

  /** Every leaf below, in the order the nodes list them; shards stand for their contents. */
  function Flatten(es: seq<Entry>, prefix: Path): seq<Item> {
    if es == [] then []
    else
      (match es[0]
       case File(name, leaf) => [Item(prefix + [name], leaf)]
       case Dir(name, child) => Flatten(child.entries, prefix + [name])
       case Shard(_, child) => Flatten(child.entries, prefix))
      + Flatten(es[1..], prefix)
  }

  /** Component order of paths: the first differing component decides. */
  predicate PathLess(p: Path, q: Path)
    decreases |p|
  {
    q != [] && (p == [] || Lt(p[0], q[0]) || (p[0] == q[0] && PathLess(p[1..], q[1..])))
  }

  /** Flattening lists exactly the leaves of the flat map. */
  lemma {:induction false} FlattenSound(es: seq<Entry>, prefix: Path, x: Item)
    requires Searchable(es) && x in Flatten(es, prefix)
    ensures prefix < x.path && LeafAt(es, x.path[|prefix|..]) == Some(x.leaf)
  {
    var rest := es[1..];
    if x in Flatten(rest, prefix) {
      SliceSearchable(es, 1, |es|);
      assert es[1..|es|] == rest;
      FlattenSound(rest, prefix, x);
      var p := x.path[|prefix|..];
      var k := ChildHolder(rest, p[0]);
      UniqueHolder(rest, k, p[0]);
      UniqueHolder(es, k + 1, p[0]);
    } else {
      match es[0]
      case File(name, leaf) =>
        assert x.path[|prefix|..] == [name];
        UniqueHolder(es, 0, name);
      case Dir(name, child) =>
        FlattenSound(child.entries, prefix + [name], x);
        assert x.path[|prefix|] == (prefix + [name])[|prefix|];
        assert x.path[|prefix|..][1..] == x.path[|prefix + [name]|..];
        UniqueHolder(es, 0, name);
      case Shard(_, child) =>
        FlattenSound(child.entries, prefix, x);
        UniqueHolder(es, 0, x.path[|prefix|]);
    }
  }

  lemma {:induction false} FlattenComplete(es: seq<Entry>, prefix: Path, p: Path)
    requires Searchable(es) && LeafAt(es, p).Some?
    ensures Item(prefix + p, LeafAt(es, p).value) in Flatten(es, prefix)
    decreases |p|, Height(es)
  {
    var k := ChildHolder(es, p[0]);
    UniqueHolder(es, k, p[0]);
    FlattenHolds(es, prefix, k);
    match es[k]
    case File(name, leaf) =>
      assert p == [name];
    case Dir(name, child) =>
      FlattenComplete(child.entries, prefix + [name], p[1..]);
      assert prefix + [name] + p[1..] == prefix + p;
    case Shard(_, child) =>
      HeightOfMember(es, es[k]);
      FlattenComplete(child.entries, prefix, p);
  }

  lemma {:induction false} FlattenHolds(es: seq<Entry>, prefix: Path, k: nat)
    requires k < |es|
    ensures forall x :: x in Flatten([es[k]], prefix) ==> x in Flatten(es, prefix)
  {
    assert [es[k]][1..] == [];
    if 0 < k {
      assert es[1..][k - 1] == es[k];
      FlattenHolds(es[1..], prefix, k - 1);
    }
  }

  predicate AscendingPaths(xs: seq<Item>) {
    forall i, j :: 0 <= i < j < |xs| ==> PathLess(xs[i].path, xs[j].path)
  }

  lemma {:induction false} PathLessBelow(prefix: Path, p: Path, q: Path)
    requires prefix < p && prefix < q && Lt(p[|prefix|], q[|prefix|])
    ensures PathLess(p, q)
  {
    if prefix != [] {
      PathLessBelow(prefix[1..], p[1..], q[1..]);
    }
  }

  /** A listing ascends strictly in component order, so it lists every path once. */
  lemma {:induction false} FlattenAscends(es: seq<Entry>, prefix: Path)
    requires Searchable(es)
    ensures AscendingPaths(Flatten(es, prefix))
  {
    if es != [] {
      var rest := es[1..];
      assert [es[0]][1..] == [];
      var first, others := Flatten([es[0]], prefix), Flatten(rest, prefix);
      match es[0] {
        case File(_, _) =>
        case Dir(name, child) => FlattenAscends(child.entries, prefix + [name]);
        case Shard(_, child) => FlattenAscends(child.entries, prefix);
      }
      if 1 < |es| {
        SliceSearchable(es, 1, |es|);
        assert es[1..|es|] == rest;
      }
      FlattenAscends(rest, prefix);
      forall x, y | x in first && y in others ensures PathLess(x.path, y.path) {
        FirstListedFirst(es, prefix, x, y);
      }
      Unfold(es, 0, prefix);
      assert es[0..] == es;
    }
  }

  lemma FirstListedFirst(es: seq<Entry>, prefix: Path, x: Item, y: Item)
    requires es != [] && Searchable(es)
    requires x in Flatten([es[0]], prefix) && y in Flatten(es[1..], prefix)
    ensures PathLess(x.path, y.path)
  {
    SliceSearchable(es, 0, 1);
    SliceSearchable(es, 1, |es|);
    assert es[0..1] == [es[0]] && es[1..|es|] == es[1..];
    FlattenSound([es[0]], prefix, x);
    FlattenSound(es[1..], prefix, y);
    var a, b := x.path[|prefix|], y.path[|prefix|];
    var j := ChildHolder([es[0]], a);
    var k := ChildHolder(es[1..], b);
    HolderInRange(es, 0, a);
    HolderInRange(es, k + 1, b);
    PathLessBelow(prefix, x.path, y.path);
  }

  // ---- The walk with an explicit stack --------------------------------------

  /** A node to resume at an index, with the path of its directory. */
  datatype Resume = Resume(node: Node, prefix: Path, index: nat)

  predicate Resumable(stack: seq<Resume>) {
    forall f :: f in stack ==> f.index <= |f.node.entries|
  }

  /** What the walk still has to list, the top of the stack first. */
  function Pending(stack: seq<Resume>): seq<Item>
    requires Resumable(stack)
  {
    if stack == [] then []
    else
      var f := stack[|stack| - 1];
      Flatten(f.node.entries[f.index..], f.prefix) + Pending(stack[..|stack| - 1])
  }

  function Weight(es: seq<Entry>): nat {
    if es == [] then 0
    else (if es[0].File? then 1 else 2 + Weight(es[0].child.entries)) + Weight(es[1..])
  }

  /** Every turn of the walk lowers the work left on its stack. */
  function Work(stack: seq<Resume>): nat
    requires Resumable(stack)
  {
    if stack == [] then 0
    else
      var f := stack[|stack| - 1];
      1 + Weight(f.node.entries[f.index..]) + Work(stack[..|stack| - 1])
  }

  /** The next entry of a node, unfolded. */
  lemma Unfold(es: seq<Entry>, i: nat, prefix: Path)
    requires i < |es|
    ensures Flatten(es[i..], prefix) == Flatten([es[i]], prefix) + Flatten(es[i + 1..], prefix)
    ensures Weight(es[i..]) == Weight([es[i]]) + Weight(es[i + 1..])
    ensures Weight([es[i]]) == if es[i].File? then 1 else 2 + Weight(es[i].child.entries)
    ensures Flatten([es[i]], prefix) ==
            if es[i].File? then [Item(prefix + [es[i].name], es[i].leaf)]
            else Flatten(es[i].child.entries, Inner(es[i], prefix))
  {
    assert es[i..][0] == es[i] && es[i..][1..] == es[i + 1..] && [es[i]][1..] == [];
  }

  lemma Push(stack: seq<Resume>, f: Resume)
    requires Resumable(stack) && f.index <= |f.node.entries|
    ensures Resumable(stack + [f])
    ensures Pending(stack + [f]) == Flatten(f.node.entries[f.index..], f.prefix) + Pending(stack)
    ensures Work(stack + [f]) == 1 + Weight(f.node.entries[f.index..]) + Work(stack)
  {
    assert (stack + [f])[..|stack|] == stack;
  }

  /** Where the walk continues after entering a subtree. */
  function Inner(e: Entry, prefix: Path): Path {
    if e.Shard? then prefix else prefix + [e.name]
  }

  lemma PendingAssoc(a: seq<Item>, b: seq<Item>, c: seq<Item>)
    ensures a + (b + c) == (a + b) + c
  {
  }

  /** Descending: the rest of the node and then, on top, the whole subtree. */
  lemma Descending(stack: seq<Resume>, node: Node, i: nat, prefix: Path)
    requires Resumable(stack) && i < |node.entries| && !node.entries[i].File?
    ensures var next := stack + [Resume(node, prefix, i + 1), Resume(node.entries[i].child, Inner(node.entries[i], prefix), 0)];
      && Resumable(next)
      && Pending(next) == Flatten(node.entries[i..], prefix) + Pending(stack)
      && Work(next) < 1 + Weight(node.entries[i..]) + Work(stack)
  {
    var es, e := node.entries, node.entries[i];
    var f, g := Resume(node, prefix, i + 1), Resume(e.child, Inner(e, prefix), 0);
    Unfold(es, i, prefix);
    hide Flatten, Weight, Pending, Work, Inner;
    Push(stack, f);
    Push(stack + [f], g);
    assert stack + [f] + [g] == stack + [f, g];
    PendingAssoc(Flatten([e], prefix), Flatten(es[i + 1..], prefix), Pending(stack));
    assert e.child.entries[0..] == e.child.entries;
  }

  /** The leaves of a node up to its next subtree. */
  method Leaves(es: seq<Entry>, prefix: Path, index: nat) returns (run: seq<Item>, next: nat)
    requires index <= |es|
    ensures index <= next <= |es| && (next < |es| ==> !es[next].File?)
    ensures run + Flatten(es[next..], prefix) == Flatten(es[index..], prefix)
    ensures Weight(es[next..]) <= Weight(es[index..])
  {
    hide Flatten, Weight;
    run, next := [], index;
    while next < |es| && es[next].File?
      invariant index <= next <= |es|
      invariant run + Flatten(es[next..], prefix) == Flatten(es[index..], prefix)
      invariant Weight(es[next..]) <= Weight(es[index..])
    {
      Unfold(es, next, prefix);
      run := run + [Item(prefix + [es[next].name], es[next].leaf)];
      next := next + 1;
    }
  }

  /** `iter_all_entries`: the walk with an explicit stack lists the flattened tree. */
  method IterAllEntries(root: Node) returns (out: seq<Item>)
    ensures out == Flatten(root.entries, [])
  {
    var stack := [Resume(root, [], 0)];
    out := [];
    assert [] + stack == stack;
    EmptyStack();
    Push([], Resume(root, [], 0));
    assert root.entries[0..] == root.entries;
    hide Flatten, Weight, Pending, Work, Inner;
    while stack != []
      invariant Resumable(stack)
      invariant out + Pending(stack) == Flatten(root.entries, [])
      decreases Work(stack)
    {
      var top, low := stack[|stack| - 1], stack[..|stack| - 1];
      assert low + [top] == stack;
      Push(low, top);
      var es, prefix := top.node.entries, top.prefix;
      var run, index := Leaves(es, prefix, top.index);
      Assoc(out, run, Flatten(es[index..], prefix), Pending(low));
      out := out + run;
      if index < |es| {
        var subtree := es[index];
        Descending(low, top.node, index, prefix);
        stack := low + [Resume(top.node, prefix, index + 1), Resume(subtree.child, Inner(subtree, prefix), 0)];
      } else {
        NothingLeft(es, prefix);
        assert [] + Pending(low) == Pending(low);
        stack := low;
      }
    }
    assert out + [] == out;
  }

  lemma Assoc(a: seq<Item>, b: seq<Item>, c: seq<Item>, d: seq<Item>)
    ensures a + ((b + c) + d) == (a + b) + (c + d)
  {
  }

  lemma EmptyStack()
    ensures Resumable([]) && Pending([]) == [] && Work([]) == 0
  {
  }

  lemma NothingLeft(es: seq<Entry>, prefix: Path)
    ensures Flatten(es[|es|..], prefix) == []
  {
  }

  // ---- The walk under a prefix ----------------------------------------------

  predicate MatchesPrefix(p: Path, q: Path) {
    q <= p
  }

  /** `matches_prefix` on strings is `<=` on components. */
  lemma MatchesOnStrings(p: Path, q: Path)
    requires p != [] && q != []
    ensures MatchesPrefix(p, q) <==> Join(p) == Join(q) || Join(q) + "/" <= Join(p)
  {
    JoinPrefix(q, p);
    if Join(p) == Join(q) {
      JoinInjective(p, q);
    }
  }

  lemma SameTail(a: string, s: string, t: string)
    requires a + "/" + s == a + "/" + t
    ensures s == t
  {
    assert (a + "/" + s)[|a| + 1..] == s && (a + "/" + t)[|a| + 1..] == t;
  }

  lemma {:induction false} JoinInjective(p: Path, q: Path)
    requires p != [] && q != [] && Join(p) == Join(q)
    ensures p == q
  {
    var s := if |p| == 1 then "" else "/" + Join(p[1..]);
    var t := if |q| == 1 then "" else "/" + Join(q[1..]);
    assert Join(p) == p[0] + s && Join(q) == q[0] + t;
    if |p| > 1 {
      FirstSlash(p[0], q[0], Join(p[1..]), t);
      SameTail(p[0], Join(p[1..]), Join(q[1..]));
      JoinInjective(p[1..], q[1..]);
    }
  }

  /** A subtree at `c` may hold matches of `q`. */
  predicate MayMatch(c: Path, q: Path) {
    q <= c || c <= q
  }

  /** The walk's string test for skipping a subtree, on components. */
  lemma MayMatchOnStrings(c: Path, q: Path)
    requires q != []
    ensures var childPrefix := if c == [] then "" else Join(c) + "/";
      MayMatch(c, q) <==> Join(q) + "/" <= childPrefix || childPrefix <= Join(q)
  {
    if c != [] {
      JoinPrefix(q, c);
      JoinPrefix(c, q);
      var childPrefix := Join(c) + "/";
      if q == c {
        assert Join(q) + "/" == childPrefix;
      }
      if Join(q) + "/" <= childPrefix {
        assert |Join(q) + "/"| == |childPrefix| ==> Join(q) + "/" == childPrefix;
        if Join(q) + "/" == childPrefix {
          assert (Join(q) + "/")[..|Join(q)|] == childPrefix[..|Join(c)|];
          JoinInjective(q, c);
        } else {
          assert Join(q) + "/" <= Join(c);
        }
      }
    }
  }

  /** The items of a listing that lie at or below `q`. */
  function Matching(xs: seq<Item>, q: Path): seq<Item> {
    if xs == [] then []
    else (if MatchesPrefix(xs[0].path, q) then [xs[0]] else []) + Matching(xs[1..], q)
  }

  lemma {:induction false} MatchingConcat(a: seq<Item>, b: seq<Item>, q: Path)
    ensures Matching(a + b, q) == Matching(a, q) + Matching(b, q)
  {
    if a == [] {
      assert a + b == b;
    } else {
      assert (a + b)[0] == a[0] && (a + b)[1..] == a[1..] + b;
      MatchingConcat(a[1..], b, q);
    }
  }

  lemma {:induction false} FlattenBelow(es: seq<Entry>, prefix: Path, x: Item)
    requires x in Flatten(es, prefix)
    ensures prefix < x.path
  {
    if x in Flatten(es[1..], prefix) {
      FlattenBelow(es[1..], prefix, x);
    } else {
      match es[0]
      case File(_, _) =>
      case Dir(name, child) => FlattenBelow(child.entries, prefix + [name], x);
      case Shard(_, child) => FlattenBelow(child.entries, prefix, x);
    }
  }

  lemma {:induction false} NothingMatches(xs: seq<Item>, c: Path, q: Path)
    requires forall x :: x in xs ==> c < x.path
    requires !MayMatch(c, q)
    ensures Matching(xs, q) == []
  {
    if xs != [] {
      assert xs[0] in xs;
      NothingMatches(xs[1..], c, q);
    }
  }

  lemma SkippedSubtree(e: Entry, prefix: Path, q: Path)
    requires !e.File? && !MayMatch(Inner(e, prefix), q)
    ensures Matching(Flatten([e], prefix), q) == []
  {
    var c := Inner(e, prefix);
    Unfold([e], 0, prefix);
    forall x | x in Flatten(e.child.entries, c) ensures c < x.path {
      FlattenBelow(e.child.entries, c, x);
    }
    NothingMatches(Flatten([e], prefix), c, q);
  }

  /** The rest of a node, seen from its next entry, among the matches. */
  lemma UnfoldMatching(es: seq<Entry>, i: nat, prefix: Path, q: Path)
    requires i < |es|
    ensures Matching(Flatten(es[i..], prefix), q) ==
            Matching(Flatten([es[i]], prefix), q) + Matching(Flatten(es[i + 1..], prefix), q)
    ensures Weight(es[i + 1..]) < Weight(es[i..])
    ensures es[i].File? ==>
      Matching(Flatten([es[i]], prefix), q) ==
      if MatchesPrefix(prefix + [es[i].name], q) then [Item(prefix + [es[i].name], es[i].leaf)] else []
  {
    Unfold(es, i, prefix);
    MatchingConcat(Flatten([es[i]], prefix), Flatten(es[i + 1..], prefix), q);
    if es[i].File? {
      var x := Item(prefix + [es[i].name], es[i].leaf);
      assert [x][1..] == [];
    }
  }

  /** The matches the walk still has to list. */
  function Left(stack: seq<Resume>, q: Path): seq<Item>
    requires Resumable(stack)
  {
    Matching(Pending(stack), q)
  }

  lemma Resumed(stack: seq<Resume>, f: Resume, q: Path)
    requires Resumable(stack) && f.index <= |f.node.entries|
    ensures Resumable(stack + [f])
    ensures Left(stack + [f], q) == Matching(Flatten(f.node.entries[f.index..], f.prefix), q) + Left(stack, q)
    ensures Work(stack + [f]) == 1 + Weight(f.node.entries[f.index..]) + Work(stack)
  {
    Push(stack, f);
    MatchingConcat(Flatten(f.node.entries[f.index..], f.prefix), Pending(stack), q);
  }

  /** Passing over a subtree without matches loses nothing. */
  lemma Skipped(stack: seq<Resume>, node: Node, i: nat, prefix: Path, q: Path)
    requires Resumable(stack) && i < |node.entries| && !node.entries[i].File?
    requires !MayMatch(Inner(node.entries[i], prefix), q)
    ensures var next := stack + [Resume(node, prefix, i + 1)];
      && Resumable(next)
      && Left(next, q) == Matching(Flatten(node.entries[i..], prefix), q) + Left(stack, q)
      && Work(next) < 1 + Weight(node.entries[i..]) + Work(stack)
  {
    hide Flatten, Weight, Work, Pending, Matching, Left, MayMatch;
    UnfoldMatching(node.entries, i, prefix, q);
    SkippedSubtree(node.entries[i], prefix, q);
    Resumed(stack, Resume(node, prefix, i + 1), q);
    var rest := Matching(Flatten(node.entries[i + 1..], prefix), q);
    assert [] + rest == rest;
  }

  lemma Entered(stack: seq<Resume>, node: Node, i: nat, prefix: Path, q: Path)
    requires Resumable(stack) && i < |node.entries| && !node.entries[i].File?
    ensures var next := stack + [Resume(node, prefix, i + 1), Resume(node.entries[i].child, Inner(node.entries[i], prefix), 0)];
      && Resumable(next)
      && Left(next, q) == Matching(Flatten(node.entries[i..], prefix), q) + Left(stack, q)
      && Work(next) < 1 + Weight(node.entries[i..]) + Work(stack)
  {
    Descending(stack, node, i, prefix);
    MatchingConcat(Flatten(node.entries[i..], prefix), Pending(stack), q);
  }

  /** The matching leaves of a node up to its next subtree. */
  method MatchingLeaves(es: seq<Entry>, prefix: Path, index: nat, q: Path) returns (run: seq<Item>, next: nat)
    requires index <= |es|
    ensures index <= next <= |es| && (next < |es| ==> !es[next].File?)
    ensures run + Matching(Flatten(es[next..], prefix), q) == Matching(Flatten(es[index..], prefix), q)
    ensures Weight(es[next..]) <= Weight(es[index..])
  {
    hide Flatten, Weight, Matching;
    run, next := [], index;
    while next < |es| && es[next].File?
      invariant index <= next <= |es|
      invariant run + Matching(Flatten(es[next..], prefix), q) == Matching(Flatten(es[index..], prefix), q)
      invariant Weight(es[next..]) <= Weight(es[index..])
    {
      UnfoldMatching(es, next, prefix, q);
      var path := prefix + [es[next].name];
      if q == [] || MatchesPrefix(path, q) {
        run := run + [Item(path, es[next].leaf)];
      }
      next := next + 1;
    }
  }

  /** `iter_entries_for_prefix`: the walk that skips subtrees lists exactly the
      matching part of the full walk, in the same order. */
  method IterEntriesForPrefix(root: Node, q: Path) returns (out: seq<Item>)
    ensures out == Matching(Flatten(root.entries, []), q)
  {
    var stack := [Resume(root, [], 0)];
    out := [];
    WalkStart(root, q);
    hide Flatten, Weight, Left, Work, Matching, MayMatch, Inner;
    while stack != []
      invariant Resumable(stack)
      invariant out + Left(stack, q) == Matching(Flatten(root.entries, []), q)
      decreases Work(stack)
    {
      var top, low := stack[|stack| - 1], stack[..|stack| - 1];
      assert low + [top] == stack;
      Resumed(low, top, q);
      var es, prefix := top.node.entries, top.prefix;
      var run, index := MatchingLeaves(es, prefix, top.index, q);
      Assoc(out, run, Matching(Flatten(es[index..], prefix), q), Left(low, q));
      out := out + run;
      if index == |es| {
        NothingLeft(es, prefix);
        NoMatches(q);
        assert [] + Left(low, q) == Left(low, q);
        stack := low;
      } else {
        var subtree := es[index];
        var inner := Inner(subtree, prefix);
        if q != [] && !MayMatch(inner, q) {
          Skipped(low, top.node, index, prefix, q);
          stack := low + [Resume(top.node, prefix, index + 1)];
        } else {
          Entered(low, top.node, index, prefix, q);
          stack := low + [Resume(top.node, prefix, index + 1), Resume(subtree.child, inner, 0)];
        }
      }
    }
    WalkEnd(q);
    assert out + [] == out;
  }

  lemma WalkStart(root: Node, q: Path)
    ensures Resumable([Resume(root, [], 0)])
    ensures Left([Resume(root, [], 0)], q) == Matching(Flatten(root.entries, []), q)
  {
    var start := Resume(root, [], 0);
    WalkEnd(q);
    Resumed([], start, q);
    assert [] + [start] == [start] && root.entries[0..] == root.entries;
    assert Matching(Flatten(root.entries, []), q) + [] == Matching(Flatten(root.entries, []), q);
  }

  lemma WalkEnd(q: Path)
    ensures Resumable([]) && Left([], q) == []
  {
  }

  lemma NoMatches(q: Path)
    ensures Matching([], q) == []
  {
  }

  /** What a prefix listing holds, stated on the flat map. */
  lemma {:induction false} ListedExactly(es: seq<Entry>, q: Path, x: Item)
    requires Searchable(es)
    ensures x in Matching(Flatten(es, []), q) <==> LeafAt(es, x.path) == Some(x.leaf) && MatchesPrefix(x.path, q)
    ensures AscendingPaths(Matching(Flatten(es, []), q))
  {
    MatchingIsFilter(Flatten(es, []), q);
    FlattenAscends(es, []);
    if x in Flatten(es, []) {
      FlattenSound(es, [], x);
    }
    if LeafAt(es, x.path) == Some(x.leaf) {
      FlattenComplete(es, [], x.path);
      assert [] + x.path == x.path;
    }
  }

  lemma {:induction false} MatchingIsFilter(xs: seq<Item>, q: Path)
    ensures forall x :: x in Matching(xs, q) <==> x in xs && MatchesPrefix(x.path, q)
    ensures AscendingPaths(xs) ==> AscendingPaths(Matching(xs, q))
  {
    if xs != [] {
      MatchingIsFilter(xs[1..], q);
      assert forall x :: x in xs <==> x == xs[0] || x in xs[1..];
      if AscendingPaths(xs) {
        var low := Matching(xs[1..], q);
        forall i | 0 <= i < |low| ensures PathLess(xs[0].path, low[i].path) {
          assert low[i] in low;
          var j :| 0 <= j < |xs[1..]| && xs[1..][j] == low[i];
          assert xs[j + 1] == low[i];
        }
      }
    }
  }
}
