/** Walks over the object graph: tree nodes below a root, commits below a head, and the
    leaf references of a set of tree nodes. */
module Reach {
  import opened Paths
  import opened Trees
  import opened Objects
  import opened Sets

  // ---- Tree nodes below a root ----------------------------------------------

  function SubtreesOf(es: seq<Entry>): set<Node> {
    if es == [] then {}
    else (if es[0].File? then {} else {es[0].child} + SubtreesOf(es[0].child.entries)) + SubtreesOf(es[1..])
  }

  function TreesUnder(n: Node): set<Node> {
    {n} + SubtreesOf(n.entries)
  }

  /** The nodes an entry list points at directly. */
  predicate PointsAt(es: seq<Entry>, n: Node) {
    exists e :: e in es && !e.File? && e.child == n
  }

  lemma {:induction false} SubtreesTransitive(es: seq<Entry>, n: Node, c: Node)
    requires n in SubtreesOf(es) && PointsAt(n.entries, c)
    ensures c in SubtreesOf(es)
  {
    if n in SubtreesOf(es[1..]) {
      SubtreesTransitive(es[1..], n, c);
    } else if n == es[0].child {
      DirectSubtree(n.entries, c);
    } else {
      SubtreesTransitive(es[0].child.entries, n, c);
    }
  }

  lemma {:induction false} DirectSubtree(es: seq<Entry>, c: Node)
    requires PointsAt(es, c)
    ensures c in SubtreesOf(es)
  {
    if es[0].File? || es[0].child != c {
      assert PointsAt(es[1..], c) by {
        var e :| e in es && !e.File? && e.child == c;
        assert e in es[1..];
      }
      DirectSubtree(es[1..], c);
    }
  }

  lemma {:induction false} SubtreesInClosure(es: seq<Entry>, n: Node)
    requires n in SubtreesOf(es)
    ensures TreeClosure(n) <= EntriesClosure(es)
  {
    if n in SubtreesOf(es[1..]) {
      SubtreesInClosure(es[1..], n);
    } else if n != es[0].child {
      SubtreesInClosure(es[0].child.entries, n);
    }
  }

  lemma TreesInClosure(root: Node, n: Node)
    requires n in TreesUnder(root)
    ensures TreeClosure(n) <= TreeClosure(root)
  {
    if n != root {
      SubtreesInClosure(root.entries, n);
    }
  }

  /** Readable nodes of `seen` have their subtrees seen, or about to be. */
  ghost predicate Downward(store: set<Object>, seen: set<Node>, stack: seq<Node>) {
    forall n, c :: n in seen && TreeObject(n) in store && PointsAt(n.entries, c) ==> c in seen || c in stack
  }

  /** The subtrees of a node, in the order that the stack takes them. */
  function Children(es: seq<Entry>): seq<Node> {
    if es == [] then [] else Children(es[1..]) + if es[0].File? then [] else [es[0].child]
  }

  lemma {:induction false} ChildrenSpec(es: seq<Entry>, c: Node)
    ensures c in Children(es) <==> PointsAt(es, c)
  {
    if es != [] {
      ChildrenSpec(es[1..], c);
      assert forall e :: e in es <==> e == es[0] || e in es[1..];
    }
  }

  /** What a tree walk keeps. */
  ghost predicate TreeWalk(store: set<Object>, root: Node, before: set<Node>, seen: set<Node>, stack: seq<Node>) {
    && before <= seen <= before + TreesUnder(root)
    && (forall n :: n in stack ==> n in TreesUnder(root))
    && (root in seen || root in stack)
    && (Downward(store, before, []) ==> Downward(store, seen, stack))
  }

  lemma TreeStep(store: set<Object>, root: Node, before: set<Node>, seen: set<Node>, stack: seq<Node>)
    requires TreeWalk(store, root, before, seen, stack) && stack != []
    ensures var n, rest := stack[|stack| - 1], stack[..|stack| - 1];
      && n in TreesUnder(root)
      && (n in seen ==> TreeWalk(store, root, before, seen, rest))
      && (n !in seen && TreeObject(n) !in store ==> TreeWalk(store, root, before, seen + {n}, rest))
      && (n !in seen && TreeObject(n) in store ==>
            TreeWalk(store, root, before, seen + {n}, rest + Children(n.entries)))
  {
    var n, rest := stack[|stack| - 1], stack[..|stack| - 1];
    assert stack == rest + [n] && n in stack && n in TreesUnder(root);
    assert forall x :: x in stack <==> x in rest || x == n;
    forall c ensures c in Children(n.entries) <==> PointsAt(n.entries, c) {
      ChildrenSpec(n.entries, c);
    }
    forall c | PointsAt(n.entries, c) ensures c in TreesUnder(root) {
      if n == root {
        DirectSubtree(root.entries, c);
      } else {
        SubtreesTransitive(root.entries, n, c);
      }
    }
    hide PointsAt, SubtreesOf, Children;
  }

  /** `iter_tree_hashes` with a shared set of seen nodes. */
  method WalkTrees(store: set<Object>, root: Node, before: set<Node>) returns (seen: set<Node>)
    ensures before <= seen <= before + TreesUnder(root) && root in seen
    ensures Downward(store, before, []) ==> Downward(store, seen, [])
  {
    seen := before;
    var stack := [root];
    assert TreeWalk(store, root, before, seen, stack);
    hide TreesUnder, Downward, Children;
    while stack != []
      invariant TreeWalk(store, root, before, seen, stack)
      decreases |before + TreesUnder(root) - seen|, |stack|
    {
      var n := stack[|stack| - 1];
      TreeStep(store, root, before, seen, stack);
      stack := stack[..|stack| - 1];
      if n !in seen {
        SmallerRest(seen, seen + {n}, before + TreesUnder(root));
        seen := seen + {n};
        if TreeObject(n) in store {
          stack := stack + Children(n.entries);
        }
      }
    }
  }

  // ---- Nodes a client knows from reading ------------------------------------

  function SubtreesHere(es: seq<Entry>): set<Node> {
    set e | e in es && !e.File? :: e.child
  }

  /** What `resolve_directory` lets a client know of the directory at `d`: its node and the
      subtrees and shards that it points at. */
  function KnownAt(root: Node, d: Path): set<Node> {
    var dir := DirAt(root.entries, d);
    if dir.Some? then {dir.value} + SubtreesHere(dir.value.entries) else {}
  }

  lemma {:induction false} ChildUnder(es: seq<Entry>, n: Name)
    requires Child(es, n).Some? && Child(es, n).value.Dir?
    ensures Child(es, n).value.child in SubtreesOf(es)
    ensures SubtreesOf(Child(es, n).value.child.entries) <= SubtreesOf(es)
  {
    if es[0].Shard? && Child(es[0].child.entries, n).Some? {
      ChildUnder(es[0].child.entries, n);
    } else if es[0].Shard? || es[0].name != n {
      ChildUnder(es[1..], n);
    }
  }

  lemma {:induction false} DirUnder(root: Node, d: Path)
    requires DirAt(root.entries, d).Some?
    ensures TreesUnder(DirAt(root.entries, d).value) <= TreesUnder(root)
    decreases |d|
  {
    if d != [] {
      var child := Child(root.entries, d[0]).value.child;
      ChildUnder(root.entries, d[0]);
      DirUnder(child, d[1..]);
    }
  }

  /** All of it belongs to the tree that was read. */
  lemma KnownIsUnder(root: Node, d: Path)
    ensures KnownAt(root, d) <= TreesUnder(root)
  {
    var dir := DirAt(root.entries, d);
    if dir.Some? {
      DirUnder(root, d);
      forall n | n in SubtreesHere(dir.value.entries) ensures n in SubtreesOf(dir.value.entries) {
        assert PointsAt(dir.value.entries, n);
        DirectSubtree(dir.value.entries, n);
      }
    }
  }

  /** What the writers pass as known is of this kind: the node of a directory, each side's
      node in a merge, a shard, and a node with all it points at. */
  lemma PassedIsKnown(root: Node, d: Path, node: Node, e: Entry)
    requires DirAt(root.entries, d) == Some(node)
    ensures {node} <= KnownAt(root, d)
    ensures e in node.entries && !e.File? ==> {e.child} <= KnownAt(root, d) && TreeObject(e.child) in TreeClosure(root)
    ensures TreeObject(node) in TreeClosure(root)
  {
    KnownInClosure(root, d, node);
    assert TreeObject(node) in TreeClosure(node);
    if e in node.entries && !e.File? {
      assert e.child in SubtreesHere(node.entries);
      KnownInClosure(root, d, e.child);
      assert TreeObject(e.child) in TreeClosure(e.child);
    }
  }

  /** A store that holds the tree's closure holds the known nodes. */
  lemma KnownInClosure(root: Node, d: Path, n: Node)
    requires n in KnownAt(root, d)
    ensures TreeClosure(n) <= TreeClosure(root)
  {
    KnownIsUnder(root, d);
    TreesInClosure(root, n);
  }

  // ---- Leaf references ------------------------------------------------------

  function FileRefs(es: seq<Entry>): set<Object> {
    if es == [] then {} else (if es[0].File? then LeafRefs(es[0].leaf) else {}) + FileRefs(es[1..])
  }

  lemma {:induction false} FileRefsInClosure(es: seq<Entry>)
    ensures FileRefs(es) <= EntriesClosure(es)
  {
    if es != [] {
      FileRefsInClosure(es[1..]);
    }
  }

  lemma {:induction false} FileRefsSnoc(es: seq<Entry>, e: Entry)
    ensures FileRefs(es + [e]) == FileRefs(es) + if e.File? then LeafRefs(e.leaf) else {}
  {
    if es == [] {
      assert es + [e] == [e] && [e][1..] == [];
    } else {
      assert (es + [e])[0] == es[0] && (es + [e])[1..] == es[1..] + [e];
      FileRefsSnoc(es[1..], e);
    }
  }

  lemma {:induction false} RefsSplit(es: seq<Entry>, o: Object)
    requires o in EntriesRefs(es)
    ensures o in FileRefs(es) || (o.TreeObject? && PointsAt(es, o.node))
  {
    if o in EntriesRefs(es[1..]) {
      RefsSplit(es[1..], o);
      if o.TreeObject? && PointsAt(es[1..], o.node) {
        var e :| e in es[1..] && !e.File? && e.child == o.node;
        assert e in es;
      }
    } else if !es[0].File? {
      assert es[0] in es;
    }
  }

  /** The readable ones among `trees` have their leaf references in `refs`. */
  ghost predicate Harvested(store: set<Object>, trees: set<Node>, refs: set<Object>) {
    forall n :: n in trees && TreeObject(n) in store ==> FileRefs(n.entries) <= refs
  }

  /** The leaf references of one node, blob first, then footer. */
  method HarvestNode(es: seq<Entry>) returns (refs: set<Object>)
    ensures refs == FileRefs(es)
  {
    refs := {};
    for i := 0 to |es|
      invariant refs == FileRefs(es[..i])
    {
      FileRefsSnoc(es[..i], es[i]);
      assert es[..i + 1] == es[..i] + [es[i]];
      if es[i].File? {
        if ContentKind(es[i].leaf.kind) {
          refs := refs + {BlobObject(es[i].leaf.hash)};
        }
        if es[i].leaf.footer.Some? {
          refs := refs + {FooterObject(es[i].leaf.footer.value)};
        }
      }
    }
    assert es[..|es|] == es;
  }

  /** The second pass over the unique tree nodes. */
  method HarvestLeaves(store: set<Object>, trees: set<Node>) returns (refs: set<Object>)
    ensures Harvested(store, trees, refs)
    ensures forall o :: o in refs ==> exists n :: n in trees && o in FileRefs(n.entries)
  {
    refs := {};
    var rest := trees;
    while rest != {}
      invariant rest <= trees
      invariant Harvested(store, trees - rest, refs)
      invariant forall o :: o in refs ==> exists n :: n in trees && o in FileRefs(n.entries)
      decreases |rest|
    {
      var n :| n in rest;
      if TreeObject(n) in store {
        var found := HarvestNode(n.entries);
        refs := refs + found;
      }
      rest := rest - {n};
    }
    assert trees - {} == trees;
  }

  // ---- Commits below a head -------------------------------------------------

  function CommitsUnder(c: Commit): set<Commit> {
    {c} + CommitsOf(c.parents)
  }

  function CommitsOf(ps: seq<Commit>): set<Commit> {
    if ps == [] then {} else CommitsUnder(ps[0]) + CommitsOf(ps[1..])
  }

  lemma {:induction false} ParentsUnder(c: Commit, x: Commit, p: Commit)
    requires x in CommitsUnder(c) && p in x.parents
    ensures p in CommitsUnder(c)
    decreases c, 1
  {
    if x == c {
      OwnParents(c.parents, p);
    } else {
      ParentsOf(c.parents, x, p);
    }
  }

  lemma {:induction false} ParentsOf(ps: seq<Commit>, x: Commit, p: Commit)
    requires x in CommitsOf(ps) && p in x.parents
    ensures p in CommitsOf(ps)
    decreases ps, 0
  {
    if x in CommitsUnder(ps[0]) {
      ParentsUnder(ps[0], x, p);
    } else {
      ParentsOf(ps[1..], x, p);
    }
  }

  lemma {:induction false} OwnParents(ps: seq<Commit>, p: Commit)
    requires p in ps
    ensures p in CommitsOf(ps)
  {
    if p != ps[0] {
      OwnParents(ps[1..], p);
    }
  }

  lemma {:induction false} CommitsInClosure(c: Commit, x: Commit)
    requires x in CommitsUnder(c)
    ensures CommitObject(x) in CommitClosure(c) && TreeClosure(x.tree) <= CommitClosure(c)
    decreases c, 1
  {
    if x != c {
      CommitsOfInClosure(c.parents, x);
    }
  }

  lemma {:induction false} CommitsOfInClosure(ps: seq<Commit>, x: Commit)
    requires x in CommitsOf(ps)
    ensures CommitObject(x) in ParentsClosure(ps) && TreeClosure(x.tree) <= ParentsClosure(ps)
    decreases ps, 0
  {
    if x in CommitsUnder(ps[0]) {
      CommitsInClosure(ps[0], x);
    } else {
      CommitsOfInClosure(ps[1..], x);
    }
  }

  /** Commits of `done` have their parents done, or about to be. */
  ghost predicate ParentsMet(done: set<Commit>, stack: seq<Commit>) {
    forall c, p :: c in done && p in c.parents ==> p in done || p in stack
  }

  lemma {:induction false} AllCollected(head: Commit, reachable: set<Commit>, c: Commit)
    requires ParentsMet(reachable, []) && c in reachable
    ensures CommitsUnder(c) <= reachable
    decreases c, 1
  {
    AllParentsCollected(reachable, c.parents);
  }

  lemma {:induction false} AllParentsCollected(reachable: set<Commit>, ps: seq<Commit>)
    requires ParentsMet(reachable, []) && forall p :: p in ps ==> p in reachable
    ensures CommitsOf(ps) <= reachable
    decreases ps, 0
  {
    if ps != [] {
      AllCollected(ps[0], reachable, ps[0]);
      AllParentsCollected(reachable, ps[1..]);
    }
  }

  // ---- What a complete walk amounts to --------------------------------------

  ghost function Gathered(commits: set<Commit>, trees: set<Node>, refs: set<Object>): set<Object> {
    (set c | c in commits :: CommitObject(c)) + (set n | n in trees :: TreeObject(n)) + refs
  }

  ghost predicate OnlyLeafRefs(refs: set<Object>) {
    forall o :: o in refs ==> o.BlobObject? || o.FooterObject?
  }

  lemma {:induction false} FileRefsAreLeaves(es: seq<Entry>)
    ensures OnlyLeafRefs(FileRefs(es))
  {
    if es != [] {
      FileRefsAreLeaves(es[1..]);
    }
  }

  /** Commits with their parents and trees, trees with their subtrees and leaves: closed. */
  lemma WalkedIsClosed(store: set<Object>, commits: set<Commit>, trees: set<Node>, refs: set<Object>)
    requires ParentsMet(commits, []) && Downward(store, trees, []) && Harvested(store, trees, refs)
    requires (forall c :: c in commits ==> c.tree in trees) && (forall n :: n in trees ==> TreeObject(n) in store)
    requires OnlyLeafRefs(refs)
    ensures Closed(Gathered(commits, trees, refs))
  {
    var all := Gathered(commits, trees, refs);
    forall o, r | o in all && r in Refs(o) ensures r in all {
      match o
      case TreeObject(n) =>
        RefsSplit(n.entries, r);
      case _ =>
    }
  }
}
