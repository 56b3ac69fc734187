/** The object graph: blobs, footers, tree nodes and commits, each named by its content. */
module Objects {
  import opened Paths
  import opened Trees

  /** A commit is named by message, tree and parents alone; the parents' ids are part of
      its own, so here they are part of its value. */
  datatype Commit = Commit(message: string, tree: Node, parents: seq<Commit>)

  datatype Object = BlobObject(hash: Hash) | FooterObject(hash: Hash) | TreeObject(node: Node) | CommitObject(commit: Commit)

  /** The objects a leaf points at: its blob in content mode, and its footer. */
  function LeafRefs(l: Leaf): set<Object> {
    (if ContentKind(l.kind) then {BlobObject(l.hash)} else {}) +
    (if l.footer.Some? then {FooterObject(l.footer.value)} else {})
  }

  function EntryRefs(e: Entry): set<Object> {
    if e.File? then LeafRefs(e.leaf) else {TreeObject(e.child)}
  }

  function EntriesRefs(es: seq<Entry>): set<Object> {
    if es == [] then {} else EntryRefs(es[0]) + EntriesRefs(es[1..])
  }

  /** What an object points at directly. */
  function Refs(o: Object): set<Object> {
    match o
    case BlobObject(_) => {}
    case FooterObject(_) => {}
    case TreeObject(node) => EntriesRefs(node.entries)
    case CommitObject(c) => {TreeObject(c.tree)} + set p | p in c.parents :: CommitObject(p)
  }

  // ---- Everything an object needs -------------------------------------------

  function EntriesClosure(es: seq<Entry>): set<Object> {
    if es == [] then {}
    else
      (if es[0].File? then LeafRefs(es[0].leaf)
       else {TreeObject(es[0].child)} + EntriesClosure(es[0].child.entries))
      + EntriesClosure(es[1..])
  }

  function TreeClosure(node: Node): set<Object> {
    {TreeObject(node)} + EntriesClosure(node.entries)
  }

  function CommitClosure(c: Commit): set<Object> {
    {CommitObject(c)} + TreeClosure(c.tree) + ParentsClosure(c.parents)
  }

  function ParentsClosure(ps: seq<Commit>): set<Object> {
    if ps == [] then {} else CommitClosure(ps[0]) + ParentsClosure(ps[1..])
  }

  function Closure(o: Object): set<Object> {
    match o
    case BlobObject(_) => {o}
    case FooterObject(_) => {o}
    case TreeObject(node) => TreeClosure(node)
    case CommitObject(c) => CommitClosure(c)
  }

  /** A store in which everything an object points at is there as well. */
  ghost predicate Closed(store: set<Object>) {
    forall o :: o in store ==> Refs(o) <= store
  }

  lemma {:induction false} EntriesInside(store: set<Object>, es: seq<Entry>)
    requires Closed(store) && EntriesRefs(es) <= store
    ensures EntriesClosure(es) <= store
  {
    if es != [] {
      if !es[0].File? {
        assert TreeObject(es[0].child) in store;
        EntriesInside(store, es[0].child.entries);
      }
      EntriesInside(store, es[1..]);
    }
  }

  lemma {:induction false} CommitInside(store: set<Object>, c: Commit)
    requires Closed(store) && CommitObject(c) in store
    ensures CommitClosure(c) <= store
    decreases c, 1
  {
    assert Refs(CommitObject(c)) <= store;
    assert TreeObject(c.tree) in store;
    EntriesInside(store, c.tree.entries);
    ParentsInside(store, c.parents);
  }

  lemma {:induction false} ParentsInside(store: set<Object>, ps: seq<Commit>)
    requires Closed(store) && forall p :: p in ps ==> CommitObject(p) in store
    ensures ParentsClosure(ps) <= store
    decreases ps, 0
  {
    if ps != [] {
      CommitInside(store, ps[0]);
      ParentsInside(store, ps[1..]);
    }
  }

  /** A closed store holds whatever its objects need. */
  lemma ClosureInside(store: set<Object>, o: Object)
    requires Closed(store) && o in store
    ensures Closure(o) <= store
  {
    match o
    case TreeObject(node) => EntriesInside(store, node.entries);
    case CommitObject(c) => CommitInside(store, c);
    case _ =>
  }

  lemma {:induction false} EntriesClosed(es: seq<Entry>)
    ensures EntriesRefs(es) <= EntriesClosure(es)
    ensures Closed(EntriesClosure(es))
  {
    if es != [] {
      if !es[0].File? {
        EntriesClosed(es[0].child.entries);
      }
      EntriesClosed(es[1..]);
    }
  }

  lemma {:induction false} CommitClosed(c: Commit)
    ensures Closed(CommitClosure(c))
    decreases c, 1
  {
    EntriesClosed(c.tree.entries);
    ParentsClosed(c.parents);
  }

  lemma {:induction false} ParentsClosed(ps: seq<Commit>)
    ensures Closed(ParentsClosure(ps))
    ensures forall p :: p in ps ==> CommitObject(p) in ParentsClosure(ps)
    decreases ps, 0
  {
    if ps != [] {
      CommitClosed(ps[0]);
      ParentsClosed(ps[1..]);
    }
  }

  // ---- Ancestors ------------------------------------------------------------

  ghost predicate Ancestor(a: Commit, d: Commit)
    decreases d
  {
    a == d || exists p :: p in d.parents && Ancestor(a, p)
  }

  function Depth(c: Commit): nat {
    1 + MaxDepth(c.parents)
  }

  function MaxDepth(ps: seq<Commit>): nat {
    if ps == [] then 0
    else
      var first, rest := Depth(ps[0]), MaxDepth(ps[1..]);
      if first < rest then rest else first
  }

  lemma {:induction false} ParentDepth(ps: seq<Commit>, p: Commit)
    requires p in ps
    ensures Depth(p) <= MaxDepth(ps)
  {
    if p != ps[0] {
      ParentDepth(ps[1..], p);
    }
  }

  lemma {:induction false} AncestorDepth(a: Commit, d: Commit)
    requires Ancestor(a, d)
    ensures a == d || Depth(a) < Depth(d)
    decreases d
  {
    if a != d {
      var p :| p in d.parents && Ancestor(a, p);
      AncestorDepth(a, p);
      ParentDepth(d.parents, p);
    }
  }

  lemma {:induction false} AncestorTransitive(a: Commit, b: Commit, c: Commit)
    requires Ancestor(a, b) && Ancestor(b, c)
    ensures Ancestor(a, c)
    decreases c
  {
    if b != c {
      var p :| p in c.parents && Ancestor(b, p);
      AncestorTransitive(a, b, p);
    }
  }

  lemma AncestorAntisymmetric(a: Commit, b: Commit)
    requires Ancestor(a, b) && Ancestor(b, a)
    ensures a == b
  {
    AncestorDepth(a, b);
    AncestorDepth(b, a);
  }

  /** The parents of a commit made on top of `head`. */
  function ParentsOn(head: Option<Commit>): seq<Commit> {
    if head.Some? then [head.value] else []
  }
}
