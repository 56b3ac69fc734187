/** Commit histories: generations, ancestry with generation pruning, and the merge base. */
module CommitDag {
  import opened Paths
  import opened Sets

  type Id = string

  /** A commit's parents, and its generation unless it was written before these were stored. */
  datatype Commit = Commit(parents: seq<Id>, generation: Option<nat>)

  /** The commits that can be read; a partial history lacks some parents. */
  type History = map<Id, Commit>

  /** An id is computed from the parents' ids, so parents come before their children
      in some order. */
  ghost predicate Ranked(h: History, rank: Id -> nat) {
    forall c, p :: c in h && p in h[c].parents ==> rank(p) < rank(c)
  }

  // ---- Generations ----------------------------------------------------------

  /** The stored generation, or else the one derived from the parents. */
  ghost function Gen(h: History, rank: Id -> nat, id: Id): nat
    requires Ranked(h, rank)
    decreases rank(id), if id in h then |h[id].parents| + 1 else 0
  {
    if id !in h then 0
    else if h[id].generation.Some? then h[id].generation.value
    else if h[id].parents == [] then 0
    else 1 + MaxGen(h, rank, h[id].parents, rank(id))
  }

  ghost function MaxGen(h: History, rank: Id -> nat, ps: seq<Id>, bound: nat): nat
    requires Ranked(h, rank) && forall p :: p in ps ==> rank(p) < bound
    decreases bound, |ps|
  {
    if ps == [] then 0
    else
      var first, rest := Gen(h, rank, ps[0]), MaxGen(h, rank, ps[1..], bound);
      if first < rest then rest else first
  }

  /** Along every edge between known commits the generation goes up. */
  ghost predicate Increasing(h: History, rank: Id -> nat)
    requires Ranked(h, rank)
  {
    forall c, p :: c in h && p in h && p in h[c].parents ==> Gen(h, rank, p) < Gen(h, rank, c)
  }

  lemma {:induction false} MaxGenBound(h: History, rank: Id -> nat, ps: seq<Id>, bound: nat, p: Id)
    requires Ranked(h, rank) && (forall q :: q in ps ==> rank(q) < bound) && p in ps
    ensures Gen(h, rank, p) <= MaxGen(h, rank, ps, bound)
  {
    if p != ps[0] {
      MaxGenBound(h, rank, ps[1..], bound, p);
    }
  }

  lemma {:induction false} MaxGenSnoc(h: History, rank: Id -> nat, ps: seq<Id>, bound: nat, p: Id)
    requires Ranked(h, rank) && forall q :: q in ps + [p] ==> rank(q) < bound
    requires forall q :: q in ps ==> rank(q) < bound
    ensures MaxGen(h, rank, ps + [p], bound) ==
            if MaxGen(h, rank, ps, bound) < Gen(h, rank, p) then Gen(h, rank, p) else MaxGen(h, rank, ps, bound)
  {
    if ps == [] {
      assert ps + [p] == [p] && [p][1..] == [];
    } else {
      assert (ps + [p])[0] == ps[0] && (ps + [p])[1..] == ps[1..] + [p];
      MaxGenSnoc(h, rank, ps[1..], bound, p);
    }
  }

  /** Where a generation is derived it exceeds those of the parents; so it is enough
      that the stored ones do. */
  lemma DerivedIncrease(h: History, rank: Id -> nat)
    requires Ranked(h, rank)
    requires forall c, p :: c in h && p in h && p in h[c].parents && h[c].generation.Some? ==>
      Gen(h, rank, p) < h[c].generation.value
    ensures Increasing(h, rank)
  {
    forall c, p | c in h && p in h && p in h[c].parents ensures Gen(h, rank, p) < Gen(h, rank, c) {
      if h[c].generation.None? {
        MaxGenBound(h, rank, h[c].parents, rank(c), p);
      }
    }
  }

  // ---- Writing a commit -----------------------------------------------------

  /** The new commit is no one's parent yet. */
  ghost predicate Fresh(h: History, id: Id) {
    id !in h && forall c :: c in h ==> id !in h[c].parents
  }

  lemma {:induction false} GenStays(h: History, rank: Id -> nat, id: Id, commit: Commit, x: Id)
    requires Ranked(h, rank) && Ranked(h[id := commit], rank) && Fresh(h, id) && x != id
    ensures Gen(h[id := commit], rank, x) == Gen(h, rank, x)
    decreases rank(x), if x in h then |h[x].parents| + 1 else 0
  {
    if x in h && h[x].generation.None? && h[x].parents != [] {
      MaxGenStays(h, rank, id, commit, h[x].parents, rank(x));
    }
  }

  lemma {:induction false} MaxGenStays(h: History, rank: Id -> nat, id: Id, commit: Commit, ps: seq<Id>, bound: nat)
    requires Ranked(h, rank) && Ranked(h[id := commit], rank) && Fresh(h, id) && id !in ps
    requires forall p :: p in ps ==> rank(p) < bound
    ensures MaxGen(h[id := commit], rank, ps, bound) == MaxGen(h, rank, ps, bound)
    decreases bound, |ps|
  {
    if ps != [] {
      GenStays(h, rank, id, commit, ps[0]);
      MaxGenStays(h, rank, id, commit, ps[1..], bound);
    }
  }

  /** The generation `write_commit_object` stores: one above the highest parent. */
  ghost function NextGeneration(h: History, rank: Id -> nat, id: Id, ps: seq<Id>): nat
    requires Ranked(h, rank) && forall p :: p in ps ==> rank(p) < rank(id)
  {
    if ps == [] then 0 else 1 + MaxGen(h, rank, ps, rank(id))
  }

  /** A commit written with that generation keeps generations going up along every edge. */
  lemma NewCommitIncreases(h: History, rank: Id -> nat, id: Id, ps: seq<Id>)
    requires Ranked(h, rank) && Increasing(h, rank) && Fresh(h, id)
    requires forall p :: p in ps ==> rank(p) < rank(id)
    ensures var h' := h[id := Commit(ps, Some(NextGeneration(h, rank, id, ps)))];
      Ranked(h', rank) && Increasing(h', rank)
  {
    var commit := Commit(ps, Some(NextGeneration(h, rank, id, ps)));
    var h' := h[id := commit];
    assert Ranked(h', rank);
    forall c, p | c in h' && p in h' && p in h'[c].parents ensures Gen(h', rank, p) < Gen(h', rank, c) {
      assert p != id;
      GenStays(h, rank, id, commit, p);
      if c == id {
        MaxGenBound(h, rank, ps, rank(id), p);
      } else {
        GenStays(h, rank, id, commit, c);
      }
    }
  }

  /** `_GenerationProvider`: generations computed once and remembered. */
  class GenerationProvider {
    const h: History
    ghost const rank: Id -> nat
    var memo: map<Id, nat>

    ghost predicate Valid()
      reads this
    {
      Ranked(h, rank) && forall id :: id in memo ==> memo[id] == Gen(h, rank, id)
    }

    constructor (h: History, ghost rank: Id -> nat)
      requires Ranked(h, rank)
      ensures Valid() && this.h == h && this.rank == rank
    {
      this.h, this.rank, this.memo := h, rank, map[];
    }

    method Of(id: Id) returns (g: nat)
      requires Valid()
      modifies this
      ensures Valid() && g == Gen(h, rank, id) && id in memo
      ensures forall k :: k in old(memo) ==> k in memo
      decreases rank(id)
    {
      if id in memo {
        return memo[id];
      }
      if id !in h {
        memo := memo[id := 0];
        return 0;
      }
      var commit := h[id];
      if commit.generation.Some? {
        g := commit.generation.value;
      } else {
        g := 0;
        var ps := commit.parents;
        for i := 0 to |ps|
          invariant Valid()
          invariant forall q :: q in ps[..i] ==> rank(q) < rank(id)
          invariant i == 0 ==> g == 0
          invariant 0 < i ==> g == 1 + MaxGen(h, rank, ps[..i], rank(id))
          invariant forall k :: k in old(memo) ==> k in memo
        {
          assert ps[..i + 1] == ps[..i] + [ps[i]];
          MaxGenSnoc(h, rank, ps[..i], rank(id), ps[i]);
          var of := Of(ps[i]);
          g := if g < 1 + of then 1 + of else g;
        }
        assert ps[..|ps|] == ps;
      }
      memo := memo[id := g];
    }
  }

  // ---- Ancestry -------------------------------------------------------------

  /** `x` is `d` itself or an ancestor found by reading known commits. */
  ghost predicate Reaches(h: History, rank: Id -> nat, d: Id, x: Id)
    requires Ranked(h, rank)
    decreases rank(d)
  {
    d == x || (d in h && exists p :: p in h[d].parents && Reaches(h, rank, p, x))
  }

  lemma {:induction false} ReachesTransitive(h: History, rank: Id -> nat, d: Id, x: Id, y: Id)
    requires Ranked(h, rank) && Reaches(h, rank, d, x) && Reaches(h, rank, x, y)
    ensures Reaches(h, rank, d, y)
    decreases rank(d)
  {
    if d != x {
      var p :| p in h[d].parents && Reaches(h, rank, p, x);
      ReachesTransitive(h, rank, p, x, y);
    }
  }

  /** A known proper ancestor has a smaller generation. */
  lemma {:induction false} AncestorsAreOlder(h: History, rank: Id -> nat, d: Id, x: Id)
    requires Ranked(h, rank) && Increasing(h, rank) && Reaches(h, rank, d, x) && d != x && x in h
    ensures Gen(h, rank, x) < Gen(h, rank, d)
    decreases rank(d)
  {
    var p :| p in h[d].parents && Reaches(h, rank, p, x);
    if p != x {
      AncestorsAreOlder(h, rank, p, x);
    }
  }

  /** The commits a walk could ever meet. */
  ghost function Universe(h: History, starts: set<Id>): set<Id> {
    starts + h.Keys + set c, p | c in h && p in h[c].parents :: p
  }

  /** Every commit taken from the stack is no way to `a`, or has its parents seen. */
  ghost predicate Searched(h: History, rank: Id -> nat, a: Id, seen: set<Id>, stack: seq<Id>)
    requires Ranked(h, rank)
  {
    && (forall c :: c in stack ==> c in seen)
    && (forall c :: c in seen && c !in stack && Reaches(h, rank, c, a) ==>
          c != a && c in h && forall p :: p in h[c].parents ==> p in seen)
  }

  lemma {:induction false} NothingFound(h: History, rank: Id -> nat, a: Id, seen: set<Id>, c: Id)
    requires Ranked(h, rank) && Searched(h, rank, a, seen, []) && c in seen
    ensures !Reaches(h, rank, c, a)
    decreases rank(c)
  {
    if Reaches(h, rank, c, a) {
      var p :| p in h[c].parents && Reaches(h, rank, p, a);
      NothingFound(h, rank, a, seen, p);
    }
  }

  /** The state of the search: commits met so far, all of them ancestors of `descendant`. */
  ghost predicate Searching(h: History, rank: Id -> nat, descendant: Id, ancestor: Id, seen: set<Id>, stack: seq<Id>)
    requires Ranked(h, rank)
  {
    && Searched(h, rank, ancestor, seen, stack)
    && seen <= Universe(h, {descendant}) && descendant in seen
    && (forall c :: c in seen ==> Reaches(h, rank, descendant, c))
  }

  /** The same while the first `i` parents of `id`, just taken from the stack, are pushed. */
  ghost predicate Pushing(h: History, rank: Id -> nat, descendant: Id, ancestor: Id, id: Id, i: nat, seen: set<Id>, stack: seq<Id>)
    requires Ranked(h, rank)
  {
    && id in h && id != ancestor && i <= |h[id].parents| && id in seen
    && Searching(h, rank, descendant, ancestor, seen, stack + [id])
    && forall p :: p in h[id].parents[..i] ==> p in seen
  }

  lemma SearchBegins(h: History, rank: Id -> nat, descendant: Id, ancestor: Id)
    requires Ranked(h, rank)
    ensures Searching(h, rank, descendant, ancestor, {descendant}, [descendant])
  {
  }

  /** A commit that is no way to the ancestor can be dropped. */
  lemma Dropped(h: History, rank: Id -> nat, descendant: Id, ancestor: Id, seen: set<Id>, stack: seq<Id>, id: Id)
    requires Ranked(h, rank) && Searching(h, rank, descendant, ancestor, seen, stack + [id])
    requires !Reaches(h, rank, id, ancestor)
    ensures Searching(h, rank, descendant, ancestor, seen, stack)
  {
    assert forall c :: c in stack ==> c in stack + [id];
    hide Reaches;
  }

  lemma PushingBegins(h: History, rank: Id -> nat, descendant: Id, ancestor: Id, seen: set<Id>, stack: seq<Id>, id: Id)
    requires Ranked(h, rank) && Searching(h, rank, descendant, ancestor, seen, stack + [id])
    requires id in h && id != ancestor
    ensures Pushing(h, rank, descendant, ancestor, id, 0, seen, stack)
  {
    assert id in stack + [id];
    hide Reaches;
  }

  lemma PushedParent(h: History, rank: Id -> nat, descendant: Id, ancestor: Id, seen: set<Id>, stack: seq<Id>, id: Id, i: nat)
    requires Ranked(h, rank) && Pushing(h, rank, descendant, ancestor, id, i, seen, stack)
    requires i < |h[id].parents|
    ensures var p := h[id].parents[i];
      if p in seen then Pushing(h, rank, descendant, ancestor, id, i + 1, seen, stack)
      else p in Universe(h, {descendant}) && Pushing(h, rank, descendant, ancestor, id, i + 1, seen + {p}, stack + [p])
  {
    var ps := h[id].parents;
    var p := ps[i];
    assert p in ps && ps[..i + 1] == ps[..i] + [p];
    assert Reaches(h, rank, p, p) && Reaches(h, rank, id, p);
    ReachesTransitive(h, rank, descendant, id, p);
    hide Reaches;
    assert forall c :: c in stack + [p] + [id] <==> c in stack + [id] || c == p;
  }

  lemma PushingEnds(h: History, rank: Id -> nat, descendant: Id, ancestor: Id, seen: set<Id>, stack: seq<Id>, id: Id)
    requires Ranked(h, rank) && id in h && Pushing(h, rank, descendant, ancestor, id, |h[id].parents|, seen, stack)
    ensures Searching(h, rank, descendant, ancestor, seen, stack)
  {
    assert h[id].parents[..|h[id].parents|] == h[id].parents;
    assert forall c :: c in stack + [id] <==> c in stack || c == id;
    hide Reaches;
  }

  lemma SearchEnds(h: History, rank: Id -> nat, descendant: Id, ancestor: Id, seen: set<Id>)
    requires Ranked(h, rank) && Searching(h, rank, descendant, ancestor, seen, [])
    ensures !Reaches(h, rank, descendant, ancestor)
  {
    NothingFound(h, rank, ancestor, seen, descendant);
  }

  lemma StackTop(h: History, rank: Id -> nat, descendant: Id, ancestor: Id, seen: set<Id>, stack: seq<Id>)
    requires Ranked(h, rank) && Searching(h, rank, descendant, ancestor, seen, stack) && stack != []
    ensures seen <= Universe(h, {descendant}) && Reaches(h, rank, descendant, stack[|stack| - 1])
    ensures stack[..|stack| - 1] + [stack[|stack| - 1]] == stack
  {
    hide Reaches;
  }

  /** Too old to be on a way to the ancestor, or unknown. */
  lemma NoWay(h: History, rank: Id -> nat, id: Id, ancestor: Id)
    requires Ranked(h, rank) && Increasing(h, rank) && id != ancestor
    requires id !in h || (ancestor in h && Gen(h, rank, id) <= Gen(h, rank, ancestor))
    ensures !Reaches(h, rank, id, ancestor)
  {
    if id in h && Reaches(h, rank, id, ancestor) {
      AncestorsAreOlder(h, rank, id, ancestor);
    }
  }

  /** `is_ancestor_commit`: true exactly when the ancestor is reachable through known
      commits, although the walk skips what is too old. */
  method IsAncestor(h: History, ancestor: Id, descendant: Id, ghost rank: Id -> nat) returns (r: bool)
    requires Ranked(h, rank) && Increasing(h, rank)
    ensures r <==> Reaches(h, rank, descendant, ancestor)
  {
    if ancestor == descendant {
      return true;
    }
    var generations := new GenerationProvider(h, rank);
    var target: int := -1;
    if ancestor in h {
      target := generations.Of(ancestor);
    }
    var seen, stack := {descendant}, [descendant];
    SearchBegins(h, rank, descendant, ancestor);
    hide Reaches, Searching, Universe, Increasing, Gen;
    while stack != []
      invariant generations.Valid() && generations.h == h && generations.rank == rank
      invariant Searching(h, rank, descendant, ancestor, seen, stack)
      decreases |Universe(h, {descendant}) - seen|, |stack|
    {
      StackTop(h, rank, descendant, ancestor, seen, stack);
      var id := stack[|stack| - 1];
      stack := stack[..|stack| - 1];
      if id == ancestor {
        return true;
      }
      if id !in h {
        NoWay(h, rank, id, ancestor);
        Dropped(h, rank, descendant, ancestor, seen, stack, id);
        continue;
      }
      var generation := generations.Of(id);
      if 0 < generation <= target {
        NoWay(h, rank, id, ancestor);
        Dropped(h, rank, descendant, ancestor, seen, stack, id);
        continue;
      }
      seen, stack := PushParents(h, id, seen, stack, ancestor, descendant, rank);
    }
    SearchEnds(h, rank, descendant, ancestor, seen);
    return false;
  }

  /** Pushes the parents of `id` that were not seen yet. */
  method PushParents(h: History, id: Id, seen: set<Id>, stack: seq<Id>,
      ghost ancestor: Id, ghost descendant: Id, ghost rank: Id -> nat)
    returns (seen': set<Id>, stack': seq<Id>)
    requires Ranked(h, rank) && id in h && id != ancestor && seen <= Universe(h, {descendant})
    requires Searching(h, rank, descendant, ancestor, seen, stack + [id])
    ensures Searching(h, rank, descendant, ancestor, seen', stack')
    ensures |Universe(h, {descendant}) - seen'| < |Universe(h, {descendant}) - seen| || (seen' == seen && stack' == stack)
  {
    var ps := h[id].parents;
    seen', stack' := seen, stack;
    PushingBegins(h, rank, descendant, ancestor, seen, stack, id);
    hide Reaches, Searching, Pushing, Universe;
    for i := 0 to |ps|
      invariant Pushing(h, rank, descendant, ancestor, id, i, seen', stack')
      invariant seen <= seen' <= Universe(h, {descendant}) && (seen' == seen ==> stack' == stack)
    {
      PushedParent(h, rank, descendant, ancestor, seen', stack', id, i);
      if ps[i] !in seen' {
        seen', stack' := seen' + {ps[i]}, stack' + [ps[i]];
      }
    }
    PushingEnds(h, rank, descendant, ancestor, seen', stack', id);
    if seen' != seen {
      SmallerRest(seen, seen', Universe(h, {descendant}));
    }
  }

  // ---- Merge base -----------------------------------------------------------

  /** Every parent can be read. */
  ghost predicate Complete(h: History) {
    forall c, p :: c in h && p in h[c].parents ==> p in h
  }

  /** The side or sides a commit is reached from. */
  datatype Sides = Sides(a: bool, b: bool)

  /** A heap entry: a commit and its generation. */
  datatype Key = Key(generation: nat, id: Id)

  /** The order of the heap: highest generation first, then the smallest id. */
  predicate Before(x: Key, y: Key) {
    x.generation > y.generation || (x.generation == y.generation && Lt(x.id, y.id))
  }

  ghost predicate IsFirst(k: Key, heap: multiset<Key>) {
    k in heap && forall x :: x in heap ==> !Before(x, k)
  }

  lemma BeforeSteps(x: Key, k: Key)
    ensures !Before(x, x)
    ensures Before(x, k) ==> forall y :: !Before(y, k) ==> !Before(y, x)
  {
  }

  lemma {:induction false} FirstExists(heap: multiset<Key>)
    requires heap != multiset{}
    ensures exists k :: IsFirst(k, heap)
  {
    var x :| x in heap;
    var rest := heap - multiset{x};
    if rest == multiset{} {
      assert heap == multiset{x};
      assert IsFirst(x, heap);
    } else {
      FirstExists(rest);
      var k :| IsFirst(k, rest);
      assert forall y :: y in heap ==> y == x || y in rest;
      BeforeSteps(x, k);
      hide Before;
      assert IsFirst(if Before(x, k) then x else k, heap);
    }
  }

  /** `heappop`. */
  method PopFirst(heap: multiset<Key>) returns (k: Key, rest: multiset<Key>)
    requires heap != multiset{}
    ensures IsFirst(k, heap) && rest == heap - multiset{k}
  {
    FirstExists(heap);
    assert exists k :: k in heap && forall x :: x in heap ==> !Before(x, k) by {
      var k :| IsFirst(k, heap);
      assert k in heap;
    }
    k :| k in heap && forall x :: x in heap ==> !Before(x, k);
    rest := heap - multiset{k};
  }

  ghost predicate Common(h: History, rank: Id -> nat, a: Id, b: Id, x: Id)
    requires Ranked(h, rank)
  {
    Reaches(h, rank, a, x) && Reaches(h, rank, b, x)
  }

  ghost function KeyOf(h: History, rank: Id -> nat, x: Id): Key
    requires Ranked(h, rank)
  {
    Key(Gen(h, rank, x), x)
  }

  /** The best common ancestor: none comes before it. */
  ghost predicate Best(h: History, rank: Id -> nat, a: Id, b: Id, x: Id)
    requires Ranked(h, rank)
  {
    && Common(h, rank, a, b, x)
    && forall y :: Common(h, rank, a, b, y) ==> !Before(KeyOf(h, rank, y), KeyOf(h, rank, x))
  }

  function SidesOf(marked: map<Id, Sides>, x: Id): Sides {
    if x in marked then marked[x] else Sides(false, false)
  }

  function Both(x: Sides, y: Sides): Sides {
    Sides(x.a || y.a, x.b || y.b)
  }

  predicate Covers(x: Sides, y: Sides) {
    (y.a ==> x.a) && (y.b ==> x.b)
  }

  /** The marks left to set, over all commits a walk could meet. */
  ghost function Unmarked(universe: set<Id>, marked: map<Id, Sides>): nat {
    |set x | x in universe && !SidesOf(marked, x).a| + |set x | x in universe && !SidesOf(marked, x).b|
  }

  /** The heap holds exactly the keys of commits met; a commit marked from both sides is
      still on it; a commit not on it has passed its marks on to its parents. */
  ghost predicate Marking(h: History, rank: Id -> nat, a: Id, b: Id, marked: map<Id, Sides>, heap: multiset<Key>, popped: set<Id>)
    requires Ranked(h, rank)
  {
    && (forall k :: k in heap ==> k.id in marked && k == KeyOf(h, rank, k.id))
    && (forall x :: x in marked ==> x in h && (marked[x].a ==> Reaches(h, rank, a, x)) && (marked[x].b ==> Reaches(h, rank, b, x)))
    && (forall x :: x in marked && marked[x] == Sides(true, true) ==> KeyOf(h, rank, x) in heap)
    && (forall x :: x in marked && KeyOf(h, rank, x) !in heap && x !in popped ==>
          forall p :: p in h[x].parents ==> Covers(SidesOf(marked, p), marked[x]))
  }

  ghost predicate Started(a: Id, b: Id, marked: map<Id, Sides>) {
    SidesOf(marked, a).a && SidesOf(marked, b).b
  }

  /** What the side `a` reaches is marked for it, or comes behind something on the heap. */
  lemma {:induction false} ReachedOrPending(h: History, rank: Id -> nat, a: Id, b: Id, marked: map<Id, Sides>, heap: multiset<Key>,
      side: Sides, y: Id, x: Id) returns (z: Id)
    requires Ranked(h, rank) && Increasing(h, rank) && Complete(h)
    requires Marking(h, rank, a, b, marked, heap, {})
    requires Covers(SidesOf(marked, y), side) && side != Sides(false, false) && Reaches(h, rank, y, x)
    ensures Covers(SidesOf(marked, x), side) || (KeyOf(h, rank, z) in heap && Gen(h, rank, x) < Gen(h, rank, z))
    decreases rank(y)
  {
    if y == x {
      z := x;
    } else if KeyOf(h, rank, y) in heap {
      KnownAncestor(h, rank, y, x);
      AncestorsAreOlder(h, rank, y, x);
      z := y;
    } else {
      var p :| p in h[y].parents && Reaches(h, rank, p, x);
      z := ReachedOrPending(h, rank, a, b, marked, heap, side, p, x);
    }
  }

  lemma {:induction false} KnownAncestor(h: History, rank: Id -> nat, y: Id, x: Id)
    requires Ranked(h, rank) && Complete(h) && y in h && Reaches(h, rank, y, x)
    ensures x in h
    decreases rank(y)
  {
    if y != x {
      var p :| p in h[y].parents && Reaches(h, rank, p, x);
      KnownAncestor(h, rank, p, x);
    }
  }

  /** A common ancestor is on the heap or behind something on the heap. */
  lemma CommonPending(h: History, rank: Id -> nat, a: Id, b: Id, marked: map<Id, Sides>, heap: multiset<Key>, x: Id)
    returns (z: Id)
    requires Ranked(h, rank) && Increasing(h, rank) && Complete(h)
    requires Marking(h, rank, a, b, marked, heap, {}) && Started(a, b, marked)
    requires Common(h, rank, a, b, x)
    ensures KeyOf(h, rank, z) in heap && (z == x || Gen(h, rank, x) < Gen(h, rank, z))
  {
    z := ReachedOrPending(h, rank, a, b, marked, heap, Sides(true, false), a, x);
    if !(KeyOf(h, rank, z) in heap && Gen(h, rank, x) < Gen(h, rank, z)) {
      z := ReachedOrPending(h, rank, a, b, marked, heap, Sides(false, true), b, x);
      if !(KeyOf(h, rank, z) in heap && Gen(h, rank, x) < Gen(h, rank, z)) {
        z := x;
      }
    }
  }

  /** The first commit popped with both marks is the best common ancestor. */
  lemma PoppedIsBest(h: History, rank: Id -> nat, a: Id, b: Id, marked: map<Id, Sides>, heap: multiset<Key>, k: Key)
    requires Ranked(h, rank) && Increasing(h, rank) && Complete(h)
    requires Marking(h, rank, a, b, marked, heap, {}) && Started(a, b, marked)
    requires IsFirst(k, heap) && k.id in marked && marked[k.id] == Sides(true, true)
    ensures Best(h, rank, a, b, k.id)
  {
    forall y | Common(h, rank, a, b, y) ensures !Before(KeyOf(h, rank, y), KeyOf(h, rank, k.id)) {
      var z := CommonPending(h, rank, a, b, marked, heap, y);
      assert !Before(KeyOf(h, rank, z), k);
    }
  }

  lemma NothingPending(h: History, rank: Id -> nat, a: Id, b: Id, marked: map<Id, Sides>, x: Id)
    requires Ranked(h, rank) && Increasing(h, rank) && Complete(h)
    requires Marking(h, rank, a, b, marked, multiset{}, {}) && Started(a, b, marked)
    ensures !Common(h, rank, a, b, x)
  {
    if Common(h, rank, a, b, x) {
      var z := CommonPending(h, rank, a, b, marked, multiset{}, x);
    }
  }

  /** `visit`: marks a commit, and puts it on the heap if that adds a mark. */
  method Visit(generations: GenerationProvider, marked: map<Id, Sides>, heap: multiset<Key>, id: Id, flag: Sides)
    returns (marked': map<Id, Sides>, heap': multiset<Key>)
    requires generations.Valid()
    modifies generations
    ensures generations.Valid()
    ensures if Both(SidesOf(marked, id), flag) == SidesOf(marked, id) then marked' == marked && heap' == heap
            else marked' == marked[id := Both(SidesOf(marked, id), flag)] &&
                 heap' == heap + multiset{KeyOf(generations.h, generations.rank, id)}
  {
    var previous := SidesOf(marked, id);
    var combined := Both(previous, flag);
    if combined == previous {
      return marked, heap;
    }
    var g := generations.Of(id);
    return marked[id := combined], heap + multiset{Key(g, id)};
  }

  /** A new mark is one less to set. */
  lemma UnmarkedDrops(universe: set<Id>, marked: map<Id, Sides>, id: Id, flag: Sides)
    requires id in universe && Both(SidesOf(marked, id), flag) != SidesOf(marked, id)
    ensures Unmarked(universe, marked[id := Both(SidesOf(marked, id), flag)]) < Unmarked(universe, marked)
  {
    var marked' := marked[id := Both(SidesOf(marked, id), flag)];
    var a, a' := set x | x in universe && !SidesOf(marked, x).a, set x | x in universe && !SidesOf(marked', x).a;
    var b, b' := set x | x in universe && !SidesOf(marked, x).b, set x | x in universe && !SidesOf(marked', x).b;
    assert a' <= a && b' <= b;
    Subset(a', a);
    Subset(b', b);
    if flag.a && !SidesOf(marked, id).a {
      assert id in a && id !in a';
      StrictSubset(a', a);
    } else {
      assert id in b && id !in b';
      StrictSubset(b', b);
    }
  }

  /** Popping a commit that is not marked from both sides leaves only itself to expand. */
  lemma Popped(h: History, rank: Id -> nat, a: Id, b: Id, marked: map<Id, Sides>, heap: multiset<Key>, k: Key)
    requires Ranked(h, rank) && Marking(h, rank, a, b, marked, heap, {})
    requires k in heap && marked[k.id] != Sides(true, true)
    ensures Marking(h, rank, a, b, marked, heap - multiset{k}, {k.id})
  {
    forall x | x in marked && x != k.id
      ensures KeyOf(h, rank, x) in heap - multiset{k} <==> KeyOf(h, rank, x) in heap
    {
    }
    hide Reaches;
  }

  /** Marks only ever grow. */
  lemma MarksGrow(marked: map<Id, Sides>, id: Id, flag: Sides, x: Id, y: Id)
    ensures var marked' := marked[id := Both(SidesOf(marked, id), flag)];
      && (x != id ==> SidesOf(marked', x) == SidesOf(marked, x))
      && (Covers(SidesOf(marked, y), SidesOf(marked, x)) && x != id ==> Covers(SidesOf(marked', y), SidesOf(marked', x)))
  {
  }

  /** Marking a commit that its side does reach, and putting it on the heap. */
  lemma Visited(h: History, rank: Id -> nat, a: Id, b: Id, marked: map<Id, Sides>, heap: multiset<Key>, popped: set<Id>,
      id: Id, flag: Sides)
    requires Ranked(h, rank) && Marking(h, rank, a, b, marked, heap, popped)
    requires id in h && (flag.a ==> Reaches(h, rank, a, id)) && (flag.b ==> Reaches(h, rank, b, id))
    ensures Marking(h, rank, a, b, marked[id := Both(SidesOf(marked, id), flag)],
                    heap + multiset{KeyOf(h, rank, id)}, popped)
  {
    hide Reaches, Gen;
    var marked' := marked[id := Both(SidesOf(marked, id), flag)];
    var heap' := heap + multiset{KeyOf(h, rank, id)};
    forall x | x in marked' && KeyOf(h, rank, x) !in heap' && x !in popped
      ensures forall p :: p in h[x].parents ==> Covers(SidesOf(marked', p), marked'[x])
    {
      forall p | p in h[x].parents ensures Covers(SidesOf(marked', p), marked'[x]) {
        MarksGrow(marked, id, flag, x, p);
      }
    }
    hide Covers;
  }

  /** Once its parents carry its marks, a commit is done. */
  lemma Expanded(h: History, rank: Id -> nat, a: Id, b: Id, marked: map<Id, Sides>, heap: multiset<Key>, id: Id)
    requires Ranked(h, rank) && Marking(h, rank, a, b, marked, heap, {id}) && id in marked && id in h
    requires forall p :: p in h[id].parents ==> Covers(SidesOf(marked, p), marked[id])
    ensures Marking(h, rank, a, b, marked, heap, {})
  {
    hide Reaches, Gen;
  }

  /** The first `i` parents of the popped commit carry its marks. */
  ghost predicate Expanding(h: History, rank: Id -> nat, a: Id, b: Id, marked: map<Id, Sides>, heap: multiset<Key>,
      id: Id, side: Sides, i: nat)
    requires Ranked(h, rank)
  {
    && Marking(h, rank, a, b, marked, heap, {id}) && Started(a, b, marked)
    && id in h && id in marked && marked[id] == side && i <= |h[id].parents|
    && forall p :: p in h[id].parents[..i] ==> Covers(SidesOf(marked, p), side)
  }

  lemma ExpandStep(h: History, rank: Id -> nat, a: Id, b: Id, marked: map<Id, Sides>, heap: multiset<Key>,
      id: Id, side: Sides, i: nat)
    requires Ranked(h, rank) && Complete(h) && Expanding(h, rank, a, b, marked, heap, id, side, i) && i < |h[id].parents|
    ensures var p := h[id].parents[i];
      var combined := Both(SidesOf(marked, p), side);
      if combined == SidesOf(marked, p) then Expanding(h, rank, a, b, marked, heap, id, side, i + 1)
      else
        && Expanding(h, rank, a, b, marked[p := combined], heap + multiset{KeyOf(h, rank, p)}, id, side, i + 1)
        && Unmarked(h.Keys, marked[p := combined]) < Unmarked(h.Keys, marked)
  {
    var ps := h[id].parents;
    var p := ps[i];
    var combined := Both(SidesOf(marked, p), side);
    assert p in ps && rank(p) < rank(id);
    ParentReached(h, rank, a, b, marked, heap, id, p);
    Visited(h, rank, a, b, marked, heap, {id}, p, side);
    MarksStay(a, b, ps, i, marked, side);
    hide Marking, Reaches, Unmarked, Covers, Started;
    if combined != SidesOf(marked, p) {
      UnmarkedDrops(h.Keys, marked, p, side);
    }
  }

  lemma MarksStay(a: Id, b: Id, ps: seq<Id>, i: nat, marked: map<Id, Sides>, side: Sides)
    requires i < |ps| && Started(a, b, marked)
    requires forall p :: p in ps[..i] ==> Covers(SidesOf(marked, p), side)
    ensures var marked' := marked[ps[i] := Both(SidesOf(marked, ps[i]), side)];
      Started(a, b, marked') && forall p :: p in ps[..i + 1] ==> Covers(SidesOf(marked', p), side)
    ensures Both(SidesOf(marked, ps[i]), side) == SidesOf(marked, ps[i]) ==>
      forall p :: p in ps[..i + 1] ==> Covers(SidesOf(marked, p), side)
  {
    assert ps[..i + 1] == ps[..i] + [ps[i]];
  }

  lemma ExpandEnd(h: History, rank: Id -> nat, a: Id, b: Id, marked: map<Id, Sides>, heap: multiset<Key>,
      id: Id, side: Sides)
    requires Ranked(h, rank) && id in h && Expanding(h, rank, a, b, marked, heap, id, side, |h[id].parents|)
    ensures Marking(h, rank, a, b, marked, heap, {}) && Started(a, b, marked)
  {
    hide Marking;
    assert h[id].parents[..|h[id].parents|] == h[id].parents;
    Expanded(h, rank, a, b, marked, heap, id);
  }

  /** Visits the parents of the commit just popped. */
  method VisitParents(generations: GenerationProvider, marked: map<Id, Sides>, heap: multiset<Key>, id: Id, ghost a: Id, ghost b: Id)
    returns (marked': map<Id, Sides>, heap': multiset<Key>)
    requires generations.Valid() && Complete(generations.h) && id in generations.h && id in marked
    requires Marking(generations.h, generations.rank, a, b, marked, heap, {id}) && Started(a, b, marked)
    modifies generations
    ensures generations.Valid()
    ensures Marking(generations.h, generations.rank, a, b, marked', heap', {}) && Started(a, b, marked')
    ensures Unmarked(generations.h.Keys, marked') < Unmarked(generations.h.Keys, marked) || (marked' == marked && heap' == heap)
  {
    ghost var h, rank := generations.h, generations.rank;
    var ps := generations.h[id].parents;
    var side := marked[id];
    marked', heap' := marked, heap;
    assert Expanding(h, rank, a, b, marked, heap, id, side, 0);
    hide Marking, Reaches, Unmarked, Expanding, Started, Both, SidesOf, Complete;
    for i := 0 to |ps|
      invariant generations.Valid()
      invariant Expanding(h, rank, a, b, marked', heap', id, side, i)
      invariant Unmarked(h.Keys, marked') < Unmarked(h.Keys, marked) || (marked' == marked && heap' == heap)
    {
      ExpandStep(h, rank, a, b, marked', heap', id, side, i);
      marked', heap' := Visit(generations, marked', heap', ps[i], side);
    }
    ExpandEnd(h, rank, a, b, marked', heap', id, side);
  }

  lemma ParentReached(h: History, rank: Id -> nat, a: Id, b: Id, marked: map<Id, Sides>, heap: multiset<Key>, id: Id, p: Id)
    requires Ranked(h, rank) && Marking(h, rank, a, b, marked, heap, {id}) && id in marked && id in h && p in h[id].parents
    ensures marked[id].a ==> Reaches(h, rank, a, p)
    ensures marked[id].b ==> Reaches(h, rank, b, p)
  {
    assert Reaches(h, rank, p, p) && Reaches(h, rank, id, p);
    if marked[id].a { ReachesTransitive(h, rank, a, id, p); }
    if marked[id].b { ReachesTransitive(h, rank, b, id, p); }
  }

  lemma SameCommit(h: History, rank: Id -> nat, a: Id)
    requires Ranked(h, rank) && Increasing(h, rank) && Complete(h) && a in h
    ensures Best(h, rank, a, a, a)
  {
    forall y | Common(h, rank, a, a, y) ensures !Before(KeyOf(h, rank, y), KeyOf(h, rank, a)) {
      KnownAncestor(h, rank, a, y);
      if y != a { AncestorsAreOlder(h, rank, a, y); }
    }
  }

  lemma NothingMarked(h: History, rank: Id -> nat, a: Id, b: Id)
    requires Ranked(h, rank)
    ensures Marking(h, rank, a, b, map[], multiset{}, {})
  {
  }

  lemma StartMarks(a: Id, b: Id)
    requires a != b
    ensures Started(a, b, map[a := Sides(true, false), b := Sides(false, true)])
  {
  }

  /** The best common ancestor in plain terms: of all common ancestors it has the highest
      generation, and among those of that generation the smallest id in text order. */
  lemma BestByGeneration(h: History, rank: Id -> nat, a: Id, b: Id, x: Id)
    requires Ranked(h, rank) && Best(h, rank, a, b, x)
    ensures Reaches(h, rank, a, x) && Reaches(h, rank, b, x)
    ensures forall y :: Reaches(h, rank, a, y) && Reaches(h, rank, b, y) && y != x ==>
      Gen(h, rank, y) < Gen(h, rank, x) || (Gen(h, rank, y) == Gen(h, rank, x) && LexLess(x, y))
  {
    forall y | Reaches(h, rank, a, y) && Reaches(h, rank, b, y) && y != x
      ensures Gen(h, rank, y) < Gen(h, rank, x) || (Gen(h, rank, y) == Gen(h, rank, x) && LexLess(x, y))
    {
      assert Common(h, rank, a, b, y);
      FractionIsOrder(x, y);
      FractionIsOrder(y, x);
    }
  }

  /** `merge_base_commit`: the common ancestor of highest generation and then smallest
      id, found exactly when there is a common ancestor at all. */
  method MergeBase(h: History, a: Id, b: Id, ghost rank: Id -> nat) returns (r: Option<Id>)
    requires Ranked(h, rank) && Increasing(h, rank) && Complete(h) && a in h && b in h
    ensures r.Some? ==> Best(h, rank, a, b, r.value)
    ensures r.Some? ==>
      && Reaches(h, rank, a, r.value) && Reaches(h, rank, b, r.value)
      && forall y :: Reaches(h, rank, a, y) && Reaches(h, rank, b, y) && y != r.value ==>
           Gen(h, rank, y) < Gen(h, rank, r.value) ||
           (Gen(h, rank, y) == Gen(h, rank, r.value) && LexLess(r.value, y))
    ensures r.None? ==> forall x :: !(Reaches(h, rank, a, x) && Reaches(h, rank, b, x))
  {
    if a == b {
      SameCommit(h, rank, a);
      BestByGeneration(h, rank, a, b, a);
      return Some(a);
    }
    var generations := new GenerationProvider(h, rank);
    var marked: map<Id, Sides>, heap: multiset<Key> := map[], multiset{};
    NothingMarked(h, rank, a, b);
    assert Reaches(h, rank, a, a) && Reaches(h, rank, b, b);
    hide Marking, Reaches, Best, Common, Increasing, Complete, Started, Unmarked;
    StartMarks(a, b);
    Visited(h, rank, a, b, marked, heap, {}, a, Sides(true, false));
    marked, heap := Visit(generations, marked, heap, a, Sides(true, false));
    Visited(h, rank, a, b, marked, heap, {}, b, Sides(false, true));
    marked, heap := Visit(generations, marked, heap, b, Sides(false, true));
    assert marked == map[a := Sides(true, false), b := Sides(false, true)];
    while heap != multiset{}
      invariant generations.Valid() && generations.h == h && generations.rank == rank
      invariant Marking(h, rank, a, b, marked, heap, {}) && Started(a, b, marked)
      decreases Unmarked(h.Keys, marked), |heap|
    {
      var top, rest := PopFirst(heap);
      OnHeap(h, rank, a, b, marked, heap, top);
      if marked[top.id] == Sides(true, true) {
        PoppedIsBest(h, rank, a, b, marked, heap, top);
        BestByGeneration(h, rank, a, b, top.id);
        return Some(top.id);
      }
      Popped(h, rank, a, b, marked, heap, top);
      marked, heap := VisitParents(generations, marked, rest, top.id, a, b);
    }
    forall x ensures !(Reaches(h, rank, a, x) && Reaches(h, rank, b, x)) {
      NothingPending(h, rank, a, b, marked, x);
      CommonIs(h, rank, a, b, x);
    }
    return None;
  }

  lemma CommonIs(h: History, rank: Id -> nat, a: Id, b: Id, x: Id)
    requires Ranked(h, rank)
    ensures Common(h, rank, a, b, x) <==> Reaches(h, rank, a, x) && Reaches(h, rank, b, x)
  {
  }

  lemma OnHeap(h: History, rank: Id -> nat, a: Id, b: Id, marked: map<Id, Sides>, heap: multiset<Key>, k: Key)
    requires Ranked(h, rank) && Marking(h, rank, a, b, marked, heap, {}) && k in heap
    ensures k.id in marked && k.id in h
  {
  }

  /** There is one best common ancestor, whichever side comes first, and no common
      ancestor is a proper descendant of it. */
  lemma MergeBaseUnique(h: History, rank: Id -> nat, a: Id, b: Id, x: Id, y: Id)
    requires Ranked(h, rank) && Best(h, rank, a, b, x) && Best(h, rank, b, a, y)
    ensures x == y
  {
    assert Common(h, rank, a, b, y) && Common(h, rank, b, a, x);
    PlaceInjective();
  }

  lemma NoBetterBelow(h: History, rank: Id -> nat, a: Id, b: Id, x: Id, y: Id)
    requires Ranked(h, rank) && Increasing(h, rank) && x in h
    requires Best(h, rank, a, b, x) && Common(h, rank, a, b, y) && Reaches(h, rank, y, x)
    ensures y == x
  {
    if y != x {
      AncestorsAreOlder(h, rank, y, x);
    }
  }
}
