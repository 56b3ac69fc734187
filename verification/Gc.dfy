/** Garbage collection: marking from the branch heads, the age-guarded sweep, and why a
    concurrent writer's objects survive it. */
module Gc {
  import opened Paths
  import opened Trees
  import opened Objects
  import opened Reach
  import opened Sets

  // ---- Mark -----------------------------------------------------------------

  datatype Marks = Marks(commits: set<Commit>, trees: set<Node>, leaves: set<Object>)

  ghost function Marked(m: Marks): set<Object> {
    Gathered(m.commits, m.trees, m.leaves)
  }

  /** Commits met so far, nothing beyond the heads' reach. */
  ghost predicate MarkingCommits(heads: seq<Commit>, commits: set<Commit>, pending: seq<Commit>) {
    && commits <= CommitsOf(heads)
    && (forall c :: c in pending ==> c in CommitsOf(heads))
    && (forall h :: h in heads ==> h in commits || h in pending)
    && ParentsMet(commits, pending)
  }

  /** The trees of the commits met, and no others. */
  ghost predicate MarkingTrees(store: set<Object>, commits: set<Commit>, trees: set<Node>) {
    && Downward(store, trees, [])
    && (forall c :: c in commits ==> c.tree in trees)
    && (forall n :: n in trees ==> exists c :: c in commits && n in TreesUnder(c.tree))
  }

  /** What marking keeps. */
  ghost predicate Marking(store: set<Object>, heads: seq<Commit>, commits: set<Commit>, trees: set<Node>, pending: seq<Commit>) {
    MarkingCommits(heads, commits, pending) && MarkingTrees(store, commits, trees)
  }

  lemma MarkBegins(store: set<Object>, heads: seq<Commit>)
    ensures Marking(store, heads, {}, {}, heads)
  {
    forall h | h in heads ensures h in CommitsOf(heads) {
      OwnParents(heads, h);
    }
  }

  lemma MarkSkip(store: set<Object>, heads: seq<Commit>, commits: set<Commit>, trees: set<Node>, pending: seq<Commit>)
    requires Marking(store, heads, commits, trees, pending) && pending != []
    requires pending[|pending| - 1] in commits
    ensures Marking(store, heads, commits, trees, pending[..|pending| - 1])
  {
    var c, rest := pending[|pending| - 1], pending[..|pending| - 1];
    assert pending == rest + [c];
    hide CommitsOf, TreesUnder, Downward;
    assert forall x :: x in pending <==> x in rest || x == c;
  }

  lemma CommitMarked(heads: seq<Commit>, commits: set<Commit>, pending: seq<Commit>)
    requires MarkingCommits(heads, commits, pending) && pending != []
    ensures var c, rest := pending[|pending| - 1], pending[..|pending| - 1];
      MarkingCommits(heads, commits + {c}, rest + c.parents)
  {
    var c, rest := pending[|pending| - 1], pending[..|pending| - 1];
    assert pending == rest + [c] && c in pending;
    forall p | p in c.parents ensures p in CommitsOf(heads) {
      ParentsOf(heads, c, p);
    }
    hide CommitsOf;
    assert forall x :: x in pending <==> x in rest || x == c;
  }

  lemma TreesMarked(store: set<Object>, commits: set<Commit>, trees: set<Node>, c: Commit, trees': set<Node>)
    requires MarkingTrees(store, commits, trees)
    requires trees <= trees' <= trees + TreesUnder(c.tree) && c.tree in trees' && Downward(store, trees', [])
    ensures MarkingTrees(store, commits + {c}, trees')
  {
    hide TreesUnder, Downward;
    forall n | n in trees' ensures exists x :: x in commits + {c} && n in TreesUnder(x.tree) {
      if n in trees {
        var x :| x in commits && n in TreesUnder(x.tree);
        assert x in commits + {c};
      } else {
        assert c in commits + {c};
      }
    }
  }

  lemma MarkStep(store: set<Object>, heads: seq<Commit>, commits: set<Commit>, trees: set<Node>, pending: seq<Commit>, trees': set<Node>)
    requires Marking(store, heads, commits, trees, pending) && pending != []
    requires var c := pending[|pending| - 1];
      trees <= trees' <= trees + TreesUnder(c.tree) && c.tree in trees' && Downward(store, trees', [])
    ensures var c, rest := pending[|pending| - 1], pending[..|pending| - 1];
      Marking(store, heads, commits + {c}, trees', rest + c.parents)
  {
    hide MarkingCommits, MarkingTrees;
    CommitMarked(heads, commits, pending);
    TreesMarked(store, commits, trees, pending[|pending| - 1], trees');
  }

  lemma MarkedIsNeeded(store: set<Object>, heads: seq<Commit>, commits: set<Commit>, trees: set<Node>, leaves: set<Object>)
    requires Marking(store, heads, commits, trees, [])
    requires forall o :: o in leaves ==> exists n :: n in trees && o in FileRefs(n.entries)
    ensures Gathered(commits, trees, leaves) <= ParentsClosure(heads)
    ensures OnlyLeafRefs(leaves)
  {
    forall c | c in commits
      ensures CommitObject(c) in ParentsClosure(heads) && TreeClosure(c.tree) <= ParentsClosure(heads)
    {
      CommitsOfInClosure(heads, c);
    }
    forall n | n in trees ensures TreeObject(n) in ParentsClosure(heads) && TreeClosure(n) <= ParentsClosure(heads) {
      var c :| c in commits && n in TreesUnder(c.tree);
      TreesInClosure(c.tree, n);
    }
    hide Marking, ParentsClosure;
    forall o | o in leaves ensures o in ParentsClosure(heads) && (o.BlobObject? || o.FooterObject?) {
      var n :| n in trees && o in FileRefs(n.entries);
      FileRefsInClosure(n.entries);
      FileRefsAreLeaves(n.entries);
    }
    hide TreeClosure, FileRefs;
  }

  lemma MarkEnds(store: set<Object>, heads: seq<Commit>, commits: set<Commit>, trees: set<Node>, leaves: set<Object>)
    requires Marking(store, heads, commits, trees, [])
    requires Harvested(store, trees, leaves)
    requires forall o :: o in leaves ==> exists n :: n in trees && o in FileRefs(n.entries)
    ensures Gathered(commits, trees, leaves) <= ParentsClosure(heads)
    ensures ParentsClosure(heads) <= store ==> Gathered(commits, trees, leaves) == ParentsClosure(heads)
  {
    MarkedIsNeeded(store, heads, commits, trees, leaves);
    hide ParentsClosure, CommitsOf, TreesUnder, FileRefs, Harvested, Downward;
    if ParentsClosure(heads) <= store {
      var all := Gathered(commits, trees, leaves);
      forall n | n in trees ensures TreeObject(n) in store {
        assert TreeObject(n) in all;
      }
      WalkedIsClosed(store, commits, trees, leaves);
      ParentsInside(all, heads);
    }
  }

  lemma EveryCommit(store: set<Object>, heads: seq<Commit>, commits: set<Commit>, trees: set<Node>)
    requires Marking(store, heads, commits, trees, [])
    ensures commits == CommitsOf(heads)
  {
    AllParentsCollected(commits, heads);
  }

  /** The mark phase of `gc`: it fails on a missing commit; from intact heads it marks exactly what they need. */
  method Mark(store: set<Object>, heads: seq<Commit>) returns (r: Option<Marks>)
    ensures r.Some? ==> Marked(r.value) <= ParentsClosure(heads)
    ensures ParentsClosure(heads) <= store ==> r.Some? && Marked(r.value) == ParentsClosure(heads)
    ensures r.Some? <==> forall c :: c in CommitsOf(heads) ==> CommitObject(c) in store
    ensures r.Some? ==> r.value.commits == CommitsOf(heads)
  {
    var commits: set<Commit>, trees: set<Node>, pending := {}, {}, heads;
    MarkBegins(store, heads);
    hide Marking, CommitsOf, TreesUnder, Downward;
    while pending != []
      invariant Marking(store, heads, commits, trees, pending)
      invariant forall c :: c in commits ==> CommitObject(c) in store
      decreases |CommitsOf(heads) - commits|, |pending|
    {
      var c, rest := pending[|pending| - 1], pending[..|pending| - 1];
      if c in commits {
        MarkSkip(store, heads, commits, trees, pending);
        pending := rest;
        continue;
      }
      PendingCommit(store, heads, commits, trees, pending);
      if CommitObject(c) !in store {
        return None;
      }
      var seen := WalkTrees(store, c.tree, trees);
      MarkStep(store, heads, commits, trees, pending, seen);
      SmallerRest(commits, commits + {c}, CommitsOf(heads));
      commits, trees, pending := commits + {c}, seen, rest + c.parents;
    }
    var leaves := HarvestLeaves(store, trees);
    MarkEnds(store, heads, commits, trees, leaves);
    EveryCommit(store, heads, commits, trees);
    return Some(Marks(commits, trees, leaves));
  }

  lemma PendingCommit(store: set<Object>, heads: seq<Commit>, commits: set<Commit>, trees: set<Node>, pending: seq<Commit>)
    requires Marking(store, heads, commits, trees, pending) && pending != []
    ensures commits + {pending[|pending| - 1]} <= CommitsOf(heads)
    ensures ParentsClosure(heads) <= store ==> CommitObject(pending[|pending| - 1]) in store
    ensures Downward(store, trees, [])
  {
    var c := pending[|pending| - 1];
    assert c in pending;
    CommitsOfInClosure(heads, c);
  }

  // ---- Sweep ----------------------------------------------------------------

  /** A stored object with the time it was written; 0 when that is not known. */
  datatype Listed = Listed(id: Object, mtime: nat)

  predicate Orphan(l: Listed, reachable: set<Object>) {
    l.id !in reachable
  }

  predicate Young(l: Listed, cutoff: nat) {
    l.mtime == 0 || l.mtime >= cutoff
  }

  function Doomed(listing: seq<Listed>, reachable: set<Object>, cutoff: nat): set<Object> {
    set l | l in listing && Orphan(l, reachable) && !Young(l, cutoff) :: l.id
  }

  function CountOrphans(listing: seq<Listed>, reachable: set<Object>): nat {
    if listing == [] then 0
    else CountOrphans(listing[..|listing| - 1], reachable) + if Orphan(listing[|listing| - 1], reachable) then 1 else 0
  }

  function CountYoung(listing: seq<Listed>, reachable: set<Object>, cutoff: nat): nat {
    if listing == [] then 0
    else
      CountYoung(listing[..|listing| - 1], reachable, cutoff) +
      if Orphan(listing[|listing| - 1], reachable) && Young(listing[|listing| - 1], cutoff) then 1 else 0
  }

  datatype Swept = Swept(stored: nat, orphans: nat, young: nat, deleted: nat)

  function Members(batch: seq<Object>): set<Object> {
    set o | o in batch
  }

  /** `delete_objects`. */
  method DeleteObjects(store: set<Object>, ids: seq<Object>) returns (rest: set<Object>, deleted: nat)
    ensures rest == store - Members(ids) && deleted == |ids|
  {
    rest, deleted := store, 0;
    for i := 0 to |ids|
      invariant rest == store - Members(ids[..i]) && deleted == i
    {
      assert ids[..i + 1] == ids[..i] + [ids[i]];
      assert Members(ids[..i + 1]) == Members(ids[..i]) + {ids[i]};
      rest, deleted := rest - {ids[i]}, deleted + 1;
    }
    assert ids[..|ids|] == ids;
  }

  lemma NextListed(listing: seq<Listed>, l: Listed, reachable: set<Object>, cutoff: nat)
    ensures CountOrphans(listing + [l], reachable) == CountOrphans(listing, reachable) + if Orphan(l, reachable) then 1 else 0
    ensures CountYoung(listing + [l], reachable, cutoff) ==
            CountYoung(listing, reachable, cutoff) + if Orphan(l, reachable) && Young(l, cutoff) then 1 else 0
    ensures Doomed(listing + [l], reachable, cutoff) ==
            if Orphan(l, reachable) && !Young(l, cutoff) then Doomed(listing, reachable, cutoff) + {l.id}
            else Doomed(listing, reachable, cutoff)
  {
    assert (listing + [l])[..|listing|] == listing;
    assert forall x :: x in listing + [l] <==> x in listing || x == l;
  }

  /** The ids to delete, in the order of the listing. */
  ghost function ToDelete(listing: seq<Listed>, reachable: set<Object>, cutoff: nat): seq<Object> {
    if listing == [] then []
    else
      var l := listing[|listing| - 1];
      ToDelete(listing[..|listing| - 1], reachable, cutoff) + if l.id !in reachable && 0 < l.mtime < cutoff then [l.id] else []
  }

  /** All ids of some delete requests. */
  ghost function Sent(requests: seq<seq<Object>>): seq<Object> {
    if requests == [] then [] else Sent(requests[..|requests| - 1]) + requests[|requests| - 1]
  }

  /** The requests made so far are full, and with the batch they cover the ids listed. */
  ghost predicate Batched(requests: seq<seq<Object>>, batch: seq<Object>, ids: seq<Object>, batchSize: nat) {
    && (forall q :: q in requests ==> |q| == batchSize)
    && |batch| < batchSize && Sent(requests) + batch == ids
  }

  lemma NextDeleted(listing: seq<Listed>, l: Listed, reachable: set<Object>, cutoff: nat)
    ensures ToDelete(listing + [l], reachable, cutoff) ==
            if Orphan(l, reachable) && !Young(l, cutoff) then ToDelete(listing, reachable, cutoff) + [l.id]
            else ToDelete(listing, reachable, cutoff)
  {
    assert (listing + [l])[..|listing|] == listing;
  }

  lemma NextBatched(requests: seq<seq<Object>>, batch: seq<Object>, ids: seq<Object>, batchSize: nat, o: Object)
    requires Batched(requests, batch, ids, batchSize)
    ensures |batch| + 1 < batchSize ==> Batched(requests, batch + [o], ids + [o], batchSize)
    ensures |batch| + 1 >= batchSize ==> Batched(requests + [batch + [o]], [], ids + [o], batchSize)
  {
    assert (requests + [batch + [o]])[..|requests|] == requests;
    assert Sent(requests) + (batch + [o]) == ids + [o];
  }

  lemma LastBatched(requests: seq<seq<Object>>, batch: seq<Object>, ids: seq<Object>, batchSize: nat)
    requires Batched(requests, batch, ids, batchSize)
    ensures batch == [] ==> Sent(requests) == ids
    ensures batch != [] ==> Sent(requests + [batch]) == ids
  {
    assert (requests + [batch])[..|requests|] == requests;
  }

  /** With the batch deleted, `gone` is missing of the store. */
  ghost predicate Left(store: set<Object>, rest: set<Object>, batch: seq<Object>, gone: set<Object>) {
    rest - Members(batch) == store - gone
  }

  lemma LeftNext(store: set<Object>, rest: set<Object>, batch: seq<Object>, gone: set<Object>, o: Object)
    requires Left(store, rest, batch, gone)
    ensures Left(store, rest, batch + [o], gone + {o})
  {
    assert Members(batch + [o]) == Members(batch) + {o};
    assert rest - (Members(batch) + {o}) == rest - Members(batch) - {o};
    assert store - (gone + {o}) == store - gone - {o};
  }

  lemma LeftSent(store: set<Object>, rest: set<Object>, batch: seq<Object>, gone: set<Object>)
    requires Left(store, rest, batch, gone)
    ensures rest - Members(batch) == store - gone
    ensures Left(store, rest - Members(batch), [], gone)
    ensures batch == [] ==> rest == store - gone
  {
    assert Members([]) == {} && rest - {} == rest;
  }

  lemma NothingBatched(reachable: set<Object>, cutoff: nat, batchSize: nat)
    requires 0 < batchSize
    ensures Batched([], [], ToDelete([], reachable, cutoff), batchSize) && Sent([]) == []
    ensures CountOrphans([], reachable) == 0 && CountYoung([], reachable, cutoff) == 0
    ensures forall store :: Left(store, store, [], Doomed([], reachable, cutoff))
  {
  }

  lemma FullRequests(requests: seq<seq<Object>>, batch: seq<Object>, listing: seq<Listed>, reachable: set<Object>,
      cutoff: nat, batchSize: nat, dryRun: bool)
    requires if dryRun then requests == [] && batch == []
             else Batched(requests, batch, ToDelete(listing, reachable, cutoff), batchSize)
    requires 0 < batchSize
    ensures forall i :: 0 <= i < |requests| ==> |requests[i]| == batchSize
    ensures |batch| <= batchSize
    ensures !dryRun ==> Sent(if batch == [] then requests else requests + [batch]) == ToDelete(listing, reachable, cutoff)
  {
    if !dryRun {
      LastBatched(requests, batch, ToDelete(listing, reachable, cutoff), batchSize);
    }
  }

  /** `_sweep_kind`: deletes exactly the unmarked objects of known age older than the
      cutoff, batch by batch, and counts what it saw. */
  method SweepKind(store: set<Object>, reachable: set<Object>, listing: seq<Listed>, dryRun: bool, cutoff: nat, batchSize: nat)
    returns (rest: set<Object>, counts: Swept, requests: seq<seq<Object>>)
    requires 0 < batchSize
    ensures rest == if dryRun then store else store - Doomed(listing, reachable, cutoff)
    ensures forall o :: o in store && o !in rest ==>
      o !in reachable && exists l :: l in listing && l.id == o && 0 < l.mtime < cutoff
    ensures !dryRun ==> forall l :: l in listing && l.id !in reachable && 0 < l.mtime < cutoff ==> l.id !in rest
    ensures dryRun ==> rest == store
    ensures counts.stored == |listing| && counts.orphans == CountOrphans(listing, reachable)
    ensures counts.young == CountYoung(listing, reachable, cutoff)
    ensures (forall i, j :: 0 <= i < j < |listing| ==> listing[i] != listing[j]) ==>
      && counts.orphans == |set l | l in listing && l.id !in reachable|
      && counts.young == |set l | l in listing && l.id !in reachable && (l.mtime == 0 || cutoff <= l.mtime)|
    ensures counts.deleted == if dryRun then 0 else counts.orphans - counts.young
    ensures Sent(requests) == if dryRun then [] else ToDelete(listing, reachable, cutoff)
    ensures forall i :: 0 <= i < |requests| ==>
      requests[i] != [] && |requests[i]| <= batchSize && (i + 1 < |requests| ==> |requests[i]| == batchSize)
  {
    hide ToDelete, Sent, Batched, Left, Doomed, Members, Orphan, Young, CountOrphans, CountYoung;
    rest, counts, requests := store, Swept(0, 0, 0, 0), [];
    NothingBatched(reachable, cutoff, batchSize);
    assert listing[..0] == [];
    var batch: seq<Object> := [];
    for i := 0 to |listing|
      invariant dryRun ==> batch == [] && rest == store && counts.deleted == 0 && requests == []
      invariant !dryRun ==> Batched(requests, batch, ToDelete(listing[..i], reachable, cutoff), batchSize)
      invariant !dryRun ==>
        Left(store, rest, batch, Doomed(listing[..i], reachable, cutoff)) &&
        counts.deleted + |batch| == counts.orphans - counts.young
      invariant counts.stored == i && counts.orphans == CountOrphans(listing[..i], reachable)
      invariant counts.young == CountYoung(listing[..i], reachable, cutoff)
    {
      var l := listing[i];
      NextListed(listing[..i], l, reachable, cutoff);
      NextDeleted(listing[..i], l, reachable, cutoff);
      assert listing[..i + 1] == listing[..i] + [l];
      counts := counts.(stored := counts.stored + 1);
      if !Orphan(l, reachable) {
        continue;
      }
      counts := counts.(orphans := counts.orphans + 1);
      if Young(l, cutoff) {
        counts := counts.(young := counts.young + 1);
        continue;
      }
      if dryRun {
        continue;
      }
      LeftNext(store, rest, batch, Doomed(listing[..i], reachable, cutoff), l.id);
      NextBatched(requests, batch, ToDelete(listing[..i], reachable, cutoff), batchSize, l.id);
      batch := batch + [l.id];
      if |batch| >= batchSize {
        var n;
        LeftSent(store, rest, batch, Doomed(listing[..i + 1], reachable, cutoff));
        rest, n := DeleteObjects(rest, batch);
        requests := requests + [batch];
        counts, batch := counts.(deleted := counts.deleted + n), [];
      }
    }
    assert listing[..|listing|] == listing;
    if !dryRun {
      LeftSent(store, rest, batch, Doomed(listing, reachable, cutoff));
    }
    FullRequests(requests, batch, listing, reachable, cutoff, batchSize, dryRun);
    if batch != [] {
      var n;
      rest, n := DeleteObjects(rest, batch);
      requests := requests + [batch];
      counts := counts.(deleted := counts.deleted + n);
    }
    DoomedAre(store, reachable, listing, cutoff);
    if forall i, j :: 0 <= i < j < |listing| ==> listing[i] != listing[j] {
      CountsAreSizes(listing, reachable, cutoff);
    }
  }

  /** What is doomed, in plain bounds. */
  lemma DoomedAre(store: set<Object>, reachable: set<Object>, listing: seq<Listed>, cutoff: nat)
    ensures var rest := store - Doomed(listing, reachable, cutoff);
      && (forall o :: o in store && o !in rest ==>
            o !in reachable && exists l :: l in listing && l.id == o && 0 < l.mtime < cutoff)
      && (forall l :: l in listing && l.id !in reachable && 0 < l.mtime < cutoff ==> l.id !in rest)
  {
  }

  lemma CountsAreSizes(listing: seq<Listed>, reachable: set<Object>, cutoff: nat)
    requires forall i, j :: 0 <= i < j < |listing| ==> listing[i] != listing[j]
    ensures CountOrphans(listing, reachable) == |set l | l in listing && l.id !in reachable|
    ensures CountYoung(listing, reachable, cutoff) ==
            |set l | l in listing && l.id !in reachable && (l.mtime == 0 || cutoff <= l.mtime)|
  {
    OrphansCounted(listing, reachable);
    YoungCounted(listing, reachable, cutoff);
  }

  lemma LastIsNew(listing: seq<Listed>)
    requires listing != [] && forall i, j :: 0 <= i < j < |listing| ==> listing[i] != listing[j]
    ensures var k := |listing| - 1;
      listing[k] !in listing[..k] && forall l :: l in listing <==> l in listing[..k] || l == listing[k]
  {
    var k := |listing| - 1;
    assert listing == listing[..k] + [listing[k]];
  }

  lemma OneMore<T>(rest: set<T>, last: T, all: set<T>, counted: bool)
    requires last !in rest && forall x :: x in all <==> x in rest || (counted && x == last)
    ensures |all| == |rest| + if counted then 1 else 0
  {
    assert all == if counted then rest + {last} else rest;
  }

  lemma {:induction false} OrphansCounted(listing: seq<Listed>, reachable: set<Object>)
    requires forall i, j :: 0 <= i < j < |listing| ==> listing[i] != listing[j]
    ensures CountOrphans(listing, reachable) == |set l | l in listing && l.id !in reachable|
  {
    if listing != [] {
      var k := |listing| - 1;
      var rest, last := listing[..k], listing[k];
      OrphansCounted(rest, reachable);
      LastIsNew(listing);
      OneMore((set l | l in rest && l.id !in reachable), last, (set l | l in listing && l.id !in reachable), last.id !in reachable);
    }
  }

  lemma {:induction false} YoungCounted(listing: seq<Listed>, reachable: set<Object>, cutoff: nat)
    requires forall i, j :: 0 <= i < j < |listing| ==> listing[i] != listing[j]
    ensures CountYoung(listing, reachable, cutoff) ==
            |set l | l in listing && l.id !in reachable && (l.mtime == 0 || cutoff <= l.mtime)|
  {
    if listing != [] {
      var k := |listing| - 1;
      var rest, last := listing[..k], listing[k];
      YoungCounted(rest, reachable, cutoff);
      LastIsNew(listing);
      OneMore(
        (set l | l in rest && l.id !in reachable && (l.mtime == 0 || cutoff <= l.mtime)), last,
        (set l | l in listing && l.id !in reachable && (l.mtime == 0 || cutoff <= l.mtime)),
        last.id !in reachable && (last.mtime == 0 || cutoff <= last.mtime));
    }
  }

  /** Pruning never deletes what the marked heads need, and deletes every other listed
      object of known age older than the cutoff. */
  lemma PruneIsExact(store: set<Object>, heads: seq<Commit>, marked: set<Object>, listing: seq<Listed>, cutoff: nat, rest: set<Object>)
    requires marked == ParentsClosure(heads) <= store
    requires rest == store - Doomed(listing, marked, cutoff)
    ensures ParentsClosure(heads) <= rest
    ensures forall l :: l in listing && l.id !in ParentsClosure(heads) && 0 < l.mtime < cutoff ==> l.id !in rest
  {
  }

  // ---- Writers next to a collection -----------------------------------------

  /** The store with write times, the branch heads, and what was marked. */
  datatype Situation = Situation(stored: map<Object, nat>, heads: map<string, Commit>, marked: set<Object>)

  datatype Event =
    | Write(object: Object, now: nat)
    | MoveHead(branch: string, commit: Commit)
    | Delete(object: Object)

  /** An object no sweep of this collection can take. */
  predicate Safe(s: Situation, cutoff: nat, o: Object) {
    o in s.stored && (o in s.marked || s.stored[o] == 0 || s.stored[o] >= cutoff)
  }

  /** Writers write after the cutoff; a head only moves to a commit all of whose objects
      were marked or are young; the sweep takes only what it may. */
  ghost predicate Allowed(s: Situation, cutoff: nat, e: Event) {
    match e
    case Write(_, now) => now >= cutoff
    case MoveHead(_, c) => forall o :: o in CommitClosure(c) ==> Safe(s, cutoff, o)
    case Delete(o) => o in s.stored && o !in s.marked && 0 < s.stored[o] < cutoff
  }

  /** Writing an object that is there already leaves its age as it is. */
  function After(s: Situation, e: Event): Situation {
    match e
    case Write(o, now) => if o in s.stored then s else s.(stored := s.stored[o := now])
    case MoveHead(b, c) => s.(heads := s.heads[b := c])
    case Delete(o) => s.(stored := s.stored - {o})
  }

  ghost predicate HeadsSafe(s: Situation, cutoff: nat) {
    forall b, o :: b in s.heads && o in CommitClosure(s.heads[b]) ==> Safe(s, cutoff, o)
  }

  lemma EventKeepsHeads(s: Situation, cutoff: nat, e: Event)
    requires HeadsSafe(s, cutoff) && Allowed(s, cutoff, e)
    ensures HeadsSafe(After(s, e), cutoff)
  {
    var s' := After(s, e);
    hide CommitClosure;
    forall b, o | b in s'.heads && o in CommitClosure(s'.heads[b]) ensures Safe(s', cutoff, o) {
      if e.MoveHead? && b == e.branch {
        assert Safe(s, cutoff, o);
      } else {
        assert s.heads[b] == s'.heads[b] && Safe(s, cutoff, o);
      }
    }
  }

  ghost predicate Collection(run: seq<Situation>, events: seq<Event>, cutoff: nat) {
    && |run| == |events| + 1
    && (forall b, o :: b in run[0].heads && o in CommitClosure(run[0].heads[b]) ==>
          o in run[0].stored && o in run[0].marked)
    && (forall i :: 0 <= i < |events| ==> Allowed(run[i], cutoff, events[i]) && run[i + 1] == After(run[i], events[i]))
  }

  /** However writes, head moves and deletions interleave after the mark, everything every
      branch needs stays in the store. */
  lemma {:induction false} ClosuresSurvive(run: seq<Situation>, events: seq<Event>, cutoff: nat, i: nat)
    requires Collection(run, events, cutoff) && i < |run|
    ensures HeadsSafe(run[i], cutoff)
    ensures forall b :: b in run[i].heads ==> CommitClosure(run[i].heads[b]) <= run[i].stored.Keys
  {
    hide CommitClosure;
    if 0 < i {
      ClosuresSurvive(run, events, cutoff, i - 1);
      EventKeepsHeads(run[i - 1], cutoff, events[i - 1]);
    }
    forall b, o | b in run[i].heads && o in CommitClosure(run[i].heads[b]) ensures o in run[i].stored {
      assert Safe(run[i], cutoff, o);
    }
  }

  /** A listing of the store shows the ages the objects have. */
  ghost predicate Lists(s: Situation, listing: seq<Listed>) {
    forall l :: l in listing && l.id in s.stored ==> l.mtime == s.stored[l.id]
  }

  /** What a sweep takes from a situation it was listed from, it takes by allowed deletions;
      nothing else changes. */
  lemma {:induction false} SweepIsDeletions(s: Situation, listing: seq<Listed>, cutoff: nat, rest: set<Object>)
    returns (run: seq<Situation>, events: seq<Event>)
    requires Lists(s, listing) && rest <= s.stored.Keys
    requires forall o :: o in s.stored && o !in rest ==>
      o !in s.marked && exists l :: l in listing && l.id == o && 0 < l.mtime < cutoff
    ensures |run| == |events| + 1 && run[0] == s
    ensures forall i :: 0 <= i < |events| ==>
      events[i].Delete? && Allowed(run[i], cutoff, events[i]) && run[i + 1] == After(run[i], events[i])
    ensures run[|events|].stored.Keys == rest && run[|events|].heads == s.heads
    decreases |s.stored.Keys - rest|
  {
    if s.stored.Keys - rest == {} {
      run, events := [s], [];
      assert s.stored.Keys == rest;
    } else {
      var o :| o in s.stored.Keys - rest;
      var l :| l in listing && l.id == o && 0 < l.mtime < cutoff;
      var next := After(s, Delete(o));
      assert next.stored.Keys - rest == (s.stored.Keys - rest) - {o};
      var tail, more := SweepIsDeletions(next, listing, cutoff, rest);
      run, events := [s] + tail, [Delete(o)] + more;
    }
  }

  /** So after any allowed run, a sweep leaves every branch complete. */
  lemma SweepKeepsBranches(run: seq<Situation>, events: seq<Event>, cutoff: nat, listing: seq<Listed>, rest: set<Object>)
    requires Collection(run, events, cutoff)
    requires var s := run[|events|];
      && Lists(s, listing) && rest <= s.stored.Keys
      && forall o :: o in s.stored && o !in rest ==>
           o !in s.marked && exists l :: l in listing && l.id == o && 0 < l.mtime < cutoff
    ensures forall b :: b in run[|events|].heads ==> CommitClosure(run[|events|].heads[b]) <= rest
  {
    var s := run[|events|];
    var tail, more := SweepIsDeletions(s, listing, cutoff, rest);
    var all, every := run[..|events|] + tail, events + more;
    hide CommitClosure, Allowed, After, Lists;
    assert all[0] == run[0];
    forall i | 0 <= i < |every| ensures Allowed(all[i], cutoff, every[i]) && all[i + 1] == After(all[i], every[i]) {
      if i < |events| {
        assert all[i] == run[i] && all[i + 1] == run[i + 1];
      } else {
        assert all[i] == tail[i - |events|] && all[i + 1] == tail[i - |events| + 1];
      }
    }
    ClosuresSurvive(all, every, cutoff, |every|);
  }

  /** The assumption is needed: a writer that reuses an old unmarked object does not
      refresh its age, and the sweep takes it from under the new head. */
  lemma ReusedObjectIsLost(s: Situation, s1: Situation, s2: Situation, cutoff: nat, now: nat, b: string, c: Commit, o: Object)
    requires o in s.stored && o !in s.marked && 0 < s.stored[o] < cutoff <= now
    requires o in CommitClosure(c)
    requires s1 == After(s, Write(o, now)) && s2 == After(s1, MoveHead(b, c))
    ensures s1 == s && !Allowed(s1, cutoff, MoveHead(b, c))
    ensures Allowed(s2, cutoff, Delete(o))
    ensures !(CommitClosure(c) <= After(s2, Delete(o)).stored.Keys)
  {
  }
}
