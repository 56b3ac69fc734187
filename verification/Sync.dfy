/** Push and pull: which objects are missing, in what order they are copied, and why the
    other store stays closed. */
module Sync {
  import opened Paths
  import opened Trees
  import opened Objects
  import opened Reach
  import opened Sets

  /** Above this many candidates the ids are listed once instead of probed one by one. */
  const INVENTORY_THRESHOLD := 64

  /** `_missing_ids`: either way of asking gives the same answer. */
  method MissingIds(store: set<Object>, ids: set<Object>) returns (missing: set<Object>)
    ensures missing == ids - store
  {
    if |ids| <= INVENTORY_THRESHOLD {
      missing := set o | o in ids && o !in store;
    } else {
      var present := store;
      missing := set o | o in ids && o !in present;
    }
  }

  // ---- Which commits --------------------------------------------------------

  /** Oldest first, by generation; equal generations keep their order. */
  function InsertByGeneration(cs: seq<Commit>, c: Commit, generation: Commit -> nat): seq<Commit> {
    if cs != [] && generation(c) < generation(cs[|cs| - 1])
    then InsertByGeneration(cs[..|cs| - 1], c, generation) + [cs[|cs| - 1]]
    else cs + [c]
  }

  function SortByGeneration(cs: seq<Commit>, generation: Commit -> nat): seq<Commit> {
    if cs == [] then []
    else InsertByGeneration(SortByGeneration(cs[..|cs| - 1], generation), cs[|cs| - 1], generation)
  }

  predicate Rising(cs: seq<Commit>, generation: Commit -> nat) {
    forall i, j :: 0 <= i < j < |cs| ==> generation(cs[i]) <= generation(cs[j])
  }

  lemma {:induction false} InsertSpec(cs: seq<Commit>, c: Commit, generation: Commit -> nat)
    requires Rising(cs, generation)
    ensures Rising(InsertByGeneration(cs, c, generation), generation)
    ensures forall x :: x in InsertByGeneration(cs, c, generation) <==> x in cs || x == c
  {
    if cs != [] {
      var k := |cs| - 1;
      assert cs == cs[..k] + [cs[k]];
      if generation(c) < generation(cs[k]) {
        InsertSpec(cs[..k], c, generation);
        var r := InsertByGeneration(cs[..k], c, generation);
        assert forall i :: 0 <= i < |r| ==> r[i] in r;
      }
    }
  }

  lemma {:induction false} SortSpec(cs: seq<Commit>, generation: Commit -> nat)
    ensures Rising(SortByGeneration(cs, generation), generation)
    ensures forall x :: x in SortByGeneration(cs, generation) <==> x in cs
  {
    if cs != [] {
      var k := |cs| - 1;
      assert cs == cs[..k] + [cs[k]];
      SortSpec(cs[..k], generation);
      InsertSpec(SortByGeneration(cs[..k], generation), cs[k], generation);
    }
  }

  method Listing(s: set<Commit>) returns (r: seq<Commit>)
    ensures forall c :: c in r <==> c in s
  {
    r := [];
    var rest := s;
    while rest != {}
      invariant rest <= s && forall c :: c in r <==> c in s && c !in rest
      decreases |rest|
    {
      var c :| c in rest;
      r, rest := r + [c], rest - {c};
    }
  }

  /** Generations go up along every parent edge below `head`. */
  ghost predicate Increasing(head: Commit, generation: Commit -> nat) {
    forall c, p :: c in CommitsUnder(head) && p in c.parents ==> generation(p) < generation(c)
  }

  /** What collecting commits keeps. */
  ghost predicate Collecting(head: Commit, reachable: set<Commit>, stack: seq<Commit>) {
    && reachable <= CommitsUnder(head)
    && (forall c :: c in stack ==> c in CommitsUnder(head))
    && (head in reachable || head in stack)
    && ParentsMet(reachable, stack)
  }

  lemma CollectStep(head: Commit, reachable: set<Commit>, stack: seq<Commit>)
    requires Collecting(head, reachable, stack) && stack != []
    ensures var c, rest := stack[|stack| - 1], stack[..|stack| - 1];
      && c in CommitsUnder(head)
      && (c in reachable ==> Collecting(head, reachable, rest))
      && Collecting(head, reachable + {c}, rest + c.parents)
  {
    var c, rest := stack[|stack| - 1], stack[..|stack| - 1];
    assert stack == rest + [c] && c in stack;
    forall p | p in c.parents ensures p in CommitsUnder(head) {
      ParentsUnder(head, c, p);
    }
    hide CommitsUnder;
    assert forall x :: x in stack <==> x in rest || x == c;
  }

  /** `_collect_commits_to_push`: the commits below `head` that the other side lacks,
      parents before children. */
  method CommitsToCopy(head: Commit, target: set<Object>, generation: Commit -> nat) returns (r: seq<Commit>)
    requires Increasing(head, generation)
    ensures forall c :: c in r <==> c in CommitsUnder(head) && CommitObject(c) !in target
    ensures forall i, j :: 0 <= i < |r| && 0 <= j < |r| && r[i] in r[j].parents ==> i < j
  {
    var reachable: set<Commit>, stack := {}, [head];
    assert Collecting(head, reachable, stack);
    hide Collecting, CommitsUnder, Increasing;
    while stack != []
      invariant Collecting(head, reachable, stack) && reachable <= CommitsUnder(head)
      decreases |CommitsUnder(head) - reachable|, |stack|
    {
      CollectStep(head, reachable, stack);
      var c, rest := stack[|stack| - 1], stack[..|stack| - 1];
      stack := rest;
      if c !in reachable {
        SmallerRest(reachable, reachable + {c}, CommitsUnder(head));
        reachable, stack := reachable + {c}, rest + c.parents;
      }
    }
    Collected(head, reachable);
    var missing := set c | c in reachable && CommitObject(c) !in target;
    var listed := Listing(missing);
    SortSpec(listed, generation);
    r := SortByGeneration(listed, generation);
    ParentsFirst(head, r, generation);
  }

  lemma Collected(head: Commit, reachable: set<Commit>)
    requires Collecting(head, reachable, [])
    ensures reachable == CommitsUnder(head)
  {
    AllCollected(head, reachable, head);
  }

  lemma ParentsFirst(head: Commit, r: seq<Commit>, generation: Commit -> nat)
    requires Increasing(head, generation) && Rising(r, generation)
    requires forall c :: c in r ==> c in CommitsUnder(head)
    ensures forall i, j :: 0 <= i < |r| && 0 <= j < |r| && r[i] in r[j].parents ==> i < j
  {
    forall i, j | 0 <= i < |r| && 0 <= j < |r| && r[i] in r[j].parents ensures i < j {
      assert r[j] in r;
    }
  }

  // ---- Which objects --------------------------------------------------------

  /** The candidates of a list of commits: the commits, their trees, their leaves. */
  datatype Candidates = Candidates(commits: seq<Commit>, trees: set<Node>, leaves: set<Object>)

  ghost function AllOf(c: Candidates): set<Object> {
    Gathered((set x | x in c.commits), c.trees, c.leaves)
  }

  /** Every candidate comes from the commits. */
  ghost predicate Sourced(c: Candidates) {
    && (forall n :: n in c.trees ==> exists x :: x in c.commits && n in TreesUnder(x.tree))
    && (forall o :: o in c.leaves ==> exists n :: n in c.trees && o in FileRefs(n.entries))
  }

  /** The candidates hold all that their commits' trees point at. */
  ghost predicate Covered(source: set<Object>, c: Candidates) {
    (forall x :: x in c.commits ==> x.tree in c.trees) && Downward(source, c.trees, []) && Harvested(source, c.trees, c.leaves)
  }

  /** `_collect_candidates`. */
  method CollectCandidates(source: set<Object>, commits: seq<Commit>) returns (r: Candidates)
    ensures r.commits == commits
    ensures Covered(source, r) && Sourced(r)
  {
    var trees: set<Node> := {};
    hide TreesUnder, Downward;
    assert Downward(source, trees, []) by {
      NothingSeen(source);
    }
    for i := 0 to |commits|
      invariant forall c :: c in commits[..i] ==> c.tree in trees
      invariant Downward(source, trees, [])
      invariant forall n :: n in trees ==> exists c :: c in commits && n in TreesUnder(c.tree)
    {
      assert commits[..i + 1] == commits[..i] + [commits[i]];
      assert commits[i] in commits;
      trees := WalkTrees(source, commits[i].tree, trees);
    }
    assert commits[..|commits|] == commits;
    var leaves := HarvestLeaves(source, trees);
    r := Candidates(commits, trees, leaves);
  }

  lemma NothingSeen(source: set<Object>)
    ensures Downward(source, {}, [])
  {
  }

  // ---- The transfer ---------------------------------------------------------

  /** `execute_transfer_plan`: items are copied one by one, whatever is there already left alone. */
  method Transfer(source: set<Object>, target: set<Object>, plan: seq<Object>) returns (r: set<Object>)
    requires forall o :: o in plan ==> o in source
    ensures r == target + (set o | o in plan)
  {
    r := target;
    for i := 0 to |plan|
      invariant r == target + (set o | o in plan[..i])
    {
      assert plan[..i + 1] == plan[..i] + [plan[i]];
      r := r + {plan[i]};
    }
    assert plan[..|plan|] == plan;
  }

  /** The copied candidates and what was there before make a closed store that holds the
      whole head. */
  lemma CopiedIsClosed(source: set<Object>, target: set<Object>, head: Commit, c: Candidates)
    requires Closed(source) && CommitObject(head) in source && Closed(target)
    requires forall x :: x in c.commits <==> x in CommitsUnder(head) && CommitObject(x) !in target
    requires Covered(source, c) && Sourced(c)
    ensures AllOf(c) <= source
    ensures Closed(target + AllOf(c)) && CommitClosure(head) <= target + AllOf(c)
  {
    var all := target + AllOf(c);
    hide Sourced, Covered;
    CandidatesInSource(source, target, head, c);
    LeavesAreLeaves(c);
    hide CommitClosure, TreeClosure, TreesUnder, CommitsUnder, AllOf, Refs, Downward, Harvested, FileRefs, OnlyLeafRefs;
    forall o, r | o in AllOf(c) && r in Refs(o) ensures r in target || r in AllOf(c) {
      RefsCopied(source, target, head, c, o, r);
    }
    ClosedUnion(target, AllOf(c));
    HeadCopied(target, head, c);
    CommitInside(all, head);
  }

  lemma ClosedUnion(target: set<Object>, more: set<Object>)
    requires Closed(target)
    requires forall o, r :: o in more && r in Refs(o) ==> r in target || r in more
    ensures Closed(target + more)
  {
    hide Refs;
  }

  lemma HeadCopied(target: set<Object>, head: Commit, c: Candidates)
    requires forall x :: x in c.commits <==> x in CommitsUnder(head) && CommitObject(x) !in target
    ensures CommitObject(head) in target + AllOf(c)
  {
    assert head in CommitsUnder(head);
  }

  lemma LeavesAreLeaves(c: Candidates)
    requires Sourced(c)
    ensures OnlyLeafRefs(c.leaves)
  {
    forall o | o in c.leaves ensures o.BlobObject? || o.FooterObject? {
      var n :| n in c.trees && o in FileRefs(n.entries);
      FileRefsAreLeaves(n.entries);
    }
  }

  lemma RefsCopied(source: set<Object>, target: set<Object>, head: Commit, c: Candidates, o: Object, r: Object)
    requires AllOf(c) <= source && o in AllOf(c) && r in Refs(o) && OnlyLeafRefs(c.leaves)
    requires forall x :: x in c.commits <==> x in CommitsUnder(head) && CommitObject(x) !in target
    requires Covered(source, c)
    ensures r in target || r in AllOf(c)
  {
    hide CommitsUnder, Downward, Harvested;
    match o
    case CommitObject(x) =>
      CommitRefsCopied(target, head, c, x, r);
    case TreeObject(n) =>
      assert TreeObject(n) in source;
      TreeRefsCopied(source, c, n, r);
    case _ =>
  }

  lemma CommitRefsCopied(target: set<Object>, head: Commit, c: Candidates, x: Commit, r: Object)
    requires x in c.commits && r in Refs(CommitObject(x))
    requires forall x :: x in c.commits <==> x in CommitsUnder(head) && CommitObject(x) !in target
    requires forall x :: x in c.commits ==> x.tree in c.trees
    ensures r in target || r in AllOf(c)
  {
    if r.CommitObject? {
      ParentsUnder(head, x, r.commit);
    }
    hide CommitsUnder;
  }

  lemma TreeRefsCopied(source: set<Object>, c: Candidates, n: Node, r: Object)
    requires n in c.trees && TreeObject(n) in source && r in EntriesRefs(n.entries)
    requires Downward(source, c.trees, []) && Harvested(source, c.trees, c.leaves)
    ensures r in AllOf(c)
  {
    RefsSplit(n.entries, r);
    hide PointsAt, FileRefs, EntriesRefs;
  }

  lemma CandidatesInSource(source: set<Object>, target: set<Object>, head: Commit, c: Candidates)
    requires Closed(source) && CommitObject(head) in source
    requires forall x :: x in c.commits ==> x in CommitsUnder(head)
    requires Sourced(c)
    ensures AllOf(c) <= source
  {
    CommitInside(source, head);
    forall x | x in c.commits ensures CommitObject(x) in source && TreeClosure(x.tree) <= source {
      CommitsInClosure(head, x);
    }
    forall n | n in c.trees ensures TreeObject(n) in source && TreeClosure(n) <= source {
      var x :| x in c.commits && n in TreesUnder(x.tree);
      TreesInClosure(x.tree, n);
    }
    forall o | o in c.leaves ensures o in source {
      var n :| n in c.trees && o in FileRefs(n.entries);
      FileRefsInClosure(n.entries);
    }
  }

  /** One kind of candidates as plan items. */
  method Items(target: set<Object>, ids: set<Object>) returns (items: seq<Object>)
    ensures forall o :: o in items <==> o in ids && o !in target
  {
    var missing := MissingIds(target, ids);
    items := [];
    var rest := missing;
    while rest != {}
      invariant rest <= missing && forall o :: o in items <==> o in missing && o !in rest
      decreases |rest|
    {
      var o :| o in rest;
      items, rest := items + [o], rest - {o};
    }
  }

  /** `_build_plan`: commits first, then trees, then leaves; only what the target lacks. */
  method BuildPlan(target: set<Object>, c: Candidates) returns (plan: seq<Object>)
    ensures forall o :: o in plan <==> o in AllOf(c) && o !in target
  {
    var commits := Items(target, set x | x in c.commits :: CommitObject(x));
    var trees := Items(target, set n | n in c.trees :: TreeObject(n));
    var leaves := Items(target, c.leaves);
    plan := commits + trees + leaves;
    assert forall o :: o in AllOf(c) <==>
      (exists x :: x in c.commits && o == CommitObject(x)) || (exists n :: n in c.trees && o == TreeObject(n)) || o in c.leaves;
  }

  // ---- What a transfer is worth ---------------------------------------------

  /** The commits below `head` that `target` lacks, with their whole trees. */
  ghost function Owed(head: Commit, target: set<Object>): set<Object> {
    set x, o | x in CommitsUnder(head) && CommitObject(x) !in target && o in {CommitObject(x)} + TreeClosure(x.tree) :: o
  }

  /** Every commit below `head` that the target has already comes with its whole tree,
      there before or brought along by the commits it lacked. */
  ghost predicate TreesFollow(head: Commit, target: set<Object>, after: set<Object>) {
    forall x :: x in CommitsUnder(head) && CommitObject(x) in target ==> TreeClosure(x.tree) <= after
  }

  lemma {:induction false} ClosureByCommit(c: Commit, o: Object) returns (x: Commit)
    requires o in CommitClosure(c)
    ensures x in CommitsUnder(c) && o in {CommitObject(x)} + TreeClosure(x.tree)
    decreases c, 1
  {
    if o in ParentsClosure(c.parents) {
      x := ClosureByParent(c.parents, o);
    } else {
      x := c;
    }
  }

  lemma {:induction false} ClosureByParent(ps: seq<Commit>, o: Object) returns (x: Commit)
    requires o in ParentsClosure(ps)
    ensures x in CommitsOf(ps) && o in {CommitObject(x)} + TreeClosure(x.tree)
    decreases ps, 0
  {
    if o in CommitClosure(ps[0]) {
      x := ClosureByCommit(ps[0], o);
    } else {
      x := ClosureByParent(ps[1..], o);
    }
  }

  /** Whatever state earlier transfers left the target in, the next one leaves it with all
      that the head needs if and only if every commit already there comes with its tree. */
  lemma TransferIsRightIff(head: Commit, target: set<Object>)
    ensures CommitClosure(head) <= target + Owed(head, target) <==>
            TreesFollow(head, target, target + Owed(head, target))
  {
    var after := target + Owed(head, target);
    hide CommitsUnder, CommitClosure, TreeClosure;
    if CommitClosure(head) <= after {
      forall x | x in CommitsUnder(head) ensures TreeClosure(x.tree) <= after {
        CommitsInClosure(head, x);
      }
    }
    if TreesFollow(head, target, after) {
      forall o | o in CommitClosure(head) ensures o in after {
        var x := ClosureByCommit(head, o);
        if CommitObject(x) !in target {
          assert o in Owed(head, target);
        }
      }
    }
  }

  /** The candidates of the missing commits are just what is owed. */
  lemma CandidatesAreOwed(source: set<Object>, target: set<Object>, head: Commit, c: Candidates)
    requires Closed(source) && CommitObject(head) in source
    requires forall x :: x in c.commits <==> x in CommitsUnder(head) && CommitObject(x) !in target
    requires Covered(source, c) && Sourced(c)
    ensures AllOf(c) == Owed(head, target) && AllOf(c) <= source
  {
    hide Covered, Sourced, CommitsUnder, TreeClosure, AllOf;
    CandidatesInSource(source, target, head, c);
    LeavesAreLeaves(c);
    TreesGathered(source, c);
    forall o | o in AllOf(c) ensures o in Owed(head, target) {
      var x := OwedFor(c, o);
    }
    forall x, o | x in CommitsUnder(head) && CommitObject(x) !in target && o in {CommitObject(x)} + TreeClosure(x.tree)
      ensures o in AllOf(c)
    {
      assert x in c.commits;
    }
  }

  lemma OwedFor(c: Candidates, o: Object) returns (x: Commit)
    requires Sourced(c) && o in AllOf(c)
    ensures x in c.commits && o in {CommitObject(x)} + TreeClosure(x.tree)
  {
    hide TreesUnder, FileRefs;
    if o.CommitObject? && o.commit in c.commits {
      x := o.commit;
    } else {
      var n: Node;
      if o in c.leaves {
        n :| n in c.trees && o in FileRefs(n.entries);
        FileRefsInClosure(n.entries);
      } else {
        n := o.node;
      }
      x :| x in c.commits && n in TreesUnder(x.tree);
      TreesInClosure(x.tree, n);
    }
  }

  lemma TreesGathered(source: set<Object>, c: Candidates)
    requires AllOf(c) <= source && Covered(source, c) && OnlyLeafRefs(c.leaves)
    ensures forall x :: x in c.commits ==> CommitObject(x) in AllOf(c) && TreeClosure(x.tree) <= AllOf(c)
  {
    var gathered := Gathered({}, c.trees, c.leaves);
    forall n | n in c.trees ensures TreeObject(n) in source {
      assert TreeObject(n) in AllOf(c);
    }
    hide Downward, Harvested, EntriesClosure;
    assert forall n :: n in {} && n in c.trees ==> false;
    WalkedIsClosed(source, {}, c.trees, c.leaves);
    forall x | x in c.commits ensures TreeClosure(x.tree) <= AllOf(c) {
      assert TreeObject(x.tree) in gathered;
      ClosureInside(gathered, TreeObject(x.tree));
    }
  }

  lemma OwedIsNeeded(head: Commit, target: set<Object>)
    ensures Owed(head, target) <= CommitClosure(head)
  {
    hide CommitsUnder, CommitClosure, TreeClosure;
    forall x | x in CommitsUnder(head) ensures CommitObject(x) in CommitClosure(head) && TreeClosure(x.tree) <= CommitClosure(head) {
      CommitsInClosure(head, x);
    }
  }

  /** The object part of `push` and `pull`: an uninterrupted transfer adds just what is
      owed.  A closed store is closed again, with everything the head needs, before the
      ref moves; any other has it if and only if the trees of its commits follow. */
  method CopyHead(source: set<Object>, target: set<Object>, head: Commit, generation: Commit -> nat) returns (r: set<Object>)
    requires Closed(source) && CommitObject(head) in source
    requires Increasing(head, generation)
    ensures r == target + Owed(head, target)
    ensures CommitClosure(head) <= r <==> TreesFollow(head, target, r)
    ensures Closed(target) ==> Closed(r) && CommitClosure(head) <= r
    ensures forall o :: o in r && o !in target ==> o in CommitClosure(head)
  {
    hide *;
    var commits := CommitsToCopy(head, target, generation);
    TransferIsRightIff(head, target);
    OwedIsNeeded(head, target);
    if commits == [] {
      NothingMissing(target, head, commits);
      return target;
    }
    var candidates := CollectCandidates(source, commits);
    CandidatesAreOwed(source, target, head, candidates);
    if Closed(target) {
      CopiedIsClosed(source, target, head, candidates);
    }
    var plan := BuildPlan(target, candidates);
    r := Transfer(source, target, plan);
    assert r == target + AllOf(candidates);
  }

  lemma NothingMissing(target: set<Object>, head: Commit, commits: seq<Commit>)
    requires commits == []
    requires forall c :: c in commits <==> c in CommitsUnder(head) && CommitObject(c) !in target
    ensures Owed(head, target) == {} && target + Owed(head, target) == target
    ensures Closed(target) ==> CommitClosure(head) <= target
  {
    assert head in CommitsUnder(head);
    if Closed(target) {
      CommitInside(target, head);
    }
  }

  /** Interrupted right after the commit, a push leaves it without its tree; the next push
      owes nothing, and moves the ref although the tree does not follow. */
  lemma InterruptedTransferMisleads(target: set<Object>, head: Commit)
    requires Closed(target) && TreeObject(head.tree) !in target
    requires forall p :: p in head.parents ==> CommitObject(p) in target
    ensures var after := target + {CommitObject(head)};
      Owed(head, after) == {} && !TreesFollow(head, after, after) && !(CommitClosure(head) <= after)
  {
    var after := target + {CommitObject(head)};
    assert TreeObject(head.tree) in TreeClosure(head.tree) && head in CommitsUnder(head);
    forall c | c in CommitsUnder(head) ensures CommitObject(c) in after {
      if c != head {
        ParentsInside(target, head.parents);
        CommitsOfInClosure(head.parents, c);
      }
    }
  }
}
