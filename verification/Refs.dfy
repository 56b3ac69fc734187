/** Moving one ref: the local and the conditional-put compare-and-set, the staged
    commit's retries, and the ancestry check before a fast-forward. */
module Refs {
  import opened Paths
  import opened Objects
  import opened Trees
  import CommitDag
  import Rebuild
  import Splice

  // ---- Compare and set ------------------------------------------------------

  /** A ref as the remote store keeps it; an empty body is a branch without commits. */
  datatype RefObject = Missing | Present(commit: Option<Commit>, etag: Option<string>)

  function CommitOf(r: RefObject): Option<Commit> {
    if r.Present? then r.commit else None
  }

  /** What a put is conditioned on. */
  datatype Condition = IfNoneMatch | IfMatch(etag: string)

  predicate Met(condition: Condition, r: RefObject) {
    match condition
    case IfNoneMatch => r.Missing?
    case IfMatch(etag) => r.Present? && r.etag == Some(etag)
  }

  /** Equal tags mean equal content. */
  ghost predicate TagsIdentify(a: RefObject, b: RefObject) {
    a.Present? && b.Present? && a.etag.Some? && a.etag == b.etag ==> a.commit == b.commit
  }

  class RemoteRef {
    var content: RefObject

    constructor ()
      ensures content == Missing
    {
      content := Missing;
    }

    /** `write_branch_ref`: a conditional put; the store picks the new tag. */
    method Put(commit: Option<Commit>, condition: Condition, tag: Option<string>) returns (ok: bool)
      modifies this
      ensures condition.IfNoneMatch? ==> (ok <==> old(content) == Missing)
      ensures condition.IfMatch? ==> (ok <==> old(content).Present? && old(content).etag == Some(condition.etag))
      ensures content == if ok then Present(commit, tag) else old(content)
    {
      ok := Met(condition, content);
      if ok {
        content := Present(commit, tag);
      }
    }

    /** `compare_and_set_branch_ref` over a remote store: `between` is what other writers
        have made of the ref by the time the put arrives.  If it succeeds, the ref held
        the expected commit right then and changed to the new one in that instant;
        otherwise this writer changed nothing. */
    method CompareAndSet(commit: Option<Commit>, expected: Option<Commit>, between: RefObject, tag: Option<string>)
      returns (ok: bool)
      requires TagsIdentify(content, between)
      modifies this
      ensures ok ==> content == Present(commit, tag)
      ensures ok ==> if between == Missing then expected == None else between.commit == expected
      ensures !ok ==> content == old(content) || content == between
      ensures between == old(content) && (between.Present? ==> between.etag.Some?) ==>
        (ok <==> if between == Missing then expected == None else between.commit == expected)
    {
      var response := content;
      if CommitOf(response) != expected {
        return false;
      }
      content := between;
      match response
      case Missing => ok := Put(commit, IfNoneMatch, tag);
      case Present(_, None) => ok := false;
      case Present(_, Some(etag)) => ok := Put(commit, IfMatch(etag), tag);
    }
  }

  class LocalRef {
    var commit: Option<Commit>

    constructor ()
      ensures commit == None
    {
      commit := None;
    }

    /** `compare_and_set_branch_ref` on files, under the repository's lock. */
    method CompareAndSet(next: Option<Commit>, expected: Option<Commit>) returns (ok: bool)
      modifies this
      ensures ok <==> old(commit) == expected
      ensures commit == if ok then next else old(commit)
    {
      if commit != expected {
        return false;
      }
      commit := next;
      return true;
    }
  }

  // ---- The staged commit's retry loop ---------------------------------------

  /** What the shared ref is around one attempt: when the client looks at it without a
      snapshot, when the compare-and-set runs, and when it is read after a conflict. */
  datatype Around = Around(look: Option<Option<Commit>>, head: Option<Commit>, after: Option<Option<Commit>>)

  function TreeOf(c: Option<Commit>): Option<Node> {
    if c.Some? then Some(c.value.tree) else None
  }

  ghost predicate PublishedHead(m: nat, c: Option<Commit>) {
    c.Some? ==> WellFormed(m, c.value.tree.entries)
  }

  ghost predicate PublishedSight(m: nat, c: Option<Option<Commit>>) {
    c.Some? ==> PublishedHead(m, c.value)
  }

  /** What the client takes the branch to be at attempt `i`: what it read after the last
      conflict that it read anything after, or its snapshot, or else what it sees on looking. */
  ghost function Expected(snapshot: Option<Option<Commit>>, attempts: seq<Around>, i: nat): Option<Commit>
    requires i < |attempts|
  {
    var known := Known(snapshot, attempts, i);
    if known.Some? then known.value else if attempts[i].look.Some? then attempts[i].look.value else None
  }

  ghost function Known(snapshot: Option<Option<Commit>>, attempts: seq<Around>, i: nat): Option<Option<Commit>>
    requires i <= |attempts|
  {
    if i == 0 then snapshot
    else if attempts[i - 1].after.Some? then attempts[i - 1].after
    else
      var before := Known(snapshot, attempts, i - 1);
      if before.Some? then before else attempts[i - 1].look
  }

  lemma KnownFirst(snapshot: Option<Option<Commit>>, attempts: seq<Around>)
    ensures Known(snapshot, attempts, 0) == snapshot
  {
  }

  /** A branch that nobody moved after a client read it is as expected. */
  lemma UnmovedIsExpected(snapshot: Option<Option<Commit>>, attempts: seq<Around>, won: nat)
    requires won <= |attempts|
    requires forall i {:trigger Expected(snapshot, attempts, i)} :: 0 <= i < won ==> attempts[i].head != Expected(snapshot, attempts, i)
    ensures forall i :: 0 < i < |attempts| && attempts[i - 1].after == Some(attempts[i].head) ==> won <= i
  {
    forall i | 0 < i < |attempts| && attempts[i - 1].after == Some(attempts[i].head) ensures won <= i {
      assert Expected(snapshot, attempts, i) == attempts[i].head;
    }
  }

  /** What is known changes only where something was read. */
  lemma KnownNext(snapshot: Option<Option<Commit>>, attempts: seq<Around>, i: nat, cached: Option<Option<Commit>>)
    requires i < |attempts| && cached == Known(snapshot, attempts, i)
    ensures var seen := if cached.None? then attempts[i].look else cached;
      && Expected(snapshot, attempts, i) == (if seen.Some? then seen.value else None)
      && Known(snapshot, attempts, i + 1) == if attempts[i].after.Some? then attempts[i].after else seen
  {
  }

  datatype StagedOutcome = Committed(commit: Commit) | Rejected | Lost

  /** `commit(staged_only=True)`: on a conflict the staged changes are applied anew to
      what the branch is then.  A commit that wins has the very head it replaces as its only
      parent, and that head's flat map with the staged changes spliced in; a branch without
      commits gets the additions alone.  One that never wins leaves the branch alone. */
  method CommitStaged(m: nat, message: string, adds: seq<Item>, removed: set<Path>,
      snapshot: Option<Option<Commit>>, attempts: seq<Around>)
    returns (r: StagedOutcome, won: nat)
    requires 2 <= m && forall a :: a in adds ==> a.path != []
    requires PublishedSight(m, snapshot)
    requires forall x :: x in attempts ==> PublishedSight(m, x.look) && PublishedHead(m, x.head) && PublishedSight(m, x.after)
    ensures r.Committed? ==>
      && won < |attempts|
      && r.commit.message == message
      && (attempts[won].head.Some? ==> r.commit.parents == [attempts[won].head.value])
      && (attempts[won].head.None? ==> r.commit.parents == [])
    ensures r.Committed? && attempts[won].head.Some? ==> forall p: Path :: p != [] ==>
      LeafAt(r.commit.tree.entries, p) ==
      Splice.SplicedLeaf(LeafAt(attempts[won].head.value.tree.entries, p), p, adds, removed)
    ensures r.Committed? && attempts[won].head.None? && Splice.PrefixFree(adds) && Rebuild.DistinctPaths(adds) ==>
      forall p: Path :: p != [] ==>
        LeafAt(r.commit.tree.entries, p) == Splice.SplicedLeaf(None, p, adds, {})
    ensures r.Rejected? ==> !Splice.PrefixFree(adds) || !Rebuild.DistinctPaths(adds)
    ensures r.Lost? ==> won == |attempts|
    ensures !r.Lost? ==> won < |attempts|
    ensures forall i {:trigger Expected(snapshot, attempts, i)} :: 0 <= i < won ==> attempts[i].head != Expected(snapshot, attempts, i)
    ensures r.Committed? ==> attempts[won].head == Expected(snapshot, attempts, won)
    ensures forall i :: 0 < i < |attempts| && attempts[i - 1].after == Some(attempts[i].head) ==> !r.Lost? && won <= i
  {
    hide Known, Expected, WellFormed, LeafAt, Splice.SplicedLeaf, Splice.PrefixFree, Rebuild.DistinctPaths;
    var cached := snapshot;
    won := 0;
    KnownFirst(snapshot, attempts);
    NoLeaves();
    while won < |attempts|
      invariant won <= |attempts| && PublishedSight(m, cached)
      invariant cached == Known(snapshot, attempts, won)
      invariant forall i {:trigger Expected(snapshot, attempts, i)} :: 0 <= i < won ==> attempts[i].head != Expected(snapshot, attempts, i)
    {
      var now := attempts[won];
      assert now in attempts;
      KnownNext(snapshot, attempts, won, cached);
      UnmovedIsExpected(snapshot, attempts, won);
      if cached.None? {
        cached := now.look;
      }
      var expected := if cached.Some? then cached.value else None;
      var tree := Rebuild.SpliceOrBuild(m, TreeOf(expected), adds, removed);
      if tree.Failure? {
        return Rejected, won;
      }
      var commit := Commit(message, tree.value, ParentsOn(expected));
      if now.head == expected {
        return Committed(commit), won;
      }
      if now.after.Some? {
        cached := now.after;
      }
      won := won + 1;
    }
    UnmovedIsExpected(snapshot, attempts, won);
    return Lost, won;
  }

  // ---- The ancestry check ---------------------------------------------------

  /** A history that knows the commits `all` under their names. */
  ghost predicate Describes(h: CommitDag.History, name: Commit -> CommitDag.Id, all: set<Commit>) {
    && (forall c :: c in all ==> name(c) in h && |h[name(c)].parents| == |c.parents|)
    && (forall c, i :: c in all && 0 <= i < |c.parents| ==>
          c.parents[i] in all && h[name(c)].parents[i] == name(c.parents[i]))
    && (forall c, d :: c in all && d in all && name(c) == name(d) ==> c == d)
  }

  /** On named commits, what the ancestry walk decides is being an ancestor. */
  lemma {:induction false} WalkDecidesAncestry(h: CommitDag.History, rank: CommitDag.Id -> nat,
      name: Commit -> CommitDag.Id, all: set<Commit>, a: Commit, d: Commit)
    requires CommitDag.Ranked(h, rank) && Describes(h, name, all) && a in all && d in all
    ensures CommitDag.Reaches(h, rank, name(d), name(a)) <==> Ancestor(a, d)
    decreases d
  {
    if a != d {
      var ps := h[name(d)].parents;
      forall i | 0 <= i < |d.parents|
        ensures CommitDag.Reaches(h, rank, ps[i], name(a)) <==> Ancestor(a, d.parents[i])
      {
        assert d.parents[i] in d.parents;
        WalkDecidesAncestry(h, rank, name, all, a, d.parents[i]);
      }
      if Ancestor(a, d) {
        var p :| p in d.parents && Ancestor(a, p);
        var i :| 0 <= i < |d.parents| && d.parents[i] == p;
        assert ps[i] in ps;
      }
      if CommitDag.Reaches(h, rank, name(d), name(a)) {
        var q :| q in ps && CommitDag.Reaches(h, rank, q, name(a));
        var i :| 0 <= i < |ps| && ps[i] == q;
        assert d.parents[i] in d.parents;
      }
    }
  }

  /** `fast_forward_branch`: moves only to a descendant of what the client expects, and
      says when it must not. */
  datatype Forward = Already | Refused | TryMove

  method DecideForward(h: CommitDag.History, ghost rank: CommitDag.Id -> nat, current: Option<CommitDag.Id>, target: CommitDag.Id)
    returns (r: Forward)
    requires CommitDag.Ranked(h, rank) && CommitDag.Increasing(h, rank)
    ensures r == Already <==> current == Some(target)
    ensures r == TryMove <==>
      current != Some(target) && (current.Some? ==> CommitDag.Reaches(h, rank, target, current.value))
  {
    if current == Some(target) {
      return Already;
    }
    if current.Some? {
      var below := CommitDag.IsAncestor(h, current.value, target, rank);
      if !below {
        return Refused;
      }
    }
    return TryMove;
  }
}
