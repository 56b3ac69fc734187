/** Many clients on one store: objects are published first, then a branch moves by
    compare-and-set against the head the client last saw. */
module RefProtocol {
  import opened Paths
  import opened Trees
  import opened Objects
  import Reach

  type Client = string
  type Branch = string

  /** A merge under way: the branch, the head it was resolved to, and whether the client
      had a snapshot of the branch then. */
  datatype Merge = Merge(branch: Branch, target: Commit, cached: bool)

  /** The shared store and refs, and what each client keeps: branch snapshots, a merge
      under way, and the objects it takes to be published. */
  datatype State = State(
    store: set<Object>,
    refs: map<Branch, Option<Commit>>,
    snapshots: map<(Client, Branch), Option<Commit>>,
    merging: map<Client, Merge>,
    published: map<Client, set<Object>>)

  function Head(s: State, b: Branch): Option<Commit> {
    if b in s.refs then s.refs[b] else None
  }

  function Published(s: State, c: Client): set<Object> {
    if c in s.published then s.published[c] else {}
  }

  /** What a client expects a branch to be: its snapshot, or that it is unborn. */
  function Expected(s: State, c: Client, b: Branch): Option<Commit> {
    if (c, b) in s.snapshots then s.snapshots[(c, b)] else None
  }

  datatype Step =
    | ReadObject(client: Client, object: Object)
    | WriteObject(client: Client, object: Object)
    | SkipWrite(client: Client, node: Node, root: Node, dir: Path)
    | CopyEntry(client: Client, node: Node, object: Object)
    | TakeSnapshot(client: Client, branch: Branch)
    | Refresh(client: Client, branch: Branch)
    | CreateBranch(client: Client, branch: Branch, commit: Commit)
    | CommitTo(client: Client, branch: Branch, commit: Commit)
    | FastForward(client: Client, branch: Branch, target: Commit)
    | BeginMerge(client: Client, branch: Branch)
    | LateLook(client: Client)
    | FinishMerge(client: Client, source: Commit, commit: Commit)
    | AbandonMerge(client: Client)

  predicate DuringMerge(step: Step) {
    step.LateLook? || step.FinishMerge? || step.AbandonMerge?
  }

  predicate OfObjects(step: Step) {
    step.ReadObject? || step.WriteObject? || step.SkipWrite? || step.CopyEntry?
  }

  /** When a client takes a step.  An object is written after what it points at; a node is
      skipped only if it is the node of a directory, or a subtree or shard of one, in a tree
      the client read or wrote; an entry is copied with what it points at.  A client merging
      reads and writes objects, looks at the branch late if it has no snapshot of it, and
      then tries to move it or gives up. */
  ghost predicate Enabled(s: State, step: Step) {
    && (DuringMerge(step) ==> step.client in s.merging)
    && (step.client in s.merging ==> DuringMerge(step) || OfObjects(step))
    && match step
       case ReadObject(c, o) => o in s.store
       case WriteObject(c, o) => Refs(o) <= Published(s, c)
       case SkipWrite(c, node, root, dir) => TreeObject(root) in Published(s, c) && node in Reach.KnownAt(root, dir)
       case CopyEntry(c, node, o) => TreeObject(node) in Published(s, c) && o in Refs(TreeObject(node))
       case TakeSnapshot(c, b) => b in s.refs && (c, b) !in s.snapshots
       case Refresh(c, b) => b in s.refs
       case CreateBranch(c, b, commit) => CommitObject(commit) in s.store
       case CommitTo(c, b, commit) =>
         CommitObject(commit) in Published(s, c) && commit.parents == ParentsOn(Expected(s, c, b))
       case FastForward(c, b, target) =>
         CommitObject(target) in s.store &&
         (Expected(s, c, b).Some? ==> Ancestor(Expected(s, c, b).value, target))
       case BeginMerge(c, b) => Head(s, b).Some?
       case LateLook(c) => s.merging[c].branch in s.refs && (c, s.merging[c].branch) !in s.snapshots
       case FinishMerge(c, source, commit) =>
         CommitObject(commit) in Published(s, c) && commit.parents == [s.merging[c].target, source] &&
         (c, s.merging[c].branch) in s.snapshots
       case AbandonMerge(c) => true
  }

  /** `compare_and_set_branch_ref` and the snapshot the client keeps of the outcome. */
  function CompareAndSet(s: State, c: Client, b: Branch, expected: Option<Commit>, commit: Commit): State {
    if Head(s, b) == expected then
      s.(refs := s.refs[b := Some(commit)], snapshots := s.snapshots[(c, b) := Some(commit)])
    else if b in s.refs then s.(snapshots := s.snapshots[(c, b) := s.refs[b]])
    else s
  }

  /** A client comes to know an object that is in the store. */
  function Learns(s: State, c: Client, o: Object): State {
    s.(published := s.published[c := Published(s, c) + {o}])
  }

  function Looks(s: State, c: Client, b: Branch): State {
    s.(snapshots := s.snapshots[(c, b) := Head(s, b)])
  }

  function Forget(s: State, c: Client): State {
    s.(merging := s.merging - {c})
  }

  function Next(s: State, step: Step): State
    requires DuringMerge(step) ==> step.client in s.merging
  {
    match step
    case ReadObject(c, o) => Learns(s, c, o)
    case WriteObject(c, o) => Learns(s.(store := s.store + {o}), c, o)
    case SkipWrite(c, node, _, _) => Learns(s, c, TreeObject(node))
    case CopyEntry(c, _, o) => Learns(s, c, o)
    case TakeSnapshot(c, b) => Looks(s, c, b)
    case Refresh(c, b) => Looks(s, c, b)
    case CreateBranch(c, b, commit) => CompareAndSet(s, c, b, None, commit)
    case CommitTo(c, b, commit) => CompareAndSet(s, c, b, Expected(s, c, b), commit)
    case FastForward(c, b, target) => CompareAndSet(s, c, b, Expected(s, c, b), target)
    case BeginMerge(c, b) =>
      if Head(s, b).Some? then s.(merging := s.merging[c := Merge(b, Head(s, b).value, (c, b) in s.snapshots)]) else s
    case LateLook(c) => Looks(s, c, s.merging[c].branch)
    case FinishMerge(c, _, commit) =>
      var b := s.merging[c].branch;
      CompareAndSet(Forget(s, c), c, b, Expected(s, c, b), commit)
    case AbandonMerge(c) => Forget(s, c)
  }

  // ---- What every step keeps ------------------------------------------------

  /** `later` has everything that was ever at `earlier`. */
  ghost predicate Follows(earlier: Option<Commit>, later: Option<Commit>) {
    earlier.Some? ==> later.Some? && Ancestor(earlier.value, later.value)
  }

  lemma FollowsTransitive(a: Option<Commit>, b: Option<Commit>, c: Option<Commit>)
    requires Follows(a, b) && Follows(b, c)
    ensures Follows(a, c)
  {
    if a.Some? {
      AncestorTransitive(a.value, b.value, c.value);
    }
  }

  /** The store is closed and holds what clients and branches rely on. */
  ghost predicate Stored(s: State) {
    && Closed(s.store)
    && (forall c :: c in s.published ==> s.published[c] <= s.store)
    && (forall b :: b in s.refs && s.refs[b].Some? ==> CommitObject(s.refs[b].value) in s.store)
  }

  /** Snapshots are old heads; so is a merge's target, no older than the snapshot it was
      begun with. */
  ghost predicate Orderly(s: State) {
    && (forall k :: k in s.snapshots ==> Follows(s.snapshots[k], Head(s, k.1)))
    && (forall c :: c in s.merging ==> MergeOrderly(s, c))
  }

  ghost predicate MergeOrderly(s: State, c: Client)
    requires c in s.merging
  {
    var merge := s.merging[c];
    && Follows(Some(merge.target), Head(s, merge.branch))
    && (merge.cached ==>
          (c, merge.branch) in s.snapshots && Follows(s.snapshots[(c, merge.branch)], Some(merge.target)))
  }

  /** No branch moves except to a descendant of its head. */
  ghost predicate Progress(s: State, s': State) {
    forall b: Branch :: Follows(Head(s, b), Head(s', b))
  }

  lemma NewParent(parent: Commit, commit: Commit)
    requires parent in commit.parents
    ensures Ancestor(parent, commit)
  {
    assert Ancestor(parent, parent);
  }

  lemma ItselfFollows(a: Option<Commit>)
    ensures Follows(a, a)
  {
  }

  // ---- The store ------------------------------------------------------------

  lemma LearnedStored(s: State, c: Client, o: Object)
    requires Stored(s) && o in s.store
    ensures Stored(Learns(s, c, o))
  {
    hide Closed;
  }

  lemma WrittenStored(s: State, c: Client, o: Object)
    requires Stored(s) && Refs(o) <= Published(s, c)
    ensures Stored(Learns(s.(store := s.store + {o}), c, o))
  {
    hide Refs;
  }

  /** What a client may skip is in the store already, as part of a tree it read or wrote. */
  lemma SkippedIsStored(s: State, c: Client, node: Node, root: Node, dir: Path)
    requires Stored(s) && TreeObject(root) in Published(s, c) && node in Reach.KnownAt(root, dir)
    ensures TreeObject(node) in s.store
  {
    ClosureInside(s.store, TreeObject(root));
    Reach.KnownInClosure(root, dir, node);
    assert TreeObject(node) in TreeClosure(node);
  }

  lemma SetStored(s: State, c: Client, b: Branch, expected: Option<Commit>, commit: Commit)
    requires Stored(s) && CommitObject(commit) in s.store
    ensures Stored(CompareAndSet(s, c, b, expected, commit))
  {
    hide Closed;
  }

  /** The store part of the invariant looks at neither snapshots nor merges. */
  lemma StoredStays(s: State, s': State)
    requires Stored(s) && s'.store == s.store && s'.refs == s.refs && s'.published == s.published
    ensures Stored(s') && forall b: Branch :: Head(s', b) == Head(s, b)
  {
    hide Closed;
  }

  /** Every step, of whatever run, keeps the store closed and complete. */
  lemma StoredKept(s: State, step: Step)
    requires Stored(s) && Enabled(s, step)
    ensures Stored(Next(s, step))
  {
    match step
    case ReadObject(c, o) => LearnedStored(s, c, o);
    case WriteObject(c, o) => WrittenStored(s, c, o);
    case SkipWrite(c, node, root, dir) =>
      SkippedIsStored(s, c, node, root, dir);
      LearnedStored(s, c, TreeObject(node));
    case CopyEntry(c, node, o) =>
      assert TreeObject(node) in s.store;
      LearnedStored(s, c, o);
    case CreateBranch(c, b, commit) => SetStored(s, c, b, None, commit);
    case CommitTo(c, b, commit) => SetStored(s, c, b, Expected(s, c, b), commit);
    case FastForward(c, b, target) => SetStored(s, c, b, Expected(s, c, b), target);
    case FinishMerge(c, _, commit) =>
      var b := s.merging[c].branch;
      StoredStays(s, Forget(s, c));
      SetStored(Forget(s, c), c, b, Expected(s, c, b), commit);
    case _ => StoredStays(s, Next(s, step));
  }

  // ---- The order of heads ---------------------------------------------------

  /** A compare-and-set moves no branch backwards exactly if it loses, or goes above what it
      expected. */
  lemma SetProgress(s: State, c: Client, b: Branch, expected: Option<Commit>, commit: Commit)
    ensures Progress(s, CompareAndSet(s, c, b, expected, commit)) <==>
            (Head(s, b) == expected ==> Follows(expected, Some(commit)))
  {
    var s' := CompareAndSet(s, c, b, expected, commit);
    forall x: Branch | x != b || Head(s, b) != expected ensures Follows(Head(s, x), Head(s', x)) {
      ItselfFollows(Head(s, x));
    }
    assert Head(s, b) == expected ==> Head(s', b) == Some(commit);
    hide Ancestor;
  }

  lemma SetOrderly(s: State, c: Client, b: Branch, expected: Option<Commit>, commit: Commit)
    requires Orderly(s) && c !in s.merging && Progress(s, CompareAndSet(s, c, b, expected, commit))
    ensures Orderly(CompareAndSet(s, c, b, expected, commit))
  {
    var s' := CompareAndSet(s, c, b, expected, commit);
    hide Follows;
    forall k | k in s'.snapshots ensures Follows(s'.snapshots[k], Head(s', k.1)) {
      if s'.snapshots[k] == Head(s', k.1) {
        ItselfFollows(Head(s', k.1));
      } else {
        FollowsTransitive(s.snapshots[k], Head(s, k.1), Head(s', k.1));
      }
    }
    forall x | x in s'.merging ensures MergeOrderly(s', x) {
      assert MergeOrderly(s, x) && x != c;
      FollowsTransitive(Some(s.merging[x].target), Head(s, s.merging[x].branch), Head(s', s.merging[x].branch));
    }
  }

  /** The order part of the invariant looks at refs, snapshots and merges alone. */
  lemma OrderlyStays(s: State, s': State)
    requires Orderly(s) && s'.refs == s.refs && s'.snapshots == s.snapshots
    requires forall c :: c in s'.merging ==> c in s.merging && s'.merging[c] == s.merging[c]
    ensures Orderly(s')
  {
    hide Follows;
    assert forall b: Branch :: Head(s', b) == Head(s, b);
    forall c | c in s'.merging ensures MergeOrderly(s', c) {
      assert MergeOrderly(s, c);
    }
  }

  lemma LookOrderly(s: State, c: Client, b: Branch)
    requires Orderly(s) && (c in s.merging && s.merging[c].branch == b ==> !s.merging[c].cached)
    ensures Orderly(Looks(s, c, b))
  {
    ItselfFollows(Head(s, b));
    hide Follows;
    var s' := Looks(s, c, b);
    assert forall x: Branch :: Head(s', x) == Head(s, x);
    forall x | x in s'.merging ensures MergeOrderly(s', x) {
      assert MergeOrderly(s, x);
    }
  }

  lemma MergeRecorded(s: State, c: Client, b: Branch)
    requires Orderly(s) && Head(s, b).Some? && c !in s.merging
    ensures Orderly(Next(s, BeginMerge(c, b)))
  {
    ItselfFollows(Head(s, b));
    hide Follows;
    var s' := Next(s, BeginMerge(c, b));
    assert forall x: Branch :: Head(s', x) == Head(s, x);
    forall x | x in s'.merging ensures MergeOrderly(s', x) {
      assert x != c ==> MergeOrderly(s, x);
    }
  }

  lemma SameHeads(s: State, s': State)
    requires s'.refs == s.refs
    ensures Progress(s, s')
  {
    forall b: Branch ensures Follows(Head(s, b), Head(s', b)) {
      ItselfFollows(Head(s, b));
    }
  }

  /** A step that moves no branch backwards leaves snapshots and targets old heads. */
  lemma OrderKept(s: State, step: Step)
    requires Orderly(s) && Enabled(s, step) && Progress(s, Next(s, step))
    ensures Orderly(Next(s, step))
  {
    hide Orderly, Progress;
    match step
    case TakeSnapshot(c, b) => LookOrderly(s, c, b);
    case Refresh(c, b) => LookOrderly(s, c, b);
    case CreateBranch(c, b, commit) => SetOrderly(s, c, b, None, commit);
    case CommitTo(c, b, commit) => SetOrderly(s, c, b, Expected(s, c, b), commit);
    case FastForward(c, b, target) => SetOrderly(s, c, b, Expected(s, c, b), target);
    case BeginMerge(c, b) => MergeRecorded(s, c, b);
    case LateLook(c) =>
      CachedHasSnapshot(s, c);
      LookOrderly(s, c, s.merging[c].branch);
    case FinishMerge(c, source, commit) =>
      OrderlyStays(s, Forget(s, c));
      SameHeads(Forget(s, c), s);
      ForgetKeepsHeads(s, c, Next(s, step));
      SetOrderly(Forget(s, c), c, s.merging[c].branch, Expected(s, c, s.merging[c].branch), commit);
    case _ => OrderlyStays(s, Next(s, step));
  }

  lemma CachedHasSnapshot(s: State, c: Client)
    requires Orderly(s) && c in s.merging
    ensures s.merging[c].cached ==> (c, s.merging[c].branch) in s.snapshots
  {
    assert MergeOrderly(s, c);
  }

  lemma ForgetKeepsHeads(s: State, c: Client, s': State)
    ensures forall b: Branch :: Head(Forget(s, c), b) == Head(s, b)
    ensures Progress(Forget(s, c), s') <==> Progress(s, s')
  {
    hide Follows;
  }

  // ---- When a merge keeps the head ------------------------------------------

  /** The head that a merge is about to replace is the target it merged into, or belongs to
      the source's history, or is that very merge. */
  ghost predicate SeenByMerge(head: Commit, target: Commit, source: Commit, commit: Commit) {
    head == target || Ancestor(head, source) || head == commit
  }

  /** A merge commit comes after a head no older than its target exactly if it has seen it. */
  lemma MergeKeepsIff(head: Commit, target: Commit, source: Commit, commit: Commit)
    requires commit.parents == [target, source] && Ancestor(target, head)
    ensures Ancestor(head, commit) <==> SeenByMerge(head, target, source, commit)
  {
    assert target in commit.parents && source in commit.parents;
    NewParent(target, commit);
    NewParent(source, commit);
    if Ancestor(head, source) {
      AncestorTransitive(head, source, commit);
    }
    if Ancestor(head, commit) && head != commit {
      var p :| p in commit.parents && Ancestor(head, p);
      assert p == target || p == source;
      if p == target {
        AncestorAntisymmetric(head, target);
      }
    }
  }

  /** A step is careful unless it is a merge that wins its compare-and-set although it has
      not seen the head: the late look saw a head newer than the target. */
  ghost predicate Careful(s: State, step: Step)
    requires DuringMerge(step) ==> step.client in s.merging
  {
    step.FinishMerge? ==>
      var merge := s.merging[step.client];
      var head := Head(s, merge.branch);
      head.Some? && head == Expected(s, step.client, merge.branch) ==>
        SeenByMerge(head.value, merge.target, step.source, step.commit)
  }

  /** Exactly the careful steps move branches forward only. */
  lemma ForwardIff(s: State, step: Step)
    requires Orderly(s) && Enabled(s, step)
    ensures Progress(s, Next(s, step)) <==> Careful(s, step)
  {
    hide Progress, Orderly, SeenByMerge, Ancestor;
    match step
    case CreateBranch(c, b, commit) => SetProgress(s, c, b, None, commit);
    case CommitTo(c, b, commit) =>
      var expected := Expected(s, c, b);
      if expected.Some? {
        assert expected.value in commit.parents;
        NewParent(expected.value, commit);
      }
      SetProgress(s, c, b, expected, commit);
    case FastForward(c, b, target) => SetProgress(s, c, b, Expected(s, c, b), target);
    case FinishMerge(c, source, commit) =>
      var merge := s.merging[c];
      var head := Head(s, merge.branch);
      SetProgress(Forget(s, c), c, merge.branch, Expected(s, c, merge.branch), commit);
      ForgetKeepsHeads(s, c, Next(s, step));
      if head.Some? {
        TargetIsOld(s, c);
        MergeKeepsIff(head.value, merge.target, source, commit);
      }
    case _ => SameHeads(s, Next(s, step));
  }

  lemma TargetIsOld(s: State, c: Client)
    requires Orderly(s) && c in s.merging
    ensures Follows(Some(s.merging[c].target), Head(s, s.merging[c].branch))
  {
    assert MergeOrderly(s, c);
  }

  /** A merge begun with a snapshot at hand that wins merged into the very head it replaces. */
  lemma MergedIntoHead(s: State, c: Client)
    requires Orderly(s) && c in s.merging && s.merging[c].cached
    requires Head(s, s.merging[c].branch) == Expected(s, c, s.merging[c].branch)
    ensures Head(s, s.merging[c].branch) == Some(s.merging[c].target)
  {
    var merge := s.merging[c];
    var head := Head(s, merge.branch);
    assert MergeOrderly(s, c);
    assert head.Some? && Follows(head, Some(merge.target)) && Follows(Some(merge.target), head);
    AncestorAntisymmetric(head.value, merge.target);
  }

  // ---- Whole runs -----------------------------------------------------------

  const EMPTY := State({}, map[], map[], map[], map[])

  ghost predicate Run(states: seq<State>, steps: seq<Step>) {
    && |states| == |steps| + 1 && states[0] == EMPTY
    && forall i :: 0 <= i < |steps| ==> Enabled(states[i], steps[i]) && states[i + 1] == Next(states[i], steps[i])
  }

  lemma {:induction false} RunStored(states: seq<State>, steps: seq<Step>, i: nat)
    requires Run(states, steps) && i < |states|
    ensures Stored(states[i])
  {
    if 0 < i {
      RunStored(states, steps, i - 1);
      StoredKept(states[i - 1], steps[i - 1]);
    }
  }

  /** In every run, at every step, all that a branch head needs is in the store. */
  lemma HeadsAreComplete(states: seq<State>, steps: seq<Step>, i: nat, b: Branch)
    requires Run(states, steps) && i < |states| && Head(states[i], b).Some?
    ensures CommitClosure(Head(states[i], b).value) <= states[i].store
  {
    RunStored(states, steps, i);
    CommitInside(states[i].store, Head(states[i], b).value);
  }

  /** No head was lost up to the i-th state: each head of a branch is an ancestor of all its
      later heads. */
  ghost predicate NoneLost(states: seq<State>, i: nat)
    requires i < |states|
  {
    forall j, k, b: Branch :: 0 <= j <= k <= i ==> Follows(Head(states[j], b), Head(states[k], b))
  }

  lemma {:induction false} RunOrderly(states: seq<State>, steps: seq<Step>, i: nat)
    requires Run(states, steps) && i < |states| && NoneLost(states, i)
    ensures Orderly(states[i])
  {
    if 0 < i {
      RunOrderly(states, steps, i - 1);
      assert states[i] == Next(states[i - 1], steps[i - 1]) && Progress(states[i - 1], states[i]);
      hide Next, Enabled, Orderly, Progress;
      OrderKept(states[i - 1], steps[i - 1]);
    }
  }

  lemma LostNext(states: seq<State>, i: nat)
    requires i + 1 < |states| && NoneLost(states, i) && Progress(states[i], states[i + 1])
    ensures NoneLost(states, i + 1)
  {
    hide Follows;
    forall j, k, b: Branch | 0 <= j <= k <= i + 1 ensures Follows(Head(states[j], b), Head(states[k], b)) {
      if j == k {
        ItselfFollows(Head(states[j], b));
      } else if k == i + 1 {
        FollowsTransitive(Head(states[j], b), Head(states[i], b), Head(states[i + 1], b));
      }
    }
  }

  /** A run has lost no head exactly if every step of it was careful. */
  lemma {:induction false} HeadsLostExactly(states: seq<State>, steps: seq<Step>, i: nat)
    requires Run(states, steps) && i < |states|
    ensures NoneLost(states, i) <==> forall k :: 0 <= k < i ==> Careful(states[k], steps[k])
  {
    hide Careful, Next, Orderly, Progress, NoneLost, Refs, Ancestor;
    if i == 0 {
      NothingLost(states);
    } else {
      HeadsLostExactly(states, steps, i - 1);
      if NoneLost(states, i) {
        LostBefore(states, i);
      }
      if NoneLost(states, i - 1) {
        RunOrderly(states, steps, i - 1);
        ForwardIff(states[i - 1], steps[i - 1]);
        if Careful(states[i - 1], steps[i - 1]) {
          LostNext(states, i - 1);
        }
      }
    }
  }

  lemma NothingLost(states: seq<State>)
    requires states != []
    ensures NoneLost(states, 0)
  {
    forall b: Branch ensures Follows(Head(states[0], b), Head(states[0], b)) {
      ItselfFollows(Head(states[0], b));
    }
  }

  lemma LostBefore(states: seq<State>, i: nat)
    requires 0 < i < |states| && NoneLost(states, i)
    ensures NoneLost(states, i - 1) && Progress(states[i - 1], states[i])
  {
    hide Follows;
  }

  /** A 3-way merge is begun with a snapshot at hand, or its late look still finds the head
      it was resolved to. */
  ghost predicate Cautious(s: State, step: Step)
    requires DuringMerge(step) ==> step.client in s.merging
  {
    && (step.LateLook? ==> Head(s, s.merging[step.client].branch) == Some(s.merging[step.client].target))
  }

  /** A client without a cached snapshot that merges has seen nothing but the target. */
  ghost predicate LooksCautious(s: State) {
    forall c :: c in s.merging && !s.merging[c].cached && (c, s.merging[c].branch) in s.snapshots ==>
      s.snapshots[(c, s.merging[c].branch)] == Some(s.merging[c].target)
  }

  lemma CautionKept(s: State, step: Step)
    requires LooksCautious(s) && Enabled(s, step) && Cautious(s, step)
    ensures LooksCautious(Next(s, step))
  {
    hide Refs, Ancestor;
  }

  lemma CautiousIsCareful(s: State, step: Step)
    requires Orderly(s) && LooksCautious(s) && Enabled(s, step)
    ensures Careful(s, step)
  {
    if step.FinishMerge? {
      var c := step.client;
      if s.merging[c].cached && Head(s, s.merging[c].branch) == Expected(s, c, s.merging[c].branch) {
        MergedIntoHead(s, c);
      }
    }
    hide Refs, Ancestor, Orderly;
  }

  /** With caution, in every run each head of a branch is an ancestor of all its later heads. */
  lemma {:induction false} NoHeadIsLost(states: seq<State>, steps: seq<Step>, i: nat)
    requires Run(states, steps) && i < |states|
    requires forall k :: 0 <= k < i ==> Cautious(states[k], steps[k])
    ensures NoneLost(states, i) && LooksCautious(states[i])
  {
    hide Careful, Next, Orderly, Progress, Cautious, NoneLost, LooksCautious, Refs, Ancestor;
    if i == 0 {
      NothingLost(states);
      NobodyMerging();
    } else {
      NoHeadIsLost(states, steps, i - 1);
      RunOrderly(states, steps, i - 1);
      CautiousIsCareful(states[i - 1], steps[i - 1]);
      CautionKept(states[i - 1], steps[i - 1]);
      ForwardIff(states[i - 1], steps[i - 1]);
      LostNext(states, i - 1);
    }
  }

  lemma NobodyMerging()
    ensures LooksCautious(EMPTY)
  {
  }

  // ---- A run that loses a head ----------------------------------------------

  const TREE := Node([])
  const ROOT := Commit("root", TREE, [])
  const SOURCE := Commit("source", TREE, [ROOT])
  const PUSHED := Commit("pushed", TREE, [ROOT])
  const MERGED := Commit("merged", TREE, [ROOT, SOURCE])

  const T := TreeObject(TREE)
  const R := CommitObject(ROOT)
  const S := CommitObject(SOURCE)
  const P := CommitObject(PUSHED)
  const M := CommitObject(MERGED)

  // A peer publishes a commit, and two more on top of it.
  const S1 := State({T}, map[], map[], map[], map["peer" := {T}])
  const S2 := State({T, R}, map[], map[], map[], map["peer" := {T, R}])
  const S3 := S2.(refs := map["main" := Some(ROOT)], snapshots := map[("peer", "main") := Some(ROOT)])
  const S4 := S3.(store := {T, R, S}, published := map["peer" := {T, R, S}])
  const S5 := S4.(store := {T, R, S, P}, published := map["peer" := {T, R, S, P}])

  // A client without a snapshot resolves the branch and prepares its merge.
  const S6 := S5.(merging := map["client" := Merge("main", ROOT, false)])
  const S7 := S6.(published := map["peer" := {T, R, S, P}, "client" := {T}])
  const S8 := S6.(published := map["peer" := {T, R, S, P}, "client" := {T, R}])
  const S9 := S6.(published := map["peer" := {T, R, S, P}, "client" := {T, R, S}])
  const S10 := S6.(store := {T, R, S, P, M}, published := map["peer" := {T, R, S, P}, "client" := {T, R, S, M}])

  // The peer moves the branch; the client looks at it only now, and wins.
  const S11 := S10.(refs := map["main" := Some(PUSHED)], snapshots := map[("peer", "main") := Some(PUSHED)])
  const S12 := S11.(snapshots := map[("peer", "main") := Some(PUSHED), ("client", "main") := Some(PUSHED)])
  const S13 := S12.(refs := map["main" := Some(MERGED)], merging := map[],
    snapshots := map[("peer", "main") := Some(PUSHED), ("client", "main") := Some(MERGED)])

  /** A write or read spelled out. */
  lemma Known(s: State, step: Step, o: Object, s': State)
    requires step == ReadObject(step.client, o) || step == WriteObject(step.client, o)
    requires s' == s.(store := s'.store, published := s'.published)
    requires s'.store == if step.WriteObject? then s.store + {o} else s.store
    requires s'.published.Keys == s.published.Keys + {step.client}
    requires s'.published[step.client] == Published(s, step.client) + {o}
    requires forall c :: c in s.published && c != step.client ==> s'.published[c] == s.published[c]
    ensures Next(s, step) == s'
  {
    assert s.published[step.client := Published(s, step.client) + {o}] == s'.published;
  }

  lemma Published1()
    ensures Enabled(EMPTY, WriteObject("peer", T)) && Next(EMPTY, WriteObject("peer", T)) == S1
    ensures Enabled(S1, WriteObject("peer", R)) && Next(S1, WriteObject("peer", R)) == S2
    ensures Enabled(S2, CommitTo("peer", "main", ROOT)) && Next(S2, CommitTo("peer", "main", ROOT)) == S3
  {
    Known(EMPTY, WriteObject("peer", T), T, S1);
    Known(S1, WriteObject("peer", R), R, S2);
  }

  lemma Published2()
    ensures Enabled(S3, WriteObject("peer", S)) && Next(S3, WriteObject("peer", S)) == S4
    ensures Enabled(S4, WriteObject("peer", P)) && Next(S4, WriteObject("peer", P)) == S5
  {
    Known(S3, WriteObject("peer", S), S, S4);
    Known(S4, WriteObject("peer", P), P, S5);
  }

  lemma Prepared1()
    ensures Enabled(S5, BeginMerge("client", "main")) && Next(S5, BeginMerge("client", "main")) == S6
    ensures Enabled(S6, ReadObject("client", T)) && Next(S6, ReadObject("client", T)) == S7
    ensures Enabled(S7, ReadObject("client", R)) && Next(S7, ReadObject("client", R)) == S8
  {
    Known(S6, ReadObject("client", T), T, S7);
    Known(S7, ReadObject("client", R), R, S8);
  }

  lemma Prepared2()
    ensures Enabled(S8, ReadObject("client", S)) && Next(S8, ReadObject("client", S)) == S9
    ensures Enabled(S9, WriteObject("client", M)) && Next(S9, WriteObject("client", M)) == S10
  {
    Known(S8, ReadObject("client", S), S, S9);
    Known(S9, WriteObject("client", M), M, S10);
  }

  lemma Moved()
    ensures Enabled(S10, CommitTo("peer", "main", PUSHED)) && Next(S10, CommitTo("peer", "main", PUSHED)) == S11
    ensures Enabled(S11, LateLook("client")) && Next(S11, LateLook("client")) == S12
  {
  }

  lemma Won()
    ensures Enabled(S12, FinishMerge("client", SOURCE, MERGED)) && Next(S12, FinishMerge("client", SOURCE, MERGED)) == S13
  {
  }

  /** `steps` are enabled one after the other and lead from `s` to `end`. */
  ghost predicate LeadsTo(s: State, steps: seq<Step>, end: State)
    decreases |steps|
  {
    if steps == [] then s == end
    else Enabled(s, steps[0]) && LeadsTo(Next(s, steps[0]), steps[1..], end)
  }

  lemma OneMore(s: State, step: Step, next: State, rest: seq<Step>, end: State)
    requires Enabled(s, step) && Next(s, step) == next && LeadsTo(next, rest, end)
    ensures LeadsTo(s, [step] + rest, end)
  {
    assert ([step] + rest)[1..] == rest;
  }

  lemma {:induction false} AsRun(s: State, steps: seq<Step>, end: State) returns (states: seq<State>)
    requires LeadsTo(s, steps, end)
    ensures |states| == |steps| + 1 && states[0] == s && states[|steps|] == end
    ensures forall i :: 0 <= i < |steps| ==> Enabled(states[i], steps[i]) && states[i + 1] == Next(states[i], steps[i])
    decreases |steps|
  {
    if steps == [] {
      states := [s];
    } else {
      var rest := AsRun(Next(s, steps[0]), steps[1..], end);
      states := [s] + rest;
      assert forall i :: 0 < i < |steps| ==> steps[i] == steps[1..][i - 1];
    }
  }

  lemma NotMerged()
    ensures !Ancestor(PUSHED, MERGED)
  {
    assert !Ancestor(PUSHED, ROOT);
    assert !Ancestor(PUSHED, SOURCE);
  }

  /** Without a snapshot, a merge can lose a peer's commit: a run of the protocol whose last
      step replaces the pushed head by a merge that does not contain it. */
  lemma IncautiousMergeLosesAHead() returns (states: seq<State>, steps: seq<Step>)
    ensures Run(states, steps) && steps != []
    ensures Head(states[|steps| - 1], "main") == Some(PUSHED) && Head(states[|steps|], "main") == Some(MERGED)
    ensures !Ancestor(PUSHED, MERGED) && !NoneLost(states, |steps|)
  {
    NotMerged();
    Won();
    LossLeads();
    assert Head(S12, "main") == Some(PUSHED) && Head(S13, "main") == Some(MERGED);
    hide *;
    var before := AsRun(EMPTY, BeforeLoss(), S12);
    states, steps := before + [S13], BeforeLoss() + [FinishMerge("client", SOURCE, MERGED)];
    assert before == states[..|before|];
    AddStep(before, BeforeLoss(), FinishMerge("client", SOURCE, MERGED), S13);
    HeadLost(states, |steps|);
  }

  lemma AddStep(states: seq<State>, steps: seq<Step>, step: Step, next: State)
    requires |states| == |steps| + 1 && states[0] == EMPTY
    requires forall i :: 0 <= i < |steps| ==> Enabled(states[i], steps[i]) && states[i + 1] == Next(states[i], steps[i])
    requires Enabled(states[|steps|], step) && Next(states[|steps|], step) == next
    ensures Run(states + [next], steps + [step])
  {
    hide Next, Refs, Ancestor;
  }

  lemma HeadLost(states: seq<State>, i: nat)
    requires 0 < i < |states|
    requires Head(states[i - 1], "main") == Some(PUSHED) && Head(states[i], "main") == Some(MERGED)
    requires !Ancestor(PUSHED, MERGED)
    ensures !NoneLost(states, i)
  {
    assert !Follows(Head(states[i - 1], "main"), Head(states[i], "main"));
  }

  /** All steps but the merge's last: the peer publishes, the client resolves the branch and
      prepares, the peer moves it, and only then the client looks. */
  function BeforeLoss(): seq<Step> {
    [WriteObject("peer", T)] + ([WriteObject("peer", R)] + ([CommitTo("peer", "main", ROOT)] +
    ([WriteObject("peer", S)] + ([WriteObject("peer", P)] + ([BeginMerge("client", "main")] + Preparation())))))
  }

  function Preparation(): seq<Step> {
    [ReadObject("client", T)] + ([ReadObject("client", R)] + ([ReadObject("client", S)] + WriteAndMove()))
  }

  function WriteAndMove(): seq<Step> {
    [WriteObject("client", M)] + ([CommitTo("peer", "main", PUSHED)] + [LateLook("client")])
  }

  lemma MoveLeads()
    ensures LeadsTo(S9, WriteAndMove(), S12)
  {
    Prepared2();
    Moved();
    Arrived(S12);
    hide Enabled, Next, LeadsTo;
    assert [LateLook("client")] + [] == [LateLook("client")];
    OneMore(S11, LateLook("client"), S12, [], S12);
    OneMore(S10, CommitTo("peer", "main", PUSHED), S11, [LateLook("client")], S12);
    OneMore(S9, WriteObject("client", M), S10, [CommitTo("peer", "main", PUSHED)] + [LateLook("client")], S12);
  }

  lemma PreparationLeads()
    ensures LeadsTo(S6, Preparation(), S12)
  {
    Prepared1();
    Prepared2();
    MoveLeads();
    hide Enabled, Next, LeadsTo, WriteAndMove;
    OneMore(S8, ReadObject("client", S), S9, WriteAndMove(), S12);
    OneMore(S7, ReadObject("client", R), S8, [ReadObject("client", S)] + WriteAndMove(), S12);
    OneMore(S6, ReadObject("client", T), S7, [ReadObject("client", R)] + ([ReadObject("client", S)] + WriteAndMove()), S12);
  }

  lemma LossLeads()
    ensures LeadsTo(EMPTY, BeforeLoss(), S12)
  {
    var merge := [BeginMerge("client", "main")] + Preparation();
    var setup := [WriteObject("peer", S)] + ([WriteObject("peer", P)] + merge);
    assert BeforeLoss() == [WriteObject("peer", T)] + ([WriteObject("peer", R)] + ([CommitTo("peer", "main", ROOT)] + setup));
    hide *;
    Published1();
    Published2();
    Prepared1();
    PreparationLeads();
    OneMore(S5, BeginMerge("client", "main"), S6, Preparation(), S12);
    OneMore(S4, WriteObject("peer", P), S5, merge, S12);
    OneMore(S3, WriteObject("peer", S), S4, [WriteObject("peer", P)] + merge, S12);
    OneMore(S2, CommitTo("peer", "main", ROOT), S3, setup, S12);
    OneMore(S1, WriteObject("peer", R), S2, [CommitTo("peer", "main", ROOT)] + setup, S12);
    OneMore(EMPTY, WriteObject("peer", T), S1, [WriteObject("peer", R)] + ([CommitTo("peer", "main", ROOT)] + setup), S12);
  }

  lemma Arrived(s: State)
    ensures LeadsTo(s, [], s)
  {
  }
}
