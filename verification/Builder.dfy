/** Writing tree nodes: sorting, the write guard, and splitting into name-range shards. */
module Builder {
  import opened Paths
  import opened Trees

  datatype Error = InvalidNode | ConflictingAdditions | DoubleRemoval | Unsorted

  datatype Result<+T> = Success(value: T) | Failure(error: Error) {
    predicate IsFailure() { Failure? }
    function PropagateFailure<U>(): Result<U> requires Failure? { Failure(error) }
    function Extract(): T requires Success? { value }
  }

  /** The children kept of a node, and whether they differ from what it had. */
  datatype Rewrite = Rewrite(kept: seq<Entry>, changed: bool)

  // ---- Sorting by name ------------------------------------------------------

  /** `e` placed behind every entry whose name does not come after its own. */
  function Insert(es: seq<Entry>, e: Entry): seq<Entry> {
    if es != [] && Lt(e.name, es[|es| - 1].name)
    then Insert(es[..|es| - 1], e) + [es[|es| - 1]]
    else es + [e]
  }

  /** The entries in ascending order of name; equal names keep their order. */
  function SortByName(es: seq<Entry>): seq<Entry> {
    if es == [] then [] else Insert(SortByName(es[..|es| - 1]), es[|es| - 1])
  }

  lemma {:induction false} InsertElements(es: seq<Entry>, e: Entry)
    ensures multiset(Insert(es, e)) == multiset(es) + multiset{e}
    ensures |Insert(es, e)| == |es| + 1
    ensures forall x :: x in Insert(es, e) <==> x in es || x == e
  {
    if es != [] && Lt(e.name, es[|es| - 1].name) {
      var k := |es| - 1;
      assert es == es[..k] + [es[k]];
      InsertElements(es[..k], e);
    }
  }

  lemma {:induction false} InsertSorted(es: seq<Entry>, e: Entry)
    requires Sorted(es) && forall x :: x in es ==> x.name != e.name
    ensures Sorted(Insert(es, e))
  {
    if es != [] {
      var k := |es| - 1;
      PlaceInjective();
      if Lt(e.name, es[k].name) {
        InsertSorted(es[..k], e);
        InsertElements(es[..k], e);
        var r := Insert(es[..k], e);
        assert forall i :: 0 <= i < |r| ==> r[i] in r;
      }
    }
  }

  lemma {:induction false} SortSpec(es: seq<Entry>)
    ensures multiset(SortByName(es)) == multiset(es)
    ensures |SortByName(es)| == |es|
    ensures forall e :: e in SortByName(es) <==> e in es
    ensures Distinct(es) ==> Sorted(SortByName(es))
  {
    if es != [] {
      var k := |es| - 1;
      assert es == es[..k] + [es[k]];
      SortSpec(es[..k]);
      InsertElements(SortByName(es[..k]), es[k]);
      if Distinct(es) {
        InsertSorted(SortByName(es[..k]), es[k]);
      }
    }
  }

  lemma {:induction false} SortOfSorted(es: seq<Entry>)
    requires Sorted(es)
    ensures SortByName(es) == es
  {
    if es != [] {
      var k := |es| - 1;
      assert es == es[..k] + [es[k]];
      SortOfSorted(es[..k]);
      PlaceInjective();
    }
  }

  /** Sorting changes no child. */
  lemma SortKeepsChildren(es: seq<Entry>)
    requires Distinct(es) && (Plain(es) || Sorted(es))
    ensures forall n: Name :: Child(SortByName(es), n) == Child(es, n)
  {
    SortSpec(es);
    if Sorted(es) {
      SortOfSorted(es);
    } else {
      SortedIsDistinct(SortByName(es));
      forall n: Name ensures Child(SortByName(es), n) == Child(es, n) {
        ChildNone(es, n);
        ChildNone(SortByName(es), n);
        if Child(es, n).Some? {
          ChildOfPlain(es, n, Child(es, n).value);
          ChildOfPlain(SortByName(es), n, Child(es, n).value);
        }
      }
    }
  }

  /** The subdirectories among `es` are published directories with something in them. */
  ghost predicate Subdirectories(m: nat, es: seq<Entry>) {
    forall e :: e in es && e.Dir? ==> e.child.entries != [] && WellFormed(m, e.child.entries)
  }

  // ---- Writing --------------------------------------------------------------

  /** The guard every write runs: names strictly ascend. */
  method WriteNode(es: seq<Entry>) returns (r: Result<Node>)
    ensures Sorted(es) ==> r == Success(Node(es))
    ensures !Sorted(es) ==> r == Failure(InvalidNode)
  {
    var i := 1;
    while i < |es|
      invariant 1 <= i
      invariant i <= |es| ==> Sorted(es[..i])
      invariant |es| < i ==> Sorted(es)
    {
      if !Lt(es[i - 1].name, es[i].name) {
        return Failure(InvalidNode);
      }
      PlaceInjective();
      assert es[..i + 1] == es[..i] + [es[i]];
      i := i + 1;
    }
    assert |es| == i ==> es[..i] == es;
    return Success(Node(es));
  }

  // ---- Splitting into shards ------------------------------------------------

  /** `es` cut into shards of `size` entries, each named after its first entry. */
  function Chunks(es: seq<Entry>, size: nat): (r: seq<Entry>)
    requires 0 < size
    ensures es != [] ==> r != [] && r[0].name == es[0].name
    ensures forall s :: s in r ==> s.Shard?
  {
    if es == [] then []
    else
      var k := if size < |es| then size else |es|;
      [Shard(es[0].name, Node(es[..k]))] + Chunks(es[k..], size)
  }

  lemma {:induction false} ChunksKeepChildren(es: seq<Entry>, size: nat, n: Name)
    requires 0 < size
    ensures Child(Chunks(es, size), n) == Child(es, n)
  {
    if es != [] {
      var k := if size < |es| then size else |es|;
      assert es == es[..k] + es[k..];
      ChildConcat(es[..k], es[k..], n);
      ChunksKeepChildren(es[k..], size, n);
      ChildConcat([Shard(es[0].name, Node(es[..k]))], Chunks(es[k..], size), n);
    }
  }

  lemma {:induction false} ChunksKeepCount(es: seq<Entry>, size: nat)
    requires 0 < size
    ensures Count(Chunks(es, size)) == Count(es)
  {
    if es != [] {
      var k := if size < |es| then size else |es|;
      assert es == es[..k] + es[k..];
      CountConcat(es[..k], es[k..]);
      ChunksKeepCount(es[k..], size);
      CountConcat([Shard(es[0].name, Node(es[..k]))], Chunks(es[k..], size));
    }
  }

  lemma ChunksUnfold(es: seq<Entry>, size: nat)
    requires 0 < size && es != []
    ensures var k := if size < |es| then size else |es|;
      Chunks(es, size) == [Shard(es[0].name, Node(es[..k]))] + Chunks(es[k..], size)
  {
  }

  lemma OneMoreTimes(n: nat, rest: nat, c: nat, size: nat)
    requires rest <= c * size < rest + size && (rest == 0 ==> c == 0)
    requires if size < n then n == size + rest else 0 < n && rest == 0
    ensures n <= (1 + c) * size < n + size
  {
    assert (1 + c) * size == size + c * size;
  }

  /** The number of shards is the entry count over `size`, rounded up. */
  lemma {:induction false} ChunksCount(es: seq<Entry>, size: nat)
    requires 0 < size
    ensures |es| <= |Chunks(es, size)| * size < |es| + size
  {
    if es != [] {
      var k := if size < |es| then size else |es|;
      var rest := es[k..];
      ChunksCount(rest, size);
      ChunksUnfold(es, size);
      var c := |Chunks(rest, size)|;
      assert |Chunks(es, size)| == 1 + c && (rest == [] ==> c == 0);
      hide Chunks;
      OneMoreTimes(|es|, |rest|, c, size);
    }
  }

  lemma MulMonotone(a: nat, b: nat, m: nat)
    requires a <= b
    ensures a * m <= b * m
  {
  }

  /** At most `m * m` entries need at most `m` shards of size `m`. */
  lemma ChunksFew(es: seq<Entry>, m: nat)
    requires 2 <= m < |es|
    ensures |Chunks(es, m)| < |es|
    ensures |es| <= m * m ==> |Chunks(es, m)| <= m
  {
    var c := |Chunks(es, m)|;
    ChunksCount(es, m);
    if m + 1 <= c {
      MulMonotone(m + 1, c, m);
    }
    if |es| <= c {
      MulMonotone(|es|, c, m);
      MulMonotone(2, m, |es|);
    }
  }

  lemma {:induction false} ChunksSearchable(es: seq<Entry>, size: nat)
    requires 0 < size && Searchable(es)
    ensures Searchable(Chunks(es, size))
  {
    if es != [] {
      var k := if size < |es| then size else |es|;
      var first, rest := Shard(es[0].name, Node(es[..k])), Chunks(es[k..], size);
      SliceSearchable(es, 0, k);
      assert es[0..k] == es[..k];
      if k < |es| {
        SliceSearchable(es, k, |es|);
        assert es[k..|es|] == es[k..];
        ChunksSearchable(es[k..], size);
      }
      forall n: Name | Child(es[..k], n).Some?
        ensures !Lt(n, es[0].name) && (k < |es| ==> Lt(n, es[k].name))
      {
        SliceBounds(es, 0, k, n);
      }
      ShardCons(first, rest);
    }
  }

  lemma ShardCons(first: Entry, rest: seq<Entry>)
    requires first.Shard? && first.child.entries != [] && Searchable(first.child.entries) && Searchable(rest)
    requires InRange(first.child.entries, first.name, if rest == [] then None else Some(rest[0].name))
    requires rest != [] ==> Lt(first.name, rest[0].name)
    ensures Searchable([first] + rest)
  {
    var es := [first] + rest;
    assert Sorted(rest);
    hide Child;
    forall i | 0 <= i < |es| && es[i].Shard?
      ensures InRange(es[i].child.entries, es[i].name, NextName(es, i))
    {
      if 0 < i {
        assert es[i] == rest[i - 1] && NextName(es, i) == NextName(rest, i - 1);
      }
    }
  }

  /** A sorted plain node cut into few enough shards is a well-formed directory. */
  lemma ChunksWellFormed(m: nat, es: seq<Entry>, size: nat)
    requires 0 < size <= m && es != [] && |Chunks(es, size)| <= m
    requires Plain(es) && Searchable(es) && Subdirectories(m, es)
    ensures WellFormed(m, Chunks(es, size))
  {
    ChunksSearchable(es, size);
    ChunkBodies(m, es, size);
  }

  lemma {:induction false} ChunkBodies(m: nat, es: seq<Entry>, size: nat)
    requires 0 < size <= m
    requires Plain(es) && Sorted(es) && Subdirectories(m, es)
    ensures forall s :: s in Chunks(es, size) ==>
      Plain(s.child.entries) && s.child.entries != [] && WellFormed(m, s.child.entries)
  {
    if es != [] {
      var k := if size < |es| then size else |es|;
      ChunkBodies(m, es[k..], size);
    }
  }

  /** One turn of the writing loop. */
  lemma ChunksStep(es: seq<Entry>, size: nat, shards: seq<Entry>, start: nat, end: nat)
    requires 0 < size && start < |es|
    requires end == if start + size < |es| then start + size else |es|
    requires shards + Chunks(es[start..], size) == Chunks(es, size)
    ensures shards + [Shard(es[start].name, Node(es[start..end]))] + Chunks(es[end..], size) == Chunks(es, size)
  {
    ChunksUnfold(es[start..], size);
    hide *;
    Slices(es, start, end);
    Associative(shards, [Shard(es[start].name, Node(es[start..end]))], Chunks(es[end..], size));
  }

  lemma Slices(es: seq<Entry>, start: nat, end: nat)
    requires start < end <= |es|
    ensures es[start..][..end - start] == es[start..end] && es[start..][end - start..] == es[end..]
    ensures |es[start..]| == |es| - start && es[start..][0] == es[start]
  {
  }

  lemma Associative(a: seq<Entry>, b: seq<Entry>, c: seq<Entry>)
    ensures a + b + c == a + (b + c)
  {
  }

  /** One more body passes the guard exactly if it is sorted. */
  lemma OneBody(es: seq<Entry>, size: nat, start: nat, end: nat)
    requires 0 < size && start < |es| && start % size == 0
    requires end == if start + size < |es| then start + size else |es|
    requires BodiesSorted(es[..start], size)
    ensures BodiesSorted(es[..end], size) <==> Sorted(es[start..end])
    ensures BodiesSorted(es, size) ==> Sorted(es[start..end])
    ensures end < |es| ==> end % size == 0
  {
    forall i | start < i < end ensures i % size != 0 && i % size == i - start {
      InsideChunk(size, start, i);
    }
    NextChunk(size, start);
    var chunk := es[start..end];
    NeighboursSorted(chunk);
    assert forall i :: 0 <= i < |chunk| ==> chunk[i] == es[start + i];
    hide Sorted, Lt;
  }

  lemma InsideChunk(size: nat, start: nat, i: nat)
    requires 0 < size && start % size == 0 && start < i < start + size
    ensures i % size == i - start
  {
    var q := start / size;
    assert i == size * q + (i - start);
    DivisionIs(size, q, i - start);
  }

  lemma NextChunk(size: nat, start: nat)
    requires 0 < size && start % size == 0
    ensures (start + size) % size == 0
  {
    var q := start / size;
    assert start + size == size * (q + 1) by { assert size * (q + 1) == size * q + size; }
    DivisionIs(size, q + 1, 0);
  }

  lemma DivisionIs(size: nat, q: nat, r: nat)
    requires r < size
    ensures (size * q + r) % size == r
  {
    var n := size * q + r;
    var d := n / size - q;
    assert n == size * (n / size) + n % size;
    assert size * (n / size) - size * q == size * d;
    if d > 0 {
      MulMonotone(1, d, size);
    } else if d < 0 {
      MulMonotone(1, -d, size);
      assert size * -d == -(size * d);
    }
  }

  lemma NeighboursSorted(es: seq<Entry>)
    ensures Sorted(es) <==> forall i :: 0 < i < |es| ==> Lt(es[i - 1].name, es[i].name)
  {
    if forall i :: 0 < i < |es| ==> Lt(es[i - 1].name, es[i].name) {
      forall i, j | 0 <= i < j < |es| ensures Lt(es[i].name, es[j].name) {
        NeighboursFar(es, i, j);
      }
    }
  }

  lemma {:induction false} NeighboursFar(es: seq<Entry>, i: nat, j: nat)
    requires forall k :: 0 < k < |es| ==> Lt(es[k - 1].name, es[k].name)
    requires i < j < |es|
    ensures Lt(es[i].name, es[j].name)
    decreases j
  {
    if i + 1 < j {
      NeighboursFar(es, i, j - 1);
    }
  }

  /** Writes `es` as shards of `size` entries; the last may be smaller. */
  method WriteShards(es: seq<Entry>, size: nat) returns (r: Result<seq<Entry>>)
    requires 0 < size
    ensures r.Success? <==> BodiesSorted(es, size)
    ensures r.Success? ==> r.value == Chunks(es, size)
  {
    var shards: seq<Entry> := [];
    var start := 0;
    assert es[0..] == es;
    assert es[|es|..] == [] && Chunks([], size) == [];
    hide Chunks, Sorted, BodiesSorted;
    while start < |es|
      invariant start <= |es| && (start < |es| ==> start % size == 0)
      invariant BodiesSorted(es[..start], size)
      invariant shards + Chunks(es[start..], size) == Chunks(es, size)
    {
      var end := if start + size < |es| then start + size else |es|;
      var chunk := es[start..end];
      OneBody(es, size, start, end);
      var body :- WriteNode(chunk);
      ChunksStep(es, size, shards, start, end);
      shards := shards + [Shard(chunk[0].name, body)];
      start := end;
    }
    return Success(shards);
  }

  // ---- Equal names ----------------------------------------------------------

  /** Names ascend, or stay. */
  predicate Ascends(es: seq<Entry>) {
    forall i, j :: 0 <= i < j < |es| ==> !Lt(es[j].name, es[i].name)
  }

  lemma {:induction false} InsertAscends(es: seq<Entry>, e: Entry)
    requires Ascends(es)
    ensures Ascends(Insert(es, e))
  {
    if es != [] && Lt(e.name, es[|es| - 1].name) {
      var k := |es| - 1;
      InsertAscends(es[..k], e);
      InsertElements(es[..k], e);
      var r := Insert(es[..k], e);
      forall i | 0 <= i < |r| ensures !Lt(es[k].name, r[i].name) {
        assert r[i] in r;
      }
    }
  }

  lemma {:induction false} SortAscends(es: seq<Entry>)
    ensures Ascends(SortByName(es))
  {
    if es != [] {
      SortAscends(es[..|es| - 1]);
      InsertAscends(SortByName(es[..|es| - 1]), es[|es| - 1]);
    }
  }

  /** Equal names stand next to each other only across the boundary of two shards. */
  predicate TwinsApart(m: nat, es: seq<Entry>)
    requires 0 < m
  {
    forall i :: 0 < i < |es| && es[i - 1].name == es[i].name ==> m < |es| && i % m == 0
  }

  /** The shard bodies pass the guard. */
  predicate BodiesSorted(es: seq<Entry>, size: nat)
    requires 0 < size
  {
    forall i :: 0 < i < |es| && i % size != 0 ==> Lt(es[i - 1].name, es[i].name)
  }

  lemma SortedByNeighbours(es: seq<Entry>)
    requires Ascends(es)
    ensures Sorted(es) <==> forall i :: 0 < i < |es| ==> es[i - 1].name != es[i].name
  {
    PlaceInjective();
    if forall i :: 0 < i < |es| ==> es[i - 1].name != es[i].name {
      forall i, j | 0 <= i < j < |es| ensures Lt(es[i].name, es[j].name) {
        assert Lt(es[i].name, es[i + 1].name);
      }
    }
  }

  /** In ascending order, that the bodies pass is that twins are apart. */
  lemma BodiesIff(m: nat, es: seq<Entry>)
    requires 2 <= m < |es| && Ascends(es)
    ensures BodiesSorted(es, m) <==> TwinsApart(m, es)
  {
    PlaceInjective();
  }

  /** Then the shards' own names ascend strictly. */
  lemma {:induction false} ShardNamesAscend(m: nat, es: seq<Entry>)
    requires 2 <= m && Ascends(es) && BodiesSorted(es, m)
    ensures Sorted(Chunks(es, m))
  {
    if m < |es| {
      RestAscends(m, es);
      ShardNamesAscend(m, es[m..]);
      forall s | s in Chunks(es[m..], m) ensures Lt(es[0].name, s.name) {
        FirstShardBefore(m, es, s);
      }
      hide BodiesSorted, Ascends;
      var tail := Chunks(es[m..], m);
      assert forall j :: 0 <= j < |tail| ==> tail[j] in tail;
      assert Chunks(es, m) == [Shard(es[0].name, Node(es[..m]))] + tail;
    } else if es != [] {
      assert es[|es|..] == [];
    }
  }

  lemma RestAscends(m: nat, es: seq<Entry>)
    requires 2 <= m < |es| && Ascends(es) && BodiesSorted(es, m)
    ensures Ascends(es[m..]) && BodiesSorted(es[m..], m)
  {
    var rest := es[m..];
    assert forall i :: 0 <= i < |rest| ==> rest[i] == es[i + m];
    hide Lt;
    forall i | 0 < i < |rest| && i % m != 0 ensures Lt(rest[i - 1].name, rest[i].name) {
      WrapAround(m, i);
      InBody(es, m, i + m);
    }
  }

  lemma InBody(es: seq<Entry>, size: nat, i: nat)
    requires 0 < size && BodiesSorted(es, size) && 0 < i < |es| && i % size != 0
    ensures Lt(es[i - 1].name, es[i].name)
  {
  }

  lemma WrapAround(size: nat, i: nat)
    requires 0 < size
    ensures (i + size) % size == i % size
  {
    var q := i / size;
    assert i + size == size * (q + 1) + i % size by { assert size * (q + 1) == size * q + size; }
    DivisionIs(size, q + 1, i % size);
  }

  lemma SecondIsLater(m: nat, es: seq<Entry>)
    requires 2 <= m < |es| && BodiesSorted(es, m)
    ensures Lt(es[0].name, es[1].name)
  {
    DivisionIs(m, 0, 1);
    assert m * 0 + 1 == 1;
    InBody(es, m, 1);
  }

  lemma FirstShardBefore(m: nat, es: seq<Entry>, s: Entry)
    requires 2 <= m < |es| && Ascends(es) && BodiesSorted(es, m) && s in Chunks(es[m..], m)
    ensures Lt(es[0].name, s.name)
  {
    ChunkFromEntry(es[m..], m, s);
    SecondIsLater(m, es);
    hide BodiesSorted, Chunks;
    var k :| 0 <= k < |es[m..]| && es[m..][k].name == s.name;
    assert es[m..][k] == es[m + k];
    assert Lt(es[0].name, es[1].name) && !Lt(es[m + k].name, es[1].name);
  }

  lemma {:induction false} ChunkFromEntry(es: seq<Entry>, size: nat, s: Entry)
    requires 0 < size && s in Chunks(es, size)
    ensures exists k :: 0 <= k < |es| && es[k].name == s.name
  {
    var k := if size < |es| then size else |es|;
    if s in Chunks(es[k..], size) {
      ChunkFromEntry(es[k..], size, s);
      var j :| 0 <= j < |es[k..]| && es[k..][j].name == s.name;
      assert es[k + j].name == s.name;
    }
  }

  /** The children can be written: names differ, and sorted they are searchable. */
  ghost predicate Writable(children: seq<Entry>) {
    Distinct(children) && Searchable(SortByName(children))
  }

  /** `node` is what the builder makes of the sorted children `es`. */
  ghost predicate Builds(m: nat, es: seq<Entry>, node: Node)
    requires 0 < m
  {
    && Searchable(node.entries)
    && (es != [] ==> node.entries != [])
    && (forall n: Name :: Child(node.entries, n) == Child(es, n))
    && Count(node.entries) == Count(es)
    && (|es| <= m ==> node.entries == es)
    && (m < |es| <= m * m ==> node.entries == Chunks(es, m))
  }

  lemma BuildsThroughShards(m: nat, es: seq<Entry>, node: Node)
    requires 2 <= m < |es| && Searchable(es)
    requires Builds(m, Chunks(es, m), node)
    ensures Builds(m, es, node)
  {
    ChunksFew(es, m);
    ChunksKeepCount(es, m);
    forall n: Name ensures Child(node.entries, n) == Child(es, n) {
      ChunksKeepChildren(es, m, n);
    }
  }

  /** `_build_children`: sort, then write one node or, past `m` entries, shards. */
  method BuildChildren(m: nat, children: seq<Entry>, alreadySorted: bool := false)
    returns (r: Result<Node>)
    requires 2 <= m
    ensures Writable(children) && (alreadySorted ==> Sorted(children)) ==>
      r.Success? && Builds(m, SortByName(children), r.value)
    ensures Ascends(if alreadySorted then children else SortByName(children)) ==>
      (r.Success? <==> TwinsApart(m, if alreadySorted then children else SortByName(children)))
    ensures !alreadySorted ==> (r.Success? <==> TwinsApart(m, SortByName(children)))
    decreases |children|
  {
    SortSpec(children);
    SortAscends(children);
    if Sorted(children) { SortOfSorted(children); }
    var sorted := if !alreadySorted && |children| > 1 then SortByName(children) else children;
    if |children| <= m {
      SmallTwins(m, children);
      SmallTwins(m, SortByName(children));
      r := WriteNode(sorted);
      return;
    }
    if Ascends(sorted) { BodiesIff(m, sorted); }
    hide TwinsApart, Ascends, BodiesSorted, Lt;
    var shards :- WriteShards(sorted, m);
    ChunksFew(sorted, m);
    if Ascends(sorted) { ShardsPass(m, sorted); }
    r := BuildChildren(m, shards, true);
    if Writable(children) && (alreadySorted ==> Sorted(children)) {
      ChunksSearchable(sorted, m);
      SortOfSorted(shards);
      SortedIsDistinct(shards);
      BuildsThroughShards(m, sorted, r.value);
    }
  }

  lemma SmallTwins(m: nat, es: seq<Entry>)
    requires 0 < m && |es| <= m
    ensures Ascends(es) ==> (Sorted(es) <==> TwinsApart(m, es))
    ensures |es| <= 1 ==> Ascends(es) && SortByName(es) == es
  {
    if Ascends(es) { SortedByNeighbours(es); }
    if |es| <= 1 { SortOfSorted(es); }
  }

  lemma ShardsPass(m: nat, es: seq<Entry>)
    requires 2 <= m && Ascends(es) && BodiesSorted(es, m)
    ensures Ascends(Chunks(es, m)) && TwinsApart(m, Chunks(es, m))
  {
    ShardNamesAscend(m, es);
    SortedByNeighbours(Chunks(es, m));
  }

  /** A written node as a directory that is not missing. */
  function Nonempty(built: Result<Node>): Result<Option<Node>> {
    match built
    case Success(node) => Success(Some(node))
    case Failure(error) => Failure(error)
  }

  // ---- What the builder's callers need --------------------------------------

  /** Plain children with different names can be written. */
  lemma PlainIsWritable(kept: seq<Entry>)
    requires Plain(kept) && Distinct(kept)
    requires forall e :: e in kept && e.Dir? ==> e.child.entries != [] && Searchable(e.child.entries)
    ensures Writable(kept)
  {
    SortSpec(kept);
    assert forall i :: 0 <= i < |kept| ==> SortByName(kept)[i] in kept;
  }

  lemma PlainFits(m: nat, es: seq<Entry>, node: Node)
    requires 2 <= m && es != []
    requires Plain(es) && Searchable(es) && SoundDirs(m, es)
    requires Builds(m, es, node) && Fits(m, node.entries)
    ensures WellFormed(m, node.entries)
  {
    FitsHere(m, node.entries);
    CountPlain(es);
    SortedIsDistinct(es);
    forall e | e in es && e.Dir?
      ensures e.child.entries != [] && WellFormed(m, e.child.entries)
    {
      ChildOfPlain(es, e.name, e);
      FitsBelow(m, node.entries, e.name);
    }
    if m < |es| {
      ChunksFew(es, m);
      ChunksWellFormed(m, es, m);
    } else {
      assert forall i :: 0 <= i < |es| ==> es[i] in es;
    }
  }

  lemma PlainBuilt(m: nat, kept: seq<Entry>, node: Node)
    requires 2 <= m && kept != []
    requires Plain(kept) && Distinct(kept) && SoundDirs(m, kept)
    requires Builds(m, SortByName(kept), node)
    ensures Sound(m, node)
    ensures forall n: Name :: Child(node.entries, n) == Child(kept, n)
  {
    var sorted := SortByName(kept);
    SortSpec(kept);
    SortKeepsChildren(kept);
    PlainIsWritable(kept);
    if Fits(m, node.entries) {
      PlainFits(m, sorted, node);
    }
  }
}
