/** Name ranges: which shard of a directory a name belongs to, and rewriting shard by shard. */
module Shards {
  import opened Paths
  import opened Trees
  import opened Builder

  /** How many entries have a name at or before `n` (Python's `bisect_right`). */
  function BisectRight(es: seq<Entry>, n: Name): nat {
    if es == [] || Lt(n, es[0].name) then 0 else 1 + BisectRight(es[1..], n)
  }

  lemma {:induction false} BisectRightSpec(es: seq<Entry>, n: Name)
    requires Sorted(es)
    ensures BisectRight(es, n) <= |es|
    ensures forall i :: 0 <= i < |es| ==> (i < BisectRight(es, n) <==> !Lt(n, es[i].name))
  {
    if es != [] {
      BisectRightSpec(es[1..], n);
      assert forall i :: 0 <= i < |es| - 1 ==> es[1..][i] == es[i + 1];
    }
  }

  /** The shard whose range holds `n`; the first one also takes the names before it. */
  function ShardIndex(es: seq<Entry>, n: Name): nat {
    var r := BisectRight(es, n);
    if r == 0 then 0 else r - 1
  }

  lemma ShardIndexSpec(es: seq<Entry>, n: Name, i: nat)
    requires Sorted(es) && i < |es|
    ensures ShardIndex(es, n) < |es|
    ensures ShardIndex(es, n) == i <==>
            (i == 0 || !Lt(n, es[i].name)) && (i + 1 < |es| ==> Lt(n, es[i + 1].name))
  {
    BisectRightSpec(es, n);
  }

  lemma ShardIndexMonotone(es: seq<Entry>, a: Name, b: Name)
    requires Sorted(es) && es != [] && ShardIndex(es, a) < ShardIndex(es, b)
    ensures Lt(a, b)
  {
    ShardIndexSpec(es, b, 0);
    ShardIndexSpec(es, b, ShardIndex(es, b));
    BisectRightSpec(es, a);
  }

  /** A directory of shards keeps each name in the shard of its range. */
  lemma ChildInShard(es: seq<Entry>, n: Name)
    requires Searchable(es) && AllShards(es)
    ensures ShardIndex(es, n) < |es|
    ensures Child(es, n) == Child(es[ShardIndex(es, n)].child.entries, n)
    ensures forall i :: 0 <= i < |es| && Child(es[i].child.entries, n).Some? ==> i == ShardIndex(es, n)
  {
    ShardIndexSpec(es, n, 0);
    assert forall i :: 0 <= i < |es| ==> es[i] in es;
    forall i | 0 <= i < |es| && Child(es[i].child.entries, n).Some? ensures i == ShardIndex(es, n) {
      HolderInRange(es, i, n);
      ShardIndexSpec(es, n, i);
    }
    if Child(es, n).Some? {
      var k := ChildHolder(es, n);
      UniqueHolder(es, k, n);
    } else if Child(es[ShardIndex(es, n)].child.entries, n).Some? {
      UniqueHolder(es, ShardIndex(es, n), n);
    }
  }

  /** Shards fit to be published: plain bodies of at most `m` entries, none empty. */
  ghost predicate GoodShards(m: nat, shards: seq<Entry>) {
    forall s :: s in shards ==>
      && s.Shard? && s.child.entries != [] && |s.child.entries| <= m
      && Plain(s.child.entries) && SoundDirs(m, s.child.entries)
  }

  /** `shards` hold names of the first `i` ranges of `es` only. */
  ghost predicate CoverUpTo(es: seq<Entry>, i: nat, shards: seq<Entry>) {
    && Searchable(shards)
    && (forall s :: s in shards ==> ShardIndex(es, s.name) < i)
    && (forall n: Name :: Child(shards, n).Some? ==> ShardIndex(es, n) < i)
  }

  /** `shards` hold names of the i-th range of `es` only. */
  ghost predicate CoverRange(es: seq<Entry>, i: nat, shards: seq<Entry>) {
    && Searchable(shards)
    && (forall s :: s in shards ==> ShardIndex(es, s.name) == i)
    && (forall n: Name :: Child(shards, n).Some? ==> ShardIndex(es, n) == i)
  }

  /** A published shard covers its own range, and the whole of it. */
  lemma OwnRange(m: nat, es: seq<Entry>, i: nat)
    requires WellFormed(m, es) && AllShards(es) && i < |es|
    ensures CoverRange(es, i, [es[i]]) && GoodShards(m, [es[i]])
    ensures forall n: Name :: Child([es[i]], n) == Child(es[i].child.entries, n)
    ensures forall n: Name :: ShardIndex(es, n) == i ==> Child(es, n) == Child(es[i].child.entries, n)
    ensures forall n: Name :: Child(es[i].child.entries, n).Some? ==> ShardIndex(es, n) == i
  {
    WellFormedIsSearchable(m, es);
    OwnGood(m, es, i);
    hide WellFormed;
    OwnChildren(es, i);
    OwnCover(es, i);
    hide *;
  }

  lemma OwnCover(es: seq<Entry>, i: nat)
    requires Searchable(es) && AllShards(es) && i < |es|
    ensures CoverRange(es, i, [es[i]])
  {
    OwnName(es, i);
    hide Child, ShardIndex, Searchable, AllShards;
    OwnChildren(es, i);
    OwnSearchable(es, i);
  }

  lemma OwnName(es: seq<Entry>, i: nat)
    requires Sorted(es) && i < |es|
    ensures ShardIndex(es, es[i].name) == i
  {
    ShardIndexSpec(es, es[i].name, i);
  }

  lemma OwnSearchable(es: seq<Entry>, i: nat)
    requires Searchable(es) && i < |es|
    ensures Searchable([es[i]])
  {
    SliceSearchable(es, i, i + 1);
    assert es[i..i + 1] == [es[i]];
  }

  lemma OwnGood(m: nat, es: seq<Entry>, i: nat)
    requires WellFormed(m, es) && AllShards(es) && i < |es|
    ensures GoodShards(m, [es[i]])
  {
    assert es[i] in es;
    WellFormedIsSound(m, es[i].child.entries);
  }

  lemma OwnChildren(es: seq<Entry>, i: nat)
    requires Searchable(es) && AllShards(es) && i < |es|
    ensures forall n: Name :: Child([es[i]], n) == Child(es[i].child.entries, n)
    ensures forall n: Name :: ShardIndex(es, n) == i ==> Child(es, n) == Child(es[i].child.entries, n)
    ensures forall n: Name :: Child(es[i].child.entries, n).Some? ==> ShardIndex(es, n) == i
  {
    assert es[i] in es;
    assert [es[i]][1..] == [];
    forall n: Name
      ensures Child([es[i]], n) == Child(es[i].child.entries, n)
      ensures ShardIndex(es, n) == i ==> Child(es, n) == Child(es[i].child.entries, n)
      ensures Child(es[i].child.entries, n).Some? ==> ShardIndex(es, n) == i
    {
      ChildInShard(es, n);
    }
  }

  lemma ShardsWritable(shards: seq<Entry>)
    requires Searchable(shards)
    ensures Writable(shards)
  {
    SortOfSorted(shards);
    SortedIsDistinct(shards);
  }

  /** Searchable shards followed by searchable shards of later ranges are searchable. */
  lemma AppendRange(es: seq<Entry>, i: nat, done: seq<Entry>, next: seq<Entry>)
    requires Sorted(es) && es != []
    requires CoverUpTo(es, i, done) && CoverRange(es, i, next)
    ensures CoverUpTo(es, i + 1, done + next)
    ensures forall n: Name ::
      Child(done + next, n) == if ShardIndex(es, n) == i then Child(next, n) else Child(done, n)
  {
    forall n: Name { ChildConcat(done, next, n); }
    forall a, b | a in done && b in next ensures Lt(a.name, b.name) {
      ShardIndexMonotone(es, a.name, b.name);
    }
    if next != [] {
      forall n: Name | Child(done, n).Some? ensures Lt(n, next[0].name) {
        assert next[0] in next;
        ShardIndexMonotone(es, n, next[0].name);
      }
    }
    JoinSearchable(done, next);
  }

  lemma JoinSearchable(a: seq<Entry>, b: seq<Entry>)
    requires Searchable(a) && Searchable(b)
    requires forall x, y :: x in a && y in b ==> Lt(x.name, y.name)
    requires b != [] ==> forall n: Name :: Child(a, n).Some? ==> Lt(n, b[0].name)
    ensures Searchable(a + b)
  {
    var es := a + b;
    assert Sorted(es) by {
      forall i, j | 0 <= i < j < |es| ensures Lt(es[i].name, es[j].name) {
        if i < |a| <= j {
          assert es[i] in a && es[j] in b;
        }
      }
    }
    forall i | 0 <= i < |es| && es[i].Shard?
      ensures InRange(es[i].child.entries, es[i].name, NextName(es, i))
    {
      if i < |a| {
        JoinInRange(a, b, i);
      } else {
        assert es[i] == b[i - |a|] && NextName(es, i) == NextName(b, i - |a|);
      }
    }
  }

  lemma JoinInRange(a: seq<Entry>, b: seq<Entry>, i: nat)
    requires Searchable(a) && i < |a| && a[i].Shard?
    requires b != [] ==> forall n: Name :: Child(a, n).Some? ==> Lt(n, b[0].name)
    ensures InRange(a[i].child.entries, a[i].name, NextName(a + b, i))
  {
    assert InRange(a[i].child.entries, a[i].name, NextName(a, i));
    if i + 1 < |a| {
      assert NextName(a + b, i) == NextName(a, i);
    } else if b != [] {
      forall n: Name | Child(a[i].child.entries, n).Some? ensures Lt(n, b[0].name) {
        UniqueHolder(a, i, n);
      }
    }
  }

  /** One rewritten body becomes shards of its own range. */
  lemma ChunksCoverRange(m: nat, es: seq<Entry>, i: nat, body: seq<Entry>, size: nat)
    requires Sorted(es) && es != [] && 0 < size <= m
    requires Plain(body) && Searchable(body) && SoundDirs(m, body)
    requires forall n: Name :: Child(body, n).Some? ==> ShardIndex(es, n) == i
    ensures CoverRange(es, i, Chunks(body, size)) && GoodShards(m, Chunks(body, size))
    ensures forall n: Name :: Child(Chunks(body, size), n) == Child(body, n)
  {
    forall n: Name { ChunksKeepChildren(body, size, n); }
    ChunksSearchable(body, size);
    ChunksGood(m, body, size);
    forall s | s in Chunks(body, size) ensures ShardIndex(es, s.name) == i {
      ChunkName(body, size, s);
      ChildNone(body, s.name);
    }
  }

  lemma {:induction false} ChunksGood(m: nat, body: seq<Entry>, size: nat)
    requires 0 < size <= m && Plain(body) && SoundDirs(m, body)
    ensures GoodShards(m, Chunks(body, size))
  {
    if body != [] {
      var k := if size < |body| then size else |body|;
      ChunksGood(m, body[k..], size);
    }
  }

  lemma {:induction false} ChunkName(body: seq<Entry>, size: nat, s: Entry)
    requires 0 < size && s in Chunks(body, size)
    ensures exists e :: e in body && e.name == s.name
  {
    var k := if size < |body| then size else |body|;
    if s in Chunks(body[k..], size) {
      ChunkName(body[k..], size, s);
    } else {
      assert body[0] in body;
    }
  }

  /** At most `m` good shards make a sound directory. */
  lemma ShardsBuilt(m: nat, shards: seq<Entry>, node: Node)
    requires 2 <= m && 0 < |shards| <= m && Searchable(shards) && GoodShards(m, shards)
    requires Builds(m, SortByName(shards), node)
    ensures node.entries == shards && Sound(m, node)
  {
    SortOfSorted(shards);
    assert node.entries == shards;
    if Fits(m, shards) {
      GoodShardsWellFormed(m, shards);
    }
  }

  lemma GoodShardsWellFormed(m: nat, shards: seq<Entry>)
    requires 0 < |shards| <= m && Searchable(shards) && GoodShards(m, shards) && Fits(m, shards)
    ensures WellFormed(m, shards)
  {
    forall i | 0 <= i < |shards|
      ensures shards[i].Shard? && shards[i].child.entries != [] && Plain(shards[i].child.entries)
      ensures WellFormed(m, shards[i].child.entries)
    {
      assert shards[i] in shards;
      BodyWellFormed(m, shards, i);
    }
  }

  lemma BodyWellFormed(m: nat, shards: seq<Entry>, i: nat)
    requires i < |shards| && Searchable(shards) && GoodShards(m, shards) && Fits(m, shards)
    ensures WellFormed(m, shards[i].child.entries)
  {
    assert shards[i] in shards;
    var body := shards[i].child.entries;
    SortedIsDistinct(body);
    forall j | 0 <= j < |body| && !body[j].File?
      ensures body[j].child.entries != [] && WellFormed(m, body[j].child.entries)
    {
      assert body[j] in body;
      ChildOfPlain(body, body[j].name, body[j]);
      UniqueHolder(shards, i, body[j].name);
      FitsBelow(m, shards, body[j].name);
    }
  }

  // ---- Expanding shards -----------------------------------------------------

  /** The entries with every shard replaced by its contents. */
  function Expand(es: seq<Entry>): seq<Entry> {
    if es == [] then []
    else (if es[0].Shard? then es[0].child.entries else [es[0]]) + Expand(es[1..])
  }

  lemma {:induction false} ExpandSnoc(es: seq<Entry>, e: Entry)
    ensures Expand(es + [e]) == Expand(es) + (if e.Shard? then e.child.entries else [e])
  {
    if es == [] {
      assert es + [e] == [e] && [e][1..] == [];
    } else {
      assert (es + [e])[1..] == es[1..] + [e];
      ExpandSnoc(es[1..], e);
    }
  }

  /** `expand_shards`. */
  method ExpandShards(es: seq<Entry>) returns (r: seq<Entry>)
    ensures r == Expand(es)
  {
    r := [];
    for i := 0 to |es|
      invariant r == Expand(es[..i])
    {
      ExpandSnoc(es[..i], es[i]);
      assert es[..i + 1] == es[..i] + [es[i]];
      r := r + if es[i].Shard? then es[i].child.entries else [es[i]];
    }
    assert es[..|es|] == es;
  }

  ghost predicate PlainShards(es: seq<Entry>) {
    forall s :: s in es && s.Shard? ==> Plain(s.child.entries)
  }

  lemma {:induction false} ExpandChild(es: seq<Entry>, n: Name)
    ensures PlainShards(es) ==> Plain(Expand(es))
    ensures Child(Expand(es), n) == Child(es, n)
  {
    if es != [] {
      ExpandChild(es[1..], n);
      var first := if es[0].Shard? then es[0].child.entries else [es[0]];
      ChildConcat(first, Expand(es[1..]), n);
      assert [es[0]][1..] == [];
    }
  }

  lemma {:induction false} ExpandHeight(es: seq<Entry>)
    ensures Height(Expand(es)) <= Height(es)
    ensures AllShards(es) ==> Height(Expand(es)) < Height(es)
  {
    if es != [] {
      var first := if es[0].Shard? then es[0].child.entries else [es[0]];
      ExpandHeight(es[1..]);
      HeightConcat(first, Expand(es[1..]));
      if AllShards(es) {
        assert es[1..] == [] || AllShards(es[1..]);
      }
      assert [es[0]][1..] == [];
    }
  }

  lemma {:induction false} HeightConcat(a: seq<Entry>, b: seq<Entry>)
    ensures Height(a + b) == if Height(a) < Height(b) then Height(b) else Height(a)
  {
    if a == [] {
      assert a + b == b;
    } else {
      assert (a + b)[0] == a[0] && (a + b)[1..] == a[1..] + b;
      HeightConcat(a[1..], b);
    }
  }

  /** The expanded entries come from the node itself or from one of its shards. */
  lemma {:induction false} ExpandSource(es: seq<Entry>, e: Entry) returns (k: nat)
    requires e in Expand(es)
    ensures k < |es| && if es[k].Shard? then e in es[k].child.entries else e == es[k]
  {
    if e in (if es[0].Shard? then es[0].child.entries else [es[0]]) {
      k := 0;
    } else {
      k := ExpandSource(es[1..], e);
      k := k + 1;
    }
  }

  lemma {:induction false} ExpandSearchable(es: seq<Entry>)
    requires Searchable(es) && PlainShards(es)
    ensures Searchable(Expand(es)) && Plain(Expand(es))
  {
    if es != [] {
      var first, rest := if es[0].Shard? then es[0].child.entries else [es[0]], Expand(es[1..]);
      SliceSearchable(es, 0, 1);
      assert es[0..1] == [es[0]];
      if 1 < |es| {
        SliceSearchable(es, 1, |es|);
        assert es[1..|es|] == es[1..];
      }
      ExpandSearchable(es[1..]);
      assert Plain(first);
      forall x, y | x in first && y in rest ensures Lt(x.name, y.name) {
        FirstBeforeRest(es, x, y);
      }
      if rest != [] {
        forall n: Name | Child(first, n).Some? ensures Lt(n, rest[0].name) {
          ChildNone(first, n);
          assert rest[0] in rest;
        }
      }
      JoinSearchable(first, rest);
    }
  }

  lemma FirstBeforeRest(es: seq<Entry>, x: Entry, y: Entry)
    requires es != [] && Searchable(es) && PlainShards(es)
    requires x in if es[0].Shard? then es[0].child.entries else [es[0]]
    requires y in Expand(es[1..])
    ensures Lt(x.name, y.name)
  {
    if es[0].Shard? { ChildNone(es[0].child.entries, x.name); }
    var k := ExpandSource(es[1..], y);
    if es[k + 1].Shard? { ChildNone(es[k + 1].child.entries, y.name); }
    assert Holds(es[0], x.name) && Holds(es[k + 1], y.name);
    HolderInRange(es, 0, x.name);
    HolderInRange(es, k + 1, y.name);
  }

  /** Expanding a published directory gives its children, in order. */
  lemma ExpandWellFormed(m: nat, es: seq<Entry>)
    requires WellFormed(m, es)
    ensures Searchable(Expand(es)) && Plain(Expand(es))
    ensures forall n: Name :: Child(Expand(es), n) == Child(es, n)
    ensures forall e :: e in Expand(es) && e.Dir? ==> e.child.entries != [] && WellFormed(m, e.child.entries)
  {
    WellFormedIsSearchable(m, es);
    ExpandSearchable(es);
    forall n: Name { ExpandChild(es, n); }
    forall e | e in Expand(es) && e.Dir?
      ensures e.child.entries != [] && WellFormed(m, e.child.entries)
    {
      var k := ExpandSource(es, e);
    }
  }

  // ---- Children by name -----------------------------------------------------

  /** What a published directory may have under the name `n`. */
  ghost predicate PublishedChild(m: nat, n: Name, e: Option<Entry>) {
    e.Some? ==>
      && e.value.name == n && !e.value.Shard?
      && (e.value.Dir? ==> e.value.child.entries != [] && WellFormed(m, e.value.child.entries))
  }

  function NameSet(es: seq<Entry>): set<Name> {
    set e | e in es :: e.name
  }

  /** The expanded children of a directory are its children, each fit to be merged. */
  ghost predicate Listed(m: nat, es: seq<Entry>, listed: seq<Entry>) {
    forall n: Name ::
      && Child(listed, n) == Child(es, n)
      && (Child(es, n).Some? <==> n in NameSet(listed))
      && PublishedChild(m, n, Child(es, n))
      && (Child(es, n).Some? ==> Height([Child(es, n).value]) <= Height(es))
  }

  lemma ExpandListed(m: nat, es: seq<Entry>)
    requires WellFormed(m, es)
    ensures Listed(m, es, Expand(es))
  {
    ExpandWellFormed(m, es);
    ExpandHeight(es);
    forall n: Name
      ensures Child(es, n).Some? <==> n in NameSet(Expand(es))
      ensures PublishedChild(m, n, Child(es, n))
      ensures Child(es, n).Some? ==> Height([Child(es, n).value]) <= Height(es)
    {
      ChildNone(Expand(es), n);
      if Child(es, n).Some? {
        var i :| 0 <= i < |Expand(es)| && Expand(es)[i] == Child(es, n).value;
        HeightOfEntry(Expand(es), i);
      }
    }
  }
}
