/** Rebuilding a tree from a stream of leaves in ascending order of their paths. */
module Rebuild {
  import opened Paths
  import opened Trees
  import opened Builder
  import opened Splice
  import opened Frames
  import Query

  ghost function NoParents(): Path -> map<Name, Entry> {
    (d: Path) => map[]
  }

  /** The stream ascends by path, compared as strings. */
  predicate StringSorted(xs: seq<Item>) {
    forall i :: 0 < i < |xs| ==> Lt(Join(xs[i - 1].path), Join(xs[i].path))
  }

  lemma {:induction false} StringSortedFar(xs: seq<Item>, i: nat, j: nat)
    requires StringSorted(xs) && i < j < |xs|
    ensures Lt(Join(xs[i].path), Join(xs[j].path))
  {
    if i + 1 < j {
      StringSortedFar(xs, i, j - 1);
    }
  }

  // ---- Strings in order keep a common prefix --------------------------------

  lemma {:induction false} PrefixBetween(pre: string, a: string, b: string, c: string)
    requires pre <= a && pre <= c && LexLess(a, b) && LexLess(b, c)
    ensures pre <= b
  {
    if pre != "" {
      assert pre[0] == a[0] == c[0];
      assert b[0] == pre[0];
      PrefixBetween(pre[1..], a[1..], b[1..], c[1..]);
      assert pre == [pre[0]] + pre[1..] && b == [b[0]] + b[1..];
    }
  }

  lemma Between(d: Path, p: Path, q: Path, r: Path)
    requires d < p && d < r && q != [] && Lt(Join(p), Join(q)) && Lt(Join(q), Join(r))
    ensures d < q
  {
    if d != [] {
      JoinPrefix(d, p);
      JoinPrefix(d, q);
      JoinPrefix(d, r);
      LtIsLexicographic(Join(p), Join(q));
      LtIsLexicographic(Join(q), Join(r));
      PrefixBetween(Join(d) + "/", Join(p), Join(q), Join(r));
    }
  }

  /** String order keeps every directory together. */
  lemma StringSortedIsGrouped(xs: seq<Item>)
    requires StringSorted(xs) && forall i :: 0 <= i < |xs| ==> xs[i].path != []
    ensures Grouped(xs)
    ensures forall i, j :: 0 <= i < j < |xs| ==> xs[i].path != xs[j].path
  {
    forall i, j | 0 <= i < j < |xs| ensures Lt(Join(xs[i].path), Join(xs[j].path)) {
      StringSortedFar(xs, i, j);
    }
    forall d: Path, i, j, k | 0 <= i < j < k < |xs| && Under(d, xs[i].path) && Under(d, xs[k].path)
      ensures Under(d, xs[j].path)
    {
      Between(d, xs[i].path, xs[j].path, xs[k].path);
    }
  }

  // ---- The build ------------------------------------------------------------

  /** A prefix-free stream as the frames read it. */
  ghost predicate ReadingPlain(m: nat, all: seq<Item>, i: nat, frames: seq<Frame>) {
    Reading(m, NoParents(), all, i, frames)
  }

  /** No file lies at or below the prefixes of `dir` from length `low` on. */
  ghost predicate FreeFrom(fs: seq<Item>, dir: Path, low: nat) {
    forall k, q :: low <= k <= |dir| && q in PathsOf(fs) ==> !(dir[..k] <= q)
  }

  /** Opens the directories on the way to `dir`. */
  method OpenPlain(m: nat, frames: seq<Frame>, dir: Path, ghost fs: seq<Item>) returns (r: seq<Frame>)
    requires Chain(frames) && Top(frames).dir <= dir
    ensures Chain(r) && Top(r).dir == dir
    ensures Built(m, NoParents(), fs, frames) && FreeFrom(fs, dir, |frames|) ==> Built(m, NoParents(), fs, r)
  {
    r := frames;
    ghost var unused := FreeFrom(fs, dir, |frames|);
    for index := |frames| - 1 to |dir|
      invariant |r| == index + 1
      invariant Chain(r) && Top(r).dir == dir[..index]
      invariant Built(m, NoParents(), fs, frames) && unused ==> Built(m, NoParents(), fs, r)
    {
      var f := Frame(dir[..index + 1], [], map[]);
      LongerChain(r, f);
      if Built(m, NoParents(), fs, r) && unused {
        OpenedFrame(m, NoParents(), fs, r, f);
      }
      hide Built, NoParents;
      r := r + [f];
    }
  }

  /** One turn of the loop: the entry goes to the frame of its directory. */
  method PlaceEntry(m: nat, frames: seq<Frame>, entry: Item, ghost all: seq<Item>, ghost i: nat)
    returns (r: Result<seq<Frame>>)
    requires 2 <= m && Chain(frames) && entry.path != []
    requires i < |all| && all[i] == entry
    ensures r.Success? ==> Chain(r.value)
    ensures ReadingPlain(m, all, i, frames) ==> r.Success? && ReadingPlain(m, all, i + 1, r.value)
  {
    var k := |entry.path| - 1;
    var dir, name := entry.path[..k], entry.path[k];
    if dir == [] {
      if ReadingPlain(m, all, i, frames) {
        RootFileRead(m, NoParents(), all, i, frames);
      }
      hide ReadingPlain;
      SameChain(frames, 0, File(name, entry.leaf));
      return Success(WithChild(frames, 0, File(name, entry.leaf)));
    }
    hide Ready, NoParents, Stream, Built;
    var closed :- CloseUntil(m, frames, dir, NoParents(), all[..i]);
    if ReadingPlain(m, all, i, frames) {
      forall k, q | |closed| <= k <= |dir| && q in PathsOf(all[..i]) ensures !(dir[..k] <= q) {
        NewDirectory(all, i, frames, closed, dir, k);
      }
      ReadyIsBuilt(m, NoParents(), all[..i], closed);
    }
    var open := OpenPlain(m, closed, dir, all[..i]);
    if ReadingPlain(m, all, i, frames) {
      FileRead(m, NoParents(), all, i, open);
    }
    SameChain(open, |open| - 1, File(name, entry.leaf));
    return Success(WithChild(open, |open| - 1, File(name, entry.leaf)));
  }

  lemma ReadyIsBuilt(m: nat, parents: Path -> map<Name, Entry>, fs: seq<Item>, frames: seq<Frame>)
    requires Ready(m, parents, fs, frames)
    ensures Built(m, parents, fs, frames)
  {
  }

  lemma SameChain(frames: seq<Frame>, k: nat, e: Entry)
    requires Chain(frames) && k < |frames|
    ensures Chain(WithChild(frames, k, e))
  {
    var next := WithChild(frames, k, e);
    assert forall j :: 0 <= j < |frames| ==> next[j].dir == frames[j].dir && next[j].parent == frames[j].parent;
  }

  /** Nothing is read yet. */
  lemma NothingRead(m: nat, all: seq<Item>)
    requires Stream(all)
    ensures ReadingPlain(m, all, 0, [Frame([], [], map[])])
  {
    var frames := [Frame([], [], map[])];
    assert all[..0] == [] && PathsOf(all[..0]) == {};
  }

  /** `build_from_entries`: a stream out of order is refused; a prefix-free stream in
      order becomes a tree that holds exactly its leaves. */
  method BuildFromEntries(m: nat, entries: seq<Item>) returns (r: Result<Node>)
    requires 2 <= m && forall i :: 0 <= i < |entries| ==> entries[i].path != []
    ensures r.Success? ==> StringSorted(entries)
    ensures StringSorted(entries) && PrefixFree(entries) ==>
      && r.Success? && Finished(m, r.value.entries)
      && forall p: Path :: p != [] ==> LeafAt(r.value.entries, p) == AddedAt(entries, p)
  {
    ghost var good := StringSorted(entries) && PrefixFree(entries);
    if good {
      StringSortedIsGrouped(entries);
      NothingRead(m, entries);
    }
    hide ReadingPlain, Stream, PrefixFree, Ready, Finished, BuiltAt, AddedAt, LeafAt, NoParents;
    var frames := [Frame([], [], map[])];
    var previous: Option<Path> := None;
    for i := 0 to |entries|
      invariant Chain(frames)
      invariant previous == if i == 0 then None else Some(entries[i - 1].path)
      invariant forall j :: 0 < j < i ==> Lt(Join(entries[j - 1].path), Join(entries[j].path))
      invariant good ==> ReadingPlain(m, entries, i, frames)
    {
      var path := entries[i].path;
      if previous.Some? && !Lt(Join(previous.value), Join(path)) {
        return Failure(Unsorted);
      }
      previous := Some(path);
      frames :- PlaceEntry(m, frames, entries[i], entries, i);
    }
    r := Finish(m, frames, NoParents(), entries);
    if good {
      AllRead(m, entries, frames);
      OnlyEntries(entries);
    }
  }

  lemma OnlyEntries(entries: seq<Item>)
    requires PrefixFree(entries)
    ensures forall p: Path :: p != [] ==> BuiltAt(NoParents(), entries, [], p) == AddedAt(entries, p)
  {
    forall p: Path | p != [] ensures BuiltAt(NoParents(), entries, [], p) == AddedAt(entries, p) {
      NothingThrough(entries, [], p);
      assert [] + p == p;
    }
  }

  lemma AllRead(m: nat, all: seq<Item>, frames: seq<Frame>)
    requires ReadingPlain(m, all, |all|, frames)
    ensures Ready(m, NoParents(), all, frames)
  {
    assert all[..|all|] == all;
  }

  lemma {:induction false} NothingThrough(fs: seq<Item>, d: Path, p: Path)
    requires p != []
    ensures Through(NoParents(), fs, d, p) == None
    decreases |p|
  {
    if |p| > 1 {
      NothingThrough(fs, d + [p[0]], p[1..]);
    }
  }

  // ---- Feeding a walk back in -----------------------------------------------

  /** Somewhere `p` goes into a directory whose name `q` continues with a character
      that comes before the slash. */
  predicate Crossed(p: Path, q: Path) {
    p != [] && q != [] &&
    if p[0] == q[0] then Crossed(p[1..], q[1..])
    else |p| > 1 && p[0] < q[0] && q[0][|p[0]|] < '/'
  }

  lemma {:induction false} LexWithTails(a: string, s: string, b: string, t: string)
    requires LexLess(a, b) && '/' !in b && (s == "" || s[0] == '/')
    ensures LexLess(a + s, b + t) <==> s == "" || !(a < b && b[|a|] < '/')
  {
    if a == "" {
      assert a + s == s && (b + t)[0] == b[0] && b[0] in b;
    } else {
      assert (a + s)[0] == a[0] && (a + s)[1..] == a[1..] + s;
      assert (b + t)[0] == b[0] && (b + t)[1..] == b[1..] + t;
      if a[0] == b[0] {
        assert forall c :: c in b[1..] ==> c in b;
        LexWithTails(a[1..], s, b[1..], t);
        assert a < b <==> a[1..] < b[1..];
      }
    }
  }

  lemma {:induction false} LexSameHead(a: string, s: string, t: string)
    ensures LexLess(a + s, a + t) <==> LexLess(s, t)
  {
    if a == "" {
      assert a + s == s && a + t == t;
    } else {
      assert (a + s)[1..] == a[1..] + s && (a + t)[1..] == a[1..] + t;
      LexSameHead(a[1..], s, t);
    }
  }

  function Tail(p: Path): string
    requires p != []
  {
    if |p| == 1 then "" else "/" + Join(p[1..])
  }

  lemma JoinIsHeadAndTail(p: Path)
    requires p != []
    ensures Join(p) == p[0] + Tail(p)
  {
  }

  /** Component order and string order agree except on crossed paths. */
  lemma {:induction false} OrdersAgree(p: Path, q: Path)
    requires p != [] && q != [] && Query.PathLess(p, q)
    ensures LexLess(Join(p), Join(q)) <==> !Crossed(p, q)
    decreases |p|
  {
    JoinIsHeadAndTail(p);
    JoinIsHeadAndTail(q);
    if p[0] == q[0] {
      LexSameHead(p[0], Tail(p), Tail(q));
      if |p| > 1 {
        OrdersAgree(p[1..], q[1..]);
        assert Tail(p)[1..] == Join(p[1..]) && Tail(q)[1..] == Join(q[1..]);
      }
    } else {
      LtIsLexicographic(p[0], q[0]);
      LexWithTails(p[0], Tail(p), q[0], Tail(q));
    }
  }

  lemma {:induction false} CrossedIsLess(p: Path, q: Path)
    requires Crossed(p, q)
    ensures Query.PathLess(p, q)
  {
    if p[0] == q[0] {
      CrossedIsLess(p[1..], q[1..]);
    } else {
      var t := q[0][|p[0]|..];
      assert q[0] == p[0] + t;
      Extends(p[0], t);
    }
  }

  lemma {:induction false} Extends(a: string, t: string)
    requires t != ""
    ensures Lt(a, a + t)
  {
    LtIsLexicographic(a, a + t);
    assert a + "" == a;
    LexSameHead(a, "", t);
  }

  lemma {:induction false} PathLessOneWay(p: Path, q: Path)
    requires Query.PathLess(p, q)
    ensures p != q && !Query.PathLess(q, p)
    decreases |p|
  {
    if p != [] && p[0] == q[0] {
      PathLessOneWay(p[1..], q[1..]);
    }
  }

  /** A walk's listing is in the order the rebuild demands exactly when no two leaves cross. */
  lemma WalkIsStringSorted(es: seq<Entry>)
    requires Searchable(es)
    ensures StringSorted(Query.Flatten(es, [])) <==>
            forall p, q :: LeafAt(es, p).Some? && LeafAt(es, q).Some? ==> !Crossed(p, q)
  {
    var xs := Query.Flatten(es, []);
    Query.FlattenAscends(es, []);
    forall x | x in xs ensures x.path != [] && LeafAt(es, x.path).Some? {
      Query.FlattenSound(es, [], x);
    }
    if StringSorted(xs) {
      forall p, q | LeafAt(es, p).Some? && LeafAt(es, q).Some? ensures !Crossed(p, q) {
        if Crossed(p, q) {
          CrossedIsLess(p, q);
          StringSortedLeaves(es, p, q);
        }
      }
    } else {
      var i :| 0 < i < |xs| && !Lt(Join(xs[i - 1].path), Join(xs[i].path));
      var p, q := xs[i - 1].path, xs[i].path;
      assert xs[i - 1] in xs && xs[i] in xs;
      OrdersAgree(p, q);
      LtIsLexicographic(Join(p), Join(q));
    }
  }

  lemma StringSortedLeaves(es: seq<Entry>, p: Path, q: Path)
    requires Searchable(es) && StringSorted(Query.Flatten(es, []))
    requires LeafAt(es, p).Some? && LeafAt(es, q).Some? && Query.PathLess(p, q)
    ensures !Crossed(p, q)
  {
    var xs := Query.Flatten(es, []);
    Query.FlattenAscends(es, []);
    var i := ListedIndex(es, p);
    var j := ListedIndex(es, q);
    hide *;
    PathLessOneWay(p, q);
    InOrder(xs, i, j);
    LtIsLexicographic(Join(p), Join(q));
    NonEmptyLeaf(es, p);
    NonEmptyLeaf(es, q);
    OrdersAgree(p, q);
  }

  lemma NonEmptyLeaf(es: seq<Entry>, p: Path)
    requires LeafAt(es, p).Some?
    ensures p != []
  {
  }

  lemma InOrder(xs: seq<Item>, i: nat, j: nat)
    requires StringSorted(xs) && Query.AscendingPaths(xs) && i < |xs| && j < |xs|
    requires xs[i].path != xs[j].path && !Query.PathLess(xs[j].path, xs[i].path)
    ensures Lt(Join(xs[i].path), Join(xs[j].path))
  {
    assert i < j;
    StringSortedFar(xs, i, j);
  }

  lemma ListedIndex(es: seq<Entry>, p: Path) returns (i: nat)
    requires Searchable(es) && LeafAt(es, p).Some?
    ensures i < |Query.Flatten(es, [])| && Query.Flatten(es, [])[i].path == p
  {
    Query.FlattenComplete(es, [], p);
    hide Query.Flatten, Searchable, LeafAt;
    assert [] + p == p;
    i :| 0 <= i < |Query.Flatten(es, [])| && Query.Flatten(es, [])[i] == Item(p, LeafAt(es, p).value);
  }

  /** Rebuilding a walk that is accepted gives back the same flat map. */
  lemma WalkRebuilds(es: seq<Entry>)
    requires Searchable(es)
    ensures PrefixFree(Query.Flatten(es, []))
    ensures forall p: Path :: p != [] ==> AddedAt(Query.Flatten(es, []), p) == LeafAt(es, p)
  {
    var xs := Query.Flatten(es, []);
    forall p, q | p in PathsOf(xs) && q in PathsOf(xs) ensures !(p < q) {
      ListedPath(es, p);
      ListedPath(es, q);
      LeavesDoNotNest(es, p, q);
    }
    forall p: Path | p != [] ensures AddedAt(xs, p) == LeafAt(es, p) {
      ListedAt(es, p);
    }
  }

  lemma ListedPath(es: seq<Entry>, p: Path)
    requires Searchable(es) && p in PathsOf(Query.Flatten(es, []))
    ensures LeafAt(es, p).Some?
  {
    var xs := Query.Flatten(es, []);
    var x :| x in xs && x.path == p;
    hide Query.Flatten, LeafAt, Searchable;
    Query.FlattenSound(es, [], x);
    assert p[0..] == p;
  }

  lemma ListedAt(es: seq<Entry>, p: Path)
    requires Searchable(es)
    ensures AddedAt(Query.Flatten(es, []), p) == LeafAt(es, p)
  {
    var xs := Query.Flatten(es, []);
    hide Query.Flatten, LeafAt, Searchable, AddedAt;
    BelowSpec(xs, [], p);
    if AddedAt(xs, p).Some? {
      AddedIsMember(xs, p);
      Query.FlattenSound(es, [], Item(p, AddedAt(xs, p).value));
      assert p[0..] == p;
    }
    if LeafAt(es, p).Some? {
      Query.FlattenComplete(es, [], p);
      assert [] + p == p;
      assert p in PathsOf(xs) by {
        assert Item(p, LeafAt(es, p).value) in xs;
        assert Item(p, LeafAt(es, p).value).path == p;
      }
    }
  }

  lemma {:induction false} AddedIsMember(xs: seq<Item>, p: Path)
    requires AddedAt(xs, p).Some?
    ensures Item(p, AddedAt(xs, p).value) in xs
  {
    var k := |xs| - 1;
    if xs[k].path != p {
      AddedIsMember(xs[..k], p);
    }
  }

  lemma {:induction false} LeavesDoNotNest(es: seq<Entry>, p: Path, q: Path)
    requires LeafAt(es, p).Some? && LeafAt(es, q).Some?
    ensures !(p < q)
    decreases |p|
  {
    if p < q {
      assert p[0] == q[0];
      var c := Child(es, p[0]).value;
      if c.Dir? {
        LeavesDoNotNest(c.child.entries, p[1..], q[1..]);
      }
    }
  }

  // ---- One tree for one flat map --------------------------------------------

  /** A tree without shards and without empty subdirectories. */
  ghost predicate Shardless(es: seq<Entry>) {
    Sorted(es) && forall i :: 0 <= i < |es| ==>
      !es[i].Shard? && (es[i].Dir? ==> es[i].child.entries != [] && Shardless(es[i].child.entries))
  }

  lemma {:induction false} SomeLeaf(es: seq<Entry>) returns (p: Path)
    requires Shardless(es) && es != []
    ensures p != [] && p[0] == es[0].name && LeafAt(es, p).Some?
    decreases Height(es)
  {
    if es[0].Dir? {
      HeightOfMember(es, es[0]);
      p := SomeLeaf(es[0].child.entries);
      p := [es[0].name] + p;
    } else {
      p := [es[0].name];
    }
  }

  lemma ShardlessTail(es: seq<Entry>)
    requires Shardless(es) && es != []
    ensures Shardless(es[1..])
    ensures forall n: Name :: Child(es[1..], n).Some? ==> Lt(es[0].name, n)
    ensures forall n: Name :: Child(es, n) == if n == es[0].name then Some(es[0]) else Child(es[1..], n)
  {
    forall e | e in es[1..] ensures !e.Shard? && Lt(es[0].name, e.name) {
      var i :| 0 <= i < |es| - 1 && es[1..][i] == e;
      assert es[i + 1] == e;
    }
    forall n: Name { ChildNone(es[1..], n); }
  }

  /** Equal flat maps, equal trees: content decides the root. */
  lemma {:induction false} ShardlessUnique(a: seq<Entry>, b: seq<Entry>)
    requires Shardless(a) && Shardless(b)
    requires forall p: Path :: LeafAt(a, p) == LeafAt(b, p)
    ensures a == b
    decreases Height(a), |a|
  {
    if a == [] && b == [] {
    } else if a == [] {
      EmptyIsEmpty(b);
    } else if b == [] {
      EmptyIsEmpty(a);
    } else {
      SameFirst(a, b);
      ShardlessTail(a);
      ShardlessTail(b);
      var n := a[0].name;
      assert a[0] == b[0] by {
        SameEntry(a, b);
        if a[0].Dir? && b[0].Dir? {
          HeightOfMember(a, a[0]);
          ShardlessUnique(a[0].child.entries, b[0].child.entries);
        }
      }
      forall p: Path ensures LeafAt(a[1..], p) == LeafAt(b[1..], p) {
        assert LeafAt(a, p) == LeafAt(b, p);
        if p != [] && p[0] == n {
          assert Child(a[1..], n) == None && Child(b[1..], n) == None;
        }
      }
      TailHeight(a);
      ShardlessUnique(a[1..], b[1..]);
      assert a == [a[0]] + a[1..] && b == [b[0]] + b[1..];
    }
  }

  lemma EmptyIsEmpty(es: seq<Entry>)
    requires Shardless(es) && forall p: Path :: LeafAt([], p) == LeafAt(es, p)
    ensures es == []
  {
    if es != [] {
      var p := SomeLeaf(es);
      NoLeaf(p);
    }
  }

  lemma NoLeaf(p: Path)
    ensures LeafAt([], p) == None
  {
  }

  lemma SameFirst(a: seq<Entry>, b: seq<Entry>)
    requires Shardless(a) && Shardless(b) && a != [] && b != []
    requires forall p: Path :: LeafAt(a, p) == LeafAt(b, p)
    ensures a[0].name == b[0].name
  {
    var p := SomeLeaf(a);
    var q := SomeLeaf(b);
    ShardlessTail(a);
    ShardlessTail(b);
    PlaceInjective();
    hide Shardless, Place, LeafIn;
    NamedChild(b, p);
    NamedChild(a, q);
  }

  lemma NamedChild(es: seq<Entry>, p: Path)
    requires p != [] && LeafAt(es, p).Some?
    ensures Child(es, p[0]).Some?
  {
  }

  /** The first entries are the same file, or directories with the same flat map. */
  lemma SameEntry(a: seq<Entry>, b: seq<Entry>)
    requires Shardless(a) && Shardless(b) && a != [] && b != []
    requires a[0].name == b[0].name
    requires forall p: Path :: LeafAt(a, p) == LeafAt(b, p)
    ensures a[0].File? && b[0].File? ==> a[0] == b[0]
    ensures a[0].File? <==> b[0].File?
    ensures a[0].Dir? && b[0].Dir? ==>
      forall p: Path :: LeafAt(a[0].child.entries, p) == LeafAt(b[0].child.entries, p)
  {
    ShardlessTail(a);
    ShardlessTail(b);
    var n := a[0].name;
    assert !a[0].Shard? && !b[0].Shard?;
    hide Shardless, Child, LeafIn;
    forall p: Path | p != [] && p[0] == n ensures LeafIn(Some(a[0]), p) == LeafIn(Some(b[0]), p) {
      assert LeafAt(a, p) == LeafAt(b, p);
    }
    hide LeafAt;
    SameChild(a[0], b[0]);
  }

  lemma DirIsNoLeaf(e: Entry)
    requires !e.Shard?
    ensures LeafIn(Some(e), [e.name]) == if e.File? then Some(e.leaf) else None
  {
    assert [e.name][1..] == [];
  }

  lemma SameChild(x: Entry, y: Entry)
    requires !x.Shard? && !y.Shard? && x.name == y.name
    requires forall p: Path :: p != [] && p[0] == x.name ==> LeafIn(Some(x), p) == LeafIn(Some(y), p)
    ensures x.File? && y.File? ==> x == y
    ensures x.File? <==> y.File?
    ensures x.Dir? && y.Dir? ==> forall p: Path :: LeafAt(x.child.entries, p) == LeafAt(y.child.entries, p)
  {
    assert LeafIn(Some(x), [x.name]) == LeafIn(Some(y), [x.name]);
    DirIsNoLeaf(x);
    DirIsNoLeaf(y);
    forall p: Path | x.Dir? && y.Dir?
      ensures LeafAt(x.child.entries, p) == LeafAt(y.child.entries, p)
    {
      assert ([x.name] + p)[1..] == p;
      assert LeafIn(Some(x), [x.name] + p) == LeafIn(Some(y), [x.name] + p);
    }
  }

  // ---- Sorting leaves by path -----------------------------------------------

  predicate Precedes(a: Item, b: Item) {
    Lt(Join(a.path), Join(b.path))
  }

  /** `x` placed behind every item whose path does not come after its own. */
  function InsertItem(xs: seq<Item>, x: Item): seq<Item> {
    if xs != [] && Precedes(x, xs[|xs| - 1])
    then InsertItem(xs[..|xs| - 1], x) + [xs[|xs| - 1]]
    else xs + [x]
  }

  /** The items in order of path; equal paths keep their order. */
  function SortByPath(xs: seq<Item>): seq<Item> {
    if xs == [] then [] else InsertItem(SortByPath(xs[..|xs| - 1]), xs[|xs| - 1])
  }

  predicate Rising(xs: seq<Item>) {
    forall i, j :: 0 <= i < j < |xs| ==> !Precedes(xs[j], xs[i])
  }

  lemma {:induction false} InsertItemRising(xs: seq<Item>, x: Item)
    requires Rising(xs)
    ensures Rising(InsertItem(xs, x)) && |InsertItem(xs, x)| == |xs| + 1
    ensures forall y :: y in InsertItem(xs, x) <==> y in xs || y == x
  {
    hide Precedes;
    if xs != [] && Precedes(x, xs[|xs| - 1]) {
      var k := |xs| - 1;
      InsertItemRising(xs[..k], x);
      var low := InsertItem(xs[..k], x);
      assert forall i :: 0 <= i < |low| ==> low[i] in low;
      assert xs == xs[..k] + [xs[k]];
      NotBefore(x, xs[k]);
    } else if xs != [] {
      var k := |xs| - 1;
      forall i | 0 <= i < |xs| ensures !Precedes(x, xs[i]) {
        if i < k { PrecedesThrough(x, xs[i], xs[k]); }
      }
    }
  }

  lemma NotBefore(a: Item, b: Item)
    requires Precedes(a, b)
    ensures !Precedes(b, a)
  {
  }

  lemma PrecedesThrough(a: Item, b: Item, c: Item)
    requires !Precedes(c, b) && !Precedes(a, c)
    ensures !Precedes(a, b)
  {
  }

  lemma {:induction false} InsertItemAdded(xs: seq<Item>, x: Item, p: Path)
    ensures AddedAt(InsertItem(xs, x), p) == if x.path == p then Some(x.leaf) else AddedAt(xs, p)
  {
    if xs != [] && Precedes(x, xs[|xs| - 1]) {
      var k := |xs| - 1;
      InsertItemAdded(xs[..k], x, p);
      var low := InsertItem(xs[..k], x);
      assert (low + [xs[k]])[..|low|] == low;
    } else {
      assert (xs + [x])[..|xs|] == xs;
    }
  }

  /** Sorting changes neither the items nor which of two equal paths wins. */
  lemma {:induction false} SortByPathSpec(xs: seq<Item>)
    ensures Rising(SortByPath(xs)) && |SortByPath(xs)| == |xs|
    ensures forall x :: x in SortByPath(xs) <==> x in xs
    ensures forall p: Path :: AddedAt(SortByPath(xs), p) == AddedAt(xs, p)
    ensures PathsOf(SortByPath(xs)) == PathsOf(xs)
  {
    if xs != [] {
      var k := |xs| - 1;
      assert xs == xs[..k] + [xs[k]];
      SortByPathSpec(xs[..k]);
      InsertItemRising(SortByPath(xs[..k]), xs[k]);
      forall p: Path ensures AddedAt(SortByPath(xs), p) == AddedAt(xs, p) {
        InsertItemAdded(SortByPath(xs[..k]), xs[k], p);
      }
    }
  }

  predicate DistinctPaths(xs: seq<Item>) {
    forall i, j :: 0 <= i < j < |xs| ==> xs[i].path != xs[j].path
  }

  lemma {:induction false} InsertItemDistinct(xs: seq<Item>, x: Item)
    requires DistinctPaths(xs) && forall y :: y in xs ==> y.path != x.path
    ensures DistinctPaths(InsertItem(xs, x))
    ensures forall y :: y in InsertItem(xs, x) <==> y in xs || y == x
  {
    hide Precedes;
    if xs != [] && Precedes(x, xs[|xs| - 1]) {
      var k := |xs| - 1;
      InsertItemDistinct(xs[..k], x);
      var low := InsertItem(xs[..k], x);
      assert forall i :: 0 <= i < |low| ==> low[i] in low;
      assert xs == xs[..k] + [xs[k]];
    }
  }

  lemma {:induction false} SortByPathDistinct(xs: seq<Item>)
    requires DistinctPaths(xs)
    ensures DistinctPaths(SortByPath(xs))
  {
    if xs != [] {
      var k := |xs| - 1;
      assert xs == xs[..k] + [xs[k]];
      SortByPathDistinct(xs[..k]);
      SortByPathSpec(xs[..k]);
      InsertItemDistinct(SortByPath(xs[..k]), xs[k]);
    }
  }

  /** Sorted leaves with different paths are a stream the rebuild accepts. */
  lemma SortedIsStringSorted(xs: seq<Item>)
    requires DistinctPaths(xs) && forall x :: x in xs ==> x.path != []
    ensures StringSorted(SortByPath(xs))
  {
    var r := SortByPath(xs);
    SortByPathSpec(xs);
    SortByPathDistinct(xs);
    PlaceInjective();
    forall i | 0 < i < |r| ensures Precedes(r[i - 1], r[i]) {
      assert r[i - 1] in r && r[i] in r;
      if Join(r[i - 1].path) == Join(r[i].path) {
        Query.JoinInjective(r[i - 1].path, r[i].path);
      }
    }
  }

  /** `splice_tree`: over a parent tree the path splice, without one a fresh build. */
  method SpliceOrBuild(m: nat, parent: Option<Node>, adds: seq<Item>, removed: set<Path>) returns (r: Result<Node>)
    requires 2 <= m && (parent.Some? ==> WellFormed(m, parent.value.entries))
    requires forall a :: a in adds ==> a.path != []
    ensures parent.Some? ==> (r.Success? <==> PrefixFree(adds))
    ensures PrefixFree(adds) && DistinctPaths(adds) ==> r.Success?
    ensures r.Success? && PrefixFree(adds) && (parent.None? ==> DistinctPaths(adds)) ==>
      && Finished(m, r.value.entries)
      && forall p: Path :: p != [] ==>
           LeafAt(r.value.entries, p) ==
           SplicedLeaf(LeafAt(EntriesOf(parent), p), p, adds, if parent.Some? then removed else {})
  {
    if parent.Some? {
      r := SpliceTree(m, parent.value, adds, removed);
      return;
    }
    if adds == [] {
      r := WriteNode([]);
      forall p: Path | p != [] ensures SplicedLeaf(None, p, adds, {}) == None {
      }
      return;
    }
    SortByPathSpec(adds);
    var sorted := SortByPath(adds);
    assert forall i :: 0 <= i < |sorted| ==> sorted[i] in sorted;
    if DistinctPaths(adds) {
      SortedIsStringSorted(adds);
    }
    r := BuildFromEntries(m, sorted);
  }
}
