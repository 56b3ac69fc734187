/** Directory frames: trees built from a stream of files, one open directory at a time. */
module Frames {
  import opened Paths
  import opened Trees
  import opened Builder
  import opened Splice

  /** An open directory: its path, the children met so far, and the children it had before. */
  datatype Frame = Frame(dir: Path, children: seq<Entry>, parent: map<Name, Entry>)

  function Lookup(parent: map<Name, Entry>, n: Name): Option<Entry> {
    if n in parent then Some(parent[n]) else None
  }

  predicate NamedByKey(parent: map<Name, Entry>) {
    forall n :: n in parent ==> parent[n].name == n && !parent[n].Shard?
  }

  ghost predicate SoundParent(m: nat, parent: map<Name, Entry>) {
    NamedByKey(parent) && forall n :: n in parent && parent[n].Dir? ==> Sound(m, parent[n].child)
  }

  // ---- What a stream of files builds ----------------------------------------

  /** Some file lies strictly below `d`. */
  ghost predicate Opened(fs: seq<Item>, d: Path) {
    d == [] || exists q :: q in PathsOf(fs) && d < q
  }

  /** Some file lies at or below the child `n` of `d`. */
  ghost predicate Used(fs: seq<Item>, d: Path, n: Name) {
    exists q :: q in PathsOf(fs) && d + [n] <= q
  }

  /** What shows through from the directories' former children where no file is. */
  ghost function Through(parents: Path -> map<Name, Entry>, fs: seq<Item>, d: Path, p: Path): Option<Leaf>
    requires p != []
    decreases |p|
  {
    if !Opened(fs, d + [p[0]]) then LeafIn(Lookup(parents(d), p[0]), p)
    else if |p| == 1 then None
    else Through(parents, fs, d + [p[0]], p[1..])
  }

  /** The leaf at `d + p` once the files `fs` are in. */
  ghost function BuiltAt(parents: Path -> map<Name, Entry>, fs: seq<Item>, d: Path, p: Path): Option<Leaf>
    requires p != []
  {
    if AddedAt(fs, d + p).Some? then AddedAt(fs, d + p)
    else if Shadowed(fs, d + p) then None
    else Through(parents, fs, d, p)
  }

  // ---- Streams --------------------------------------------------------------

  /** Files of one directory tree, in an order that keeps directories together. */
  ghost predicate Stream(fs: seq<Item>) {
    && PrefixFree(fs)
    && (forall i :: 0 <= i < |fs| ==> fs[i].path != [])
    && (forall i, j :: 0 <= i < j < |fs| ==> fs[i].path != fs[j].path)
    && Grouped(fs)
  }

  /** The files below any one directory are neighbours. */
  ghost predicate Grouped(fs: seq<Item>) {
    forall d: Path, i, j, k :: 0 <= i < j < k < |fs| && Under(d, fs[i].path) && Under(d, fs[k].path) ==>
      Under(d, fs[j].path)
  }

  predicate Under(d: Path, p: Path) {
    d < p
  }

  lemma PathsOfPrefix(fs: seq<Item>, i: nat)
    requires i <= |fs|
    ensures forall q :: q in PathsOf(fs[..i]) <==> exists j :: 0 <= j < i && fs[j].path == q
  {
    forall q | q in PathsOf(fs[..i]) ensures exists j :: 0 <= j < i && fs[j].path == q {
      var a :| a in fs[..i] && a.path == q;
      var j :| 0 <= j < i && fs[..i][j] == a;
      assert fs[j].path == q;
    }
    forall j | 0 <= j < i ensures fs[j].path in PathsOf(fs[..i]) {
      assert fs[..i][j] == fs[j];
    }
  }

  lemma PathsOfSnoc(fs: seq<Item>, a: Item)
    ensures forall q :: q in PathsOf(fs + [a]) <==> q in PathsOf(fs) || q == a.path
  {
    assert a in fs + [a];
    forall q | q in PathsOf(fs + [a]) ensures q in PathsOf(fs) || q == a.path {
      var x :| x in fs + [a] && x.path == q;
    }
    forall q | q in PathsOf(fs) ensures q in PathsOf(fs + [a]) {
      var x :| x in fs && x.path == q;
      assert x in fs + [a];
    }
  }

  lemma AddedAtSnoc(fs: seq<Item>, a: Item, p: Path)
    ensures AddedAt(fs + [a], p) == if a.path == p then Some(a.leaf) else AddedAt(fs, p)
  {
    assert (fs + [a])[..|fs|] == fs;
  }

  // ---- Names a new file does not touch --------------------------------------

  lemma UnusedStays(fs: seq<Item>, a: Item, d: Path, n: Name)
    requires !(d + [n] <= a.path)
    ensures Used(fs + [a], d, n) <==> Used(fs, d, n)
    ensures Opened(fs + [a], d + [n]) <==> Opened(fs, d + [n])
  {
    PathsOfSnoc(fs, a);
  }

  lemma {:induction false} ThroughStays(parents: Path -> map<Name, Entry>, fs: seq<Item>, a: Item, d: Path, p: Path)
    requires p != [] && !(d + [p[0]] <= a.path)
    ensures Through(parents, fs + [a], d, p) == Through(parents, fs, d, p)
    decreases |p|
  {
    var e := d + [p[0]];
    UnusedStays(fs, a, d, p[0]);
    if |p| > 1 {
      ThroughStays(parents, fs, a, e, p[1..]);
    }
  }

  lemma BuiltStays(parents: Path -> map<Name, Entry>, fs: seq<Item>, a: Item, d: Path, p: Path)
    requires p != [] && !(d + [p[0]] <= a.path) && !(a.path <= d)
    ensures BuiltAt(parents, fs + [a], d, p) == BuiltAt(parents, fs, d, p)
  {
    var e := d + [p[0]];
    assert e == (d + p)[..|e|];
    assert a.path != d + p;
    AddedAtSnoc(fs, a, d + p);
    PathsOfSnoc(fs, a);
    ThroughStays(parents, fs, a, d, p);
  }

  // ---- Frames that hold what was met so far ---------------------------------

  /** The open directories lie on one path, each one component deeper. */
  predicate Chain(frames: seq<Frame>) {
    && frames != []
    && (forall k :: 0 <= k < |frames| ==>
          |frames[k].dir| == k && frames[k].dir <= Top(frames).dir && NamedByKey(frames[k].parent))
  }

  function Top(frames: seq<Frame>): Frame
    requires frames != []
  {
    frames[|frames| - 1]
  }

  /** The child `c` that frame `d` holds for `n`. */
  ghost predicate NameBuilt(parents: Path -> map<Name, Entry>, fs: seq<Item>, d: Path, n: Name, open: bool, c: Option<Entry>) {
    if open || !Used(fs, d, n) then c == None
    else c.Some? && forall p: Path :: p != [] && p[0] == n ==> LeafIn(c, p) == BuiltAt(parents, fs, d, p)
  }

  ghost predicate Children(m: nat, es: seq<Entry>) {
    Plain(es) && Distinct(es) && SoundDirs(m, es)
  }

  predicate IsOpen(frames: seq<Frame>, k: nat, n: Name)
    requires Chain(frames)
  {
    k + 1 < |frames| && frames[k + 1].dir[k] == n
  }

  ghost predicate LevelBuilt(m: nat, parents: Path -> map<Name, Entry>, fs: seq<Item>, frames: seq<Frame>, k: nat)
    requires Chain(frames) && k < |frames|
  {
    var f := frames[k];
    && Children(m, f.children) && f.parent == parents(f.dir) && SoundParent(m, f.parent)
    && (forall n: Name :: NameBuilt(parents, fs, f.dir, n, IsOpen(frames, k, n), Child(f.children, n)))
  }

  /** Every open frame holds the files met so far below it, closed subdirectories included. */
  ghost predicate Built(m: nat, parents: Path -> map<Name, Entry>, fs: seq<Item>, frames: seq<Frame>) {
    Chain(frames) && forall k :: 0 <= k < |frames| ==> LevelBuilt(m, parents, fs, frames, k)
  }

  // ---- Folding in former children -------------------------------------------

  /** `_merge_parent_children`. */
  method MergeParentChildren(children: seq<Entry>, parent: map<Name, Entry>) returns (merged: seq<Entry>)
    requires NamedByKey(parent)
    ensures Plain(children) && Distinct(children) ==>
      && Plain(merged) && Distinct(merged)
      && (forall n: Name ::
            Child(merged, n) == if Child(children, n).Some? then Child(children, n) else Lookup(parent, n))
  {
    if parent == map[] {
      return children;
    }
    var extra: seq<Entry> := [];
    var names := parent.Keys;
    while names != {}
      invariant names <= parent.Keys
      invariant Extra(children, parent, parent.Keys - names, extra)
      decreases |names|
    {
      var n :| n in names;
      if forall e :: e in children ==> e.name != n {
        ExtraStep(children, parent, parent.Keys - names, extra, n);
        extra := extra + [parent[n]];
      } else {
        ExtraSkip(children, parent, parent.Keys - names, extra, n);
      }
      assert parent.Keys - (names - {n}) == parent.Keys - names + {n};
      names := names - {n};
    }
    assert parent.Keys - {} == parent.Keys;
    ExtraMerged(children, parent, extra);
    merged := SortByName(children + extra);
  }

  predicate Named(es: seq<Entry>, n: Name) {
    exists e :: e in es && e.name == n
  }

  /** The former children among `seen` that `children` does not name. */
  ghost predicate Extra(children: seq<Entry>, parent: map<Name, Entry>, seen: set<Name>, extra: seq<Entry>) {
    && Plain(extra) && Distinct(extra)
    && (forall n: Name ::
          Child(extra, n) == if n in seen && !Named(children, n) then Lookup(parent, n) else None)
  }

  lemma ExtraStep(children: seq<Entry>, parent: map<Name, Entry>, seen: set<Name>, extra: seq<Entry>, n: Name)
    requires NamedByKey(parent) && n in parent && n !in seen && !Named(children, n)
    requires Extra(children, parent, seen, extra)
    ensures Extra(children, parent, seen + {n}, extra + [parent[n]])
  {
    ChildNone(extra, n);
    forall k: Name
      ensures Child(extra + [parent[n]], k) == if k == n then Some(parent[n]) else Child(extra, k)
    {
      ChildSnoc(extra, parent[n], k);
    }
    hide Named;
  }

  lemma ExtraSkip(children: seq<Entry>, parent: map<Name, Entry>, seen: set<Name>, extra: seq<Entry>, n: Name)
    requires Named(children, n) && Extra(children, parent, seen, extra)
    ensures Extra(children, parent, seen + {n}, extra)
  {
    hide Named, Plain, Distinct;
  }

  lemma ExtraMerged(children: seq<Entry>, parent: map<Name, Entry>, extra: seq<Entry>)
    requires Extra(children, parent, parent.Keys, extra)
    ensures Plain(children) && Distinct(children) ==>
      var merged := SortByName(children + extra);
      && Plain(merged) && Distinct(merged)
      && (forall n: Name ::
            Child(merged, n) == if Child(children, n).Some? then Child(children, n) else Lookup(parent, n))
  {
    if Plain(children) && Distinct(children) {
      var all := children + extra;
      forall n: Name
        ensures Named(children, n) <==> Child(children, n).Some?
        ensures Child(all, n) == if Child(children, n).Some? then Child(children, n) else Lookup(parent, n)
      {
        ChildNone(children, n);
        ChildConcat(children, extra, n);
      }
      forall a, b | a in children && b in extra ensures a.name != b.name {
        ChildNone(extra, b.name);
        assert Named(children, a.name);
      }
      SortSpec(all);
      SortKeepsChildren(all);
      SortedIsDistinct(SortByName(all));
    }
  }

  // ---- Closing a frame ------------------------------------------------------

  function WithChild(frames: seq<Frame>, k: nat, e: Entry): seq<Frame>
    requires k < |frames|
  {
    frames[k := frames[k].(children := frames[k].children + [e])]
  }

  /** The children of a frame together with the former ones they leave. */
  ghost predicate MergedOf(f: Frame, merged: seq<Entry>) {
    && Plain(merged) && Distinct(merged)
    && (forall n: Name ::
          Child(merged, n) == if Child(f.children, n).Some? then Child(f.children, n) else Lookup(f.parent, n))
  }

  /** `_close_frame`: pops the innermost frame and attaches its subtree to the one above. */
  method CloseFrame(m: nat, frames: seq<Frame>) returns (r: Result<seq<Frame>>, ghost merged: seq<Entry>, ghost node: Node)
    requires 2 <= m && Chain(frames) && |frames| > 1
    ensures r.Success? ==>
      Chain(r.value) && |r.value| == |frames| - 1 && forall k :: 0 <= k < |r.value| ==> r.value[k].dir == frames[k].dir
    ensures Children(m, Top(frames).children) ==> MergedOf(Top(frames), merged)
    ensures merged == [] ==> r == Success(frames[..|frames| - 1])
    ensures merged != [] && Writable(merged) ==>
      && r == Success(WithChild(frames[..|frames| - 1], |frames| - 2, Dir(Top(frames).dir[|frames| - 2], node)))
      && Builds(m, SortByName(merged), node)
  {
    var top, low := Top(frames), frames[..|frames| - 1];
    node := Node([]);
    ShorterChain(frames);
    var all := MergeParentChildren(top.children, top.parent);
    merged := all;
    hide Builds, Writable;
    if all == [] {
      return Success(low), merged, node;
    }
    var built := BuildChildren(m, all);
    if built.Failure? {
      return Failure(built.error), merged, node;
    }
    node := built.value;
    return Success(WithChild(low, |low| - 1, Dir(top.dir[|top.dir| - 1], built.value))), merged, node;
  }

  lemma ShorterChain(frames: seq<Frame>)
    requires Chain(frames) && |frames| > 1
    ensures Chain(frames[..|frames| - 1])
  {
    var low := frames[..|frames| - 1];
    forall k | 0 <= k < |low| ensures low[k].dir <= Top(low).dir {
      assert low[k] == frames[k] && Top(low) == frames[|low| - 1];
      assert frames[k].dir == Top(frames).dir[..k];
    }
  }

  /** A frame without open subdirectories, its former children folded in, is built. */
  lemma MergedBuilt(m: nat, parents: Path -> map<Name, Entry>, fs: seq<Item>, f: Frame, merged: seq<Entry>)
    requires PrefixFree(fs) && [] !in PathsOf(fs) && Opened(fs, f.dir)
    requires Children(m, f.children) && f.parent == parents(f.dir) && SoundParent(m, f.parent)
    requires forall n: Name :: NameBuilt(parents, fs, f.dir, n, false, Child(f.children, n))
    requires MergedOf(f, merged)
    ensures Children(m, merged)
    ensures forall p: Path :: p != [] ==> LeafIn(Child(merged, p[0]), p) == BuiltAt(parents, fs, f.dir, p)
  {
    forall p: Path | p != []
      ensures LeafIn(Child(merged, p[0]), p) == BuiltAt(parents, fs, f.dir, p)
    {
      assert NameBuilt(parents, fs, f.dir, p[0], false, Child(f.children, p[0]));
      if !Used(fs, f.dir, p[0]) {
        NothingUsed(parents, fs, f.dir, p);
      }
    }
    SoundMerged(m, f, merged);
  }

  lemma SoundMerged(m: nat, f: Frame, merged: seq<Entry>)
    requires Children(m, f.children) && SoundParent(m, f.parent) && MergedOf(f, merged)
    ensures SoundDirs(m, merged)
  {
    forall e | e in merged && e.Dir? ensures Sound(m, e.child) {
      ChildOfPlain(merged, e.name, e);
      if Child(f.children, e.name).Some? {
        ChildNone(f.children, e.name);
      }
    }
  }

  lemma NothingRelated(fs: seq<Item>, d: Path, p: Path, q: Path)
    requires PrefixFree(fs) && [] !in PathsOf(fs) && Opened(fs, d)
    requires p != [] && !Used(fs, d, p[0]) && q in PathsOf(fs)
    ensures q != d + p && !(q < d + p) && !(d + p < q)
  {
    var e := d + [p[0]];
    assert e == (d + p)[..|e|];
    assert !(e <= q) && (q < d + p ==> q <= d);
  }

  /** Where no file is, the former child shows through. */
  lemma NothingUsed(parents: Path -> map<Name, Entry>, fs: seq<Item>, d: Path, p: Path)
    requires PrefixFree(fs) && [] !in PathsOf(fs) && Opened(fs, d)
    requires p != [] && !Used(fs, d, p[0])
    ensures BuiltAt(parents, fs, d, p) == LeafIn(Lookup(parents(d), p[0]), p)
  {
    BelowSpec(fs, d, d + p);
    forall q | q in PathsOf(fs) ensures q != d + p && !(q < d + p) && !(d + p < q) {
      NothingRelated(fs, d, p, q);
    }
    assert !Shadowed(fs, d + p) && AddedAt(fs, d + p) == None;
    assert !Opened(fs, d + [p[0]]);
    hide AddedAt, Shadowed, Opened, Used, PrefixFree, PathsOf;
  }

  /** Closing keeps the frames built. */
  lemma Closed(m: nat, parents: Path -> map<Name, Entry>, fs: seq<Item>, frames: seq<Frame>, merged: seq<Entry>)
    requires 2 <= m && Built(m, parents, fs, frames) && |frames| > 1
    requires PrefixFree(fs) && [] !in PathsOf(fs) && Opened(fs, Top(frames).dir)
    requires MergedOf(Top(frames), merged)
    ensures merged != [] && Writable(merged)
    ensures Children(m, merged)
    ensures forall p: Path :: p != [] ==>
      LeafIn(Child(merged, p[0]), p) == BuiltAt(parents, fs, Top(frames).dir, p)
  {
    var f := Top(frames);
    assert LevelBuilt(m, parents, fs, frames, |frames| - 1);
    hide Child, BuiltAt, LeafIn;
    MergedBuilt(m, parents, fs, f, merged);
    OpenedIsUsed(parents, fs, f);
    NoChildren();
    hide SoundDirs, MergedOf;
    SoundIsSearchable(m, merged);
    PlainIsWritable(merged);
  }

  lemma NoChildren()
    ensures forall n: Name :: Child([], n) == None
  {
  }

  /** An open directory with a file in it has a child. */
  lemma OpenedIsUsed(parents: Path -> map<Name, Entry>, fs: seq<Item>, f: Frame)
    requires Opened(fs, f.dir) && f.dir != []
    requires forall n: Name :: NameBuilt(parents, fs, f.dir, n, false, Child(f.children, n))
    ensures exists n: Name :: Child(f.children, n).Some?
  {
    var q :| q in PathsOf(fs) && f.dir < q;
    var n := q[|f.dir|];
    assert f.dir + [n] <= q;
    hide BuiltAt, LeafIn, Child;
    assert NameBuilt(parents, fs, f.dir, n, false, Child(f.children, n));
  }

  lemma SoundIsSearchable(m: nat, es: seq<Entry>)
    requires SoundDirs(m, es)
    ensures forall e :: e in es && e.Dir? ==> e.child.entries != [] && Searchable(e.child.entries)
  {
  }

  /** The closed subtree, attached under its name, is what was built below it. */
  lemma Attached(m: nat, parents: Path -> map<Name, Entry>, fs: seq<Item>, d: Path, n: Name, node: Node)
    requires Opened(fs, d + [n]) && PrefixFree(fs)
    requires forall p: Path :: p != [] ==> LeafAt(node.entries, p) == BuiltAt(parents, fs, d + [n], p)
    ensures NameBuilt(parents, fs, d, n, false, Some(Dir(n, node)))
  {
    var q :| q in PathsOf(fs) && d + [n] < q;
    var c := Some(Dir(n, node));
    forall p: Path | p != [] && p[0] == n ensures LeafIn(c, p) == BuiltAt(parents, fs, d, p) {
      if |p| == 1 {
        assert d + p == d + [n];
        BelowSpec(fs, d, d + p);
      } else {
        assert d + [n] + p[1..] == d + p;
        assert LeafAt(node.entries, p[1..]) == BuiltAt(parents, fs, d + [n], p[1..]);
      }
    }
  }

  lemma ClosedFrames(m: nat, parents: Path -> map<Name, Entry>, fs: seq<Item>, frames: seq<Frame>, merged: seq<Entry>, node: Node)
    requires 2 <= m && Built(m, parents, fs, frames) && |frames| > 1
    requires PrefixFree(fs) && [] !in PathsOf(fs) && Opened(fs, Top(frames).dir)
    requires MergedOf(Top(frames), merged) && merged != [] && Children(m, merged)
    requires forall p: Path :: p != [] ==>
      LeafIn(Child(merged, p[0]), p) == BuiltAt(parents, fs, Top(frames).dir, p)
    requires Builds(m, SortByName(merged), node)
    ensures var k := |frames| - 2;
      Built(m, parents, fs, WithChild(frames[..k + 1], k, Dir(Top(frames).dir[k], node)))
  {
    var k, d := |frames| - 2, Top(frames).dir;
    var n := d[k];
    PlainBuilt(m, merged, node);
    ShorterChain(frames);
    assert frames[k].dir + [n] == d;
    Attached(m, parents, fs, frames[k].dir, n, node);
    hide BuiltAt, Builds, MergedOf, LeafIn;
    assert LevelBuilt(m, parents, fs, frames, k);
    ClosedLevels(m, parents, fs, frames, Dir(n, node));
  }

  lemma ClosedLevels(m: nat, parents: Path -> map<Name, Entry>, fs: seq<Item>, frames: seq<Frame>, e: Entry)
    requires Built(m, parents, fs, frames) && |frames| > 1
    requires var k := |frames| - 2;
      e.Dir? && e.name == Top(frames).dir[k] && Sound(m, e.child) &&
      NameBuilt(parents, fs, frames[k].dir, e.name, false, Some(e))
    ensures var k := |frames| - 2; Built(m, parents, fs, WithChild(frames[..k + 1], k, e))
  {
    var k := |frames| - 2;
    var next := WithChild(frames[..k + 1], k, e);
    ShorterChain(frames);
    assert Chain(next);
    forall j | 0 <= j < |next| ensures LevelBuilt(m, parents, fs, next, j) {
      assert LevelBuilt(m, parents, fs, frames, j);
      if j == k {
        assert NameBuilt(parents, fs, frames[k].dir, e.name, true, Child(frames[k].children, e.name));
        assert Child(frames[k].children, e.name) == None;
        hide NameBuilt, Sound;
        AppendKept(m, frames[k].children, e);
      } else {
        assert next[j] == frames[j] && next[j + 1].dir == frames[j + 1].dir;
        hide NameBuilt;
      }
    }
  }

  /** The frames are built, and every open directory has a file in it. */
  ghost predicate Ready(m: nat, parents: Path -> map<Name, Entry>, fs: seq<Item>, frames: seq<Frame>) {
    && Built(m, parents, fs, frames) && Opened(fs, Top(frames).dir)
    && PrefixFree(fs) && [] !in PathsOf(fs)
  }

  lemma StillOpened(fs: seq<Item>, d: Path, k: nat)
    requires Opened(fs, d) && k <= |d|
    ensures Opened(fs, d[..k])
  {
    if d[..k] != [] {
      var q :| q in PathsOf(fs) && d < q;
      assert d[..k] < q;
    }
  }

  /** Closes one frame and keeps the others ready. */
  method CloseTop(m: nat, frames: seq<Frame>, ghost parents: Path -> map<Name, Entry>, ghost fs: seq<Item>)
    returns (r: Result<seq<Frame>>)
    requires 2 <= m && Chain(frames) && |frames| > 1
    ensures r.Success? ==>
      Chain(r.value) && |r.value| == |frames| - 1 && forall k :: 0 <= k < |r.value| ==> r.value[k].dir == frames[k].dir
    ensures Ready(m, parents, fs, frames) ==> r.Success? && Ready(m, parents, fs, r.value)
  {
    ghost var merged, node;
    r, merged, node := CloseFrame(m, frames);
    if Ready(m, parents, fs, frames) {
      assert LevelBuilt(m, parents, fs, frames, |frames| - 1);
      hide LevelBuilt, Children, MergedOf, Builds, Writable, BuiltAt, LeafIn;
      Closed(m, parents, fs, frames, merged);
      ClosedFrames(m, parents, fs, frames, merged, node);
      var d := Top(frames).dir;
      StillOpened(fs, d, |d| - 1);
      assert Top(r.value).dir == d[..|d| - 1];
    }
  }

  /** Closes frames until the innermost one contains `dir`. */
  method CloseUntil(m: nat, frames: seq<Frame>, dir: Path, ghost parents: Path -> map<Name, Entry>, ghost fs: seq<Item>)
    returns (r: Result<seq<Frame>>)
    requires 2 <= m && Chain(frames)
    ensures r.Success? ==>
      && Chain(r.value) && |r.value| <= |frames| && Top(r.value).dir <= dir
      && (forall k :: 0 <= k < |r.value| ==> r.value[k].dir == frames[k].dir)
      && (|r.value| < |frames| ==> !(frames[|r.value|].dir <= dir))
    ensures Ready(m, parents, fs, frames) ==> r.Success? && Ready(m, parents, fs, r.value)
  {
    hide Ready;
    var stack := frames;
    while |stack| > 1 && !(Top(stack).dir <= dir)
      invariant Chain(stack) && |stack| <= |frames|
      invariant forall k :: 0 <= k < |stack| ==> stack[k].dir == frames[k].dir
      invariant |stack| < |frames| ==> !(frames[|stack|].dir <= dir)
      invariant Ready(m, parents, fs, frames) ==> Ready(m, parents, fs, stack)
      decreases |stack|
    {
      stack :- CloseTop(m, stack, parents, fs);
    }
    return Success(stack);
  }

  // ---- Opening a frame ------------------------------------------------------

  /** A new innermost frame, for a directory no file was met in so far. */
  lemma OpenedFrame(m: nat, parents: Path -> map<Name, Entry>, fs: seq<Item>, frames: seq<Frame>, f: Frame)
    requires Built(m, parents, fs, frames)
    requires |f.dir| == |frames| && Top(frames).dir <= f.dir
    requires f.children == [] && f.parent == parents(f.dir) && SoundParent(m, f.parent)
    requires forall q :: q in PathsOf(fs) ==> !(f.dir <= q)
    ensures Built(m, parents, fs, frames + [f])
  {
    var next := frames + [f];
    LongerChain(frames, f);
    forall k | 0 <= k < |next| ensures LevelBuilt(m, parents, fs, next, k) {
      if k < |frames| {
        assert LevelBuilt(m, parents, fs, frames, k);
        assert next[k] == frames[k];
        if k + 1 < |frames| {
          assert next[k + 1] == frames[k + 1];
        } else {
          assert frames[k].dir + [f.dir[k]] == f.dir;
        }
      } else {
        assert forall n: Name :: !Used(fs, f.dir, n);
      }
      hide BuiltAt, LeafIn;
    }
  }

  lemma LongerChain(frames: seq<Frame>, f: Frame)
    requires Chain(frames) && |f.dir| == |frames| && Top(frames).dir <= f.dir && NamedByKey(f.parent)
    ensures Chain(frames + [f])
  {
    var next := frames + [f];
    forall k | 0 <= k < |next| ensures |next[k].dir| == k && next[k].dir <= f.dir {
      assert k < |frames| ==> next[k] == frames[k] && frames[k].dir <= Top(frames).dir;
    }
  }

  // ---- Adding a file --------------------------------------------------------

  /** A file added to the frame of its own directory. */
  lemma FileAdded(m: nat, parents: Path -> map<Name, Entry>, fs: seq<Item>, a: Item, frames: seq<Frame>, k: nat)
    requires Built(m, parents, fs, frames) && k < |frames|
    requires PrefixFree(fs + [a]) && a.path !in PathsOf(fs)
    requires |a.path| == k + 1 && frames[k].dir < a.path
    requires forall j :: 0 <= j < |frames| ==> !(a.path <= frames[j].dir)
    ensures Built(m, parents, fs + [a], WithChild(frames, k, File(a.path[k], a.leaf)))
  {
    var e := File(a.path[k], a.leaf);
    var next := WithChild(frames, k, e);
    assert forall j :: 0 <= j < |frames| ==> next[j].dir == frames[j].dir && next[j].parent == frames[j].parent;
    assert Chain(next);
    forall j | 0 <= j < |next| ensures LevelBuilt(m, parents, fs + [a], next, j) {
      if j == k {
        OwnLevel(m, parents, fs, a, frames, k);
      } else {
        OtherLevel(m, parents, fs, a, frames, j, k);
        assert next[j] == frames[j];
      }
    }
  }

  lemma NameStays(parents: Path -> map<Name, Entry>, fs: seq<Item>, a: Item, d: Path, n: Name, open: bool, c: Option<Entry>)
    requires NameBuilt(parents, fs, d, n, open, c)
    requires open || (!(d + [n] <= a.path) && !(a.path <= d))
    ensures NameBuilt(parents, fs + [a], d, n, open, c)
  {
    if !open {
      UnusedStays(fs, a, d, n);
      forall p: Path | p != [] && p[0] == n
        ensures BuiltAt(parents, fs + [a], d, p) == BuiltAt(parents, fs, d, p)
      {
        BuiltStays(parents, fs, a, d, p);
      }
      hide BuiltAt, LeafIn, Used;
    }
  }

  lemma OtherLevel(m: nat, parents: Path -> map<Name, Entry>, fs: seq<Item>, a: Item, frames: seq<Frame>, j: nat, k: nat)
    requires Built(m, parents, fs, frames) && j < |frames| && k < |frames| && j != k
    requires |a.path| == k + 1 && frames[k].dir < a.path && !(a.path <= frames[j].dir)
    ensures Children(m, frames[j].children) && frames[j].parent == parents(frames[j].dir) && SoundParent(m, frames[j].parent)
    ensures forall n: Name ::
      NameBuilt(parents, fs + [a], frames[j].dir, n, IsOpen(frames, j, n), Child(frames[j].children, n))
  {
    var d := frames[j].dir;
    assert LevelBuilt(m, parents, fs, frames, j);
    forall n: Name
      ensures NameBuilt(parents, fs + [a], d, n, IsOpen(frames, j, n), Child(frames[j].children, n))
    {
      if d + [n] <= a.path {
        assert j < k;
        assert frames[j + 1].dir <= Top(frames).dir && frames[k].dir <= Top(frames).dir;
        assert frames[k].dir[j] == a.path[j] == (d + [n])[j];
        assert frames[j + 1].dir[j] == Top(frames).dir[j] == frames[k].dir[j];
      }
      NameStays(parents, fs, a, d, n, IsOpen(frames, j, n), Child(frames[j].children, n));
    }
  }

  lemma OwnLevel(m: nat, parents: Path -> map<Name, Entry>, fs: seq<Item>, a: Item, frames: seq<Frame>, k: nat)
    requires Built(m, parents, fs, frames) && k < |frames|
    requires PrefixFree(fs + [a]) && a.path !in PathsOf(fs)
    requires |a.path| == k + 1 && frames[k].dir < a.path
    requires forall j :: 0 <= j < |frames| ==> !(a.path <= frames[j].dir)
    ensures Chain(WithChild(frames, k, File(a.path[k], a.leaf)))
    ensures LevelBuilt(m, parents, fs + [a], WithChild(frames, k, File(a.path[k], a.leaf)), k)
  {
    var d, n := frames[k].dir, a.path[k];
    var e := File(n, a.leaf);
    var next := WithChild(frames, k, e);
    assert forall j :: 0 <= j < |frames| ==> next[j].dir == frames[j].dir && next[j].parent == frames[j].parent;
    assert Chain(next);
    assert LevelBuilt(m, parents, fs, frames, k);
    assert a.path == d + [n];
    NewFile(parents, fs, a, d, n);
    assert NameBuilt(parents, fs, d, n, IsOpen(frames, k, n), Child(frames[k].children, n));
    assert Child(frames[k].children, n) == None;
    assert !IsOpen(frames, k, n) by {
      assert k + 1 < |frames| ==> frames[k + 1].dir[..k] == d;
    }
    AppendKept(m, frames[k].children, e);
    forall x: Name
      ensures NameBuilt(parents, fs + [a], d, x, IsOpen(next, k, x), Child(next[k].children, x))
    {
      assert IsOpen(next, k, x) == IsOpen(frames, k, x);
      if x != n {
        NameStays(parents, fs, a, d, x, IsOpen(frames, k, x), Child(frames[k].children, x));
      }
    }
  }

  lemma NewFile(parents: Path -> map<Name, Entry>, fs: seq<Item>, a: Item, d: Path, n: Name)
    requires PrefixFree(fs + [a]) && a.path !in PathsOf(fs) && a.path == d + [n]
    ensures !Used(fs, d, n)
    ensures NameBuilt(parents, fs + [a], d, n, false, Some(File(n, a.leaf)))
  {
    PathsOfSnoc(fs, a);
    var c := Some(File(n, a.leaf));
    forall p: Path | p != [] && p[0] == n ensures LeafIn(c, p) == BuiltAt(parents, fs + [a], d, p) {
      AddedAtSnoc(fs, a, d + p);
      if |p| == 1 {
        assert d + p == a.path;
      } else {
        assert a.path < d + p;
        BelowSpec(fs + [a], d, d + p);
      }
    }
    assert a.path in PathsOf(fs + [a]);
    forall q | q in PathsOf(fs) ensures !(d + [n] <= q) {
      assert !(a.path < q) && q != a.path;
      assert |q| == |a.path| && a.path <= q ==> q == a.path;
    }
  }

  // ---- The end of the stream ------------------------------------------------

  /** What every finished build is: fit for lookups, and well formed as long as no
      directory outgrows `m * m` children. */
  ghost predicate Finished(m: nat, es: seq<Entry>) {
    Searchable(es) && (Fits(m, es) ==> WellFormed(m, es))
  }

  /** Closes every frame and writes the root. */
  method Finish(m: nat, frames: seq<Frame>, ghost parents: Path -> map<Name, Entry>, ghost fs: seq<Item>)
    returns (r: Result<Node>)
    requires 2 <= m && Chain(frames)
    ensures Ready(m, parents, fs, frames) ==>
      && r.Success? && Finished(m, r.value.entries)
      && forall p: Path :: p != [] ==> LeafAt(r.value.entries, p) == BuiltAt(parents, fs, [], p)
  {
    hide Ready;
    var stack := frames;
    while |stack| > 1
      invariant Chain(stack)
      invariant Ready(m, parents, fs, frames) ==> Ready(m, parents, fs, stack)
      decreases |stack|
    {
      stack :- CloseTop(m, stack, parents, fs);
    }
    r := FinishRoot(m, stack, parents, fs);
  }

  method FinishRoot(m: nat, frames: seq<Frame>, ghost parents: Path -> map<Name, Entry>, ghost fs: seq<Item>)
    returns (r: Result<Node>)
    requires 2 <= m && Chain(frames) && |frames| == 1
    ensures Ready(m, parents, fs, frames) ==>
      && r.Success? && Finished(m, r.value.entries)
      && forall p: Path :: p != [] ==> LeafAt(r.value.entries, p) == BuiltAt(parents, fs, [], p)
  {
    var root := frames[0];
    var merged := MergeParentChildren(root.children, root.parent);
    if Ready(m, parents, fs, frames) {
      RootBuilt(m, parents, fs, frames, merged);
    }
    hide BuiltAt, Ready, Builds, LeafIn;
    if merged == [] {
      r := WriteNode([]);
    } else {
      r := BuildChildren(m, merged);
      if Ready(m, parents, fs, frames) {
        PlainBuilt(m, merged, r.value);
      }
    }
  }

  lemma RootBuilt(m: nat, parents: Path -> map<Name, Entry>, fs: seq<Item>, frames: seq<Frame>, merged: seq<Entry>)
    requires 2 <= m && |frames| == 1 && Ready(m, parents, fs, frames)
    requires Children(m, frames[0].children) ==> MergedOf(frames[0], merged)
    ensures Writable(merged) && Children(m, merged)
    ensures forall p: Path :: p != [] ==> LeafIn(Child(merged, p[0]), p) == BuiltAt(parents, fs, [], p)
  {
    assert LevelBuilt(m, parents, fs, frames, 0);
    hide BuiltAt, LeafIn, Child, MergedOf;
    MergedBuilt(m, parents, fs, frames[0], merged);
    hide SoundDirs;
    SoundIsSearchable(m, merged);
    PlainIsWritable(merged);
  }

  // ---- Reading a stream -----------------------------------------------------

  /** The innermost frame is the directory of the last file, unless that is the root. */
  ghost predicate LastDir(fs: seq<Item>, frames: seq<Frame>)
    requires Chain(frames)
  {
    fs != [] && |fs[|fs| - 1].path| > 1 ==>
      Top(frames).dir == fs[|fs| - 1].path[..|fs[|fs| - 1].path| - 1]
  }

  /** The first `i` files of a stream are in the frames. */
  ghost predicate Reading(m: nat, parents: Path -> map<Name, Entry>, all: seq<Item>, i: nat, frames: seq<Frame>) {
    Stream(all) && i <= |all| && Ready(m, parents, all[..i], frames) && LastDir(all[..i], frames)
  }

  lemma PrefixFreeTake(all: seq<Item>, k: nat)
    requires PrefixFree(all) && k <= |all|
    ensures PrefixFree(all[..k])
    ensures forall q :: q in PathsOf(all[..k]) ==> q in PathsOf(all)
  {
    PathsOfPrefix(all, k);
    forall q | q in PathsOf(all[..k]) ensures q in PathsOf(all) {
      var j :| 0 <= j < k && all[j].path == q;
      assert all[j] in all;
    }
  }

  lemma StreamPrefix(all: seq<Item>, i: nat)
    requires Stream(all) && i < |all|
    ensures all[..i + 1] == all[..i] + [all[i]]
    ensures PrefixFree(all[..i]) && PrefixFree(all[..i + 1])
    ensures all[i].path !in PathsOf(all[..i]) && [] !in PathsOf(all[..i + 1])
  {
    PrefixFreeTake(all, i);
    PrefixFreeTake(all, i + 1);
    PathsOfPrefix(all, i);
    PathsOfPrefix(all, i + 1);
    hide PrefixFree;
  }

  /** A directory the frames do not have open holds none of the files read. */
  lemma NewDirectory(all: seq<Item>, i: nat, before: seq<Frame>, after: seq<Frame>, dir: Path, k: nat)
    requires Stream(all) && i < |all| && dir < all[i].path
    requires Chain(before) && LastDir(all[..i], before)
    requires Chain(after) && |after| <= |before| && forall j :: 0 <= j < |after| ==> after[j].dir == before[j].dir
    requires |after| < |before| ==> !(before[|after|].dir <= dir)
    requires |after| <= k <= |dir|
    ensures forall q :: q in PathsOf(all[..i]) ==> !(dir[..k] <= q)
  {
    var d := dir[..k];
    NotInside(before, after, dir, k);
    PathsOfPrefix(all, i);
    assert 0 < i ==> all[..i][i - 1] == all[i - 1];
    forall j | 0 <= j < i ensures !(d <= all[j].path) {
      if d <= all[j].path {
        SharedDirectory(all, i, j, d);
      }
    }
  }

  /** A directory shared with the next file is shared with the last one read. */
  lemma SharedDirectory(all: seq<Item>, i: nat, j: nat, d: Path)
    requires Stream(all) && j < i < |all| && d <= all[j].path && d < all[i].path
    ensures |all[i - 1].path| > |d| && d <= all[i - 1].path[..|all[i - 1].path| - 1]
  {
    assert all[i] in all && all[j] in all;
    assert all[i].path in PathsOf(all) && all[j].path in PathsOf(all);
    assert !(all[j].path < all[i].path);
    assert Under(d, all[j].path) && Under(d, all[i].path);
    assert j < i - 1 ==> Under(d, all[i - 1].path);
  }

  lemma NotInside(before: seq<Frame>, after: seq<Frame>, dir: Path, k: nat)
    requires Chain(before) && Chain(after) && |after| <= |before|
    requires |after| < |before| ==> !(before[|after|].dir <= dir)
    requires |after| <= k <= |dir|
    ensures !(dir[..k] <= Top(before).dir)
  {
  }

  /** A file read into the frame of its own directory. */
  lemma FileRead(m: nat, parents: Path -> map<Name, Entry>, all: seq<Item>, i: nat, frames: seq<Frame>)
    requires Stream(all) && i < |all|
    requires Built(m, parents, all[..i], frames)
    requires Top(frames).dir < all[i].path && |all[i].path| == |frames|
    ensures Reading(m, parents, all, i + 1,
              WithChild(frames, |frames| - 1, File(all[i].path[|frames| - 1], all[i].leaf)))
  {
    var a := all[i];
    StreamPrefix(all, i);
    PathsOfSnoc(all[..i], a);
    var next := WithChild(frames, |frames| - 1, File(a.path[|frames| - 1], a.leaf));
    hide PrefixFree, Grouped;
    assert forall j :: 0 <= j < |frames| ==> !(a.path <= frames[j].dir);
    FileAdded(m, parents, all[..i], a, frames, |frames| - 1);
    assert Top(next).dir == Top(frames).dir;
    hide LevelBuilt;
  }

  /** A file of the root read while subdirectories are open. */
  lemma RootFileRead(m: nat, parents: Path -> map<Name, Entry>, all: seq<Item>, i: nat, frames: seq<Frame>)
    requires i < |all| && Reading(m, parents, all, i, frames) && |all[i].path| == 1
    ensures Reading(m, parents, all, i + 1, WithChild(frames, 0, File(all[i].path[0], all[i].leaf)))
  {
    var a := all[i];
    StreamPrefix(all, i);
    PathsOfSnoc(all[..i], a);
    assert frames[0].dir == [];
    var next := WithChild(frames, 0, File(a.path[0], a.leaf));
    forall j | 0 <= j < |frames| ensures !(a.path <= frames[j].dir) {
      assert a.path in PathsOf(all[..i + 1]);
    }
    FileAdded(m, parents, all[..i], a, frames, 0);
    assert Top(next).dir == Top(frames).dir;
    hide LevelBuilt, Grouped, PrefixFree;
  }
}
