/** Full commits: a worktree walk merged with the parent tree and the staged changes. */
module Worktree {
  import opened Paths
  import opened Trees
  import opened Builder
  import opened Splice
  import opened Frames
  import opened Sets
  import Shards
  import Query
  import Prune
  import Reach
  import Rebuild

  // ---- Materializing one file -----------------------------------------------

  /** How a commit identifies files. */
  datatype Settings = Settings(contentMode: bool, trustMtime: bool, captureFooters: bool)

  /** A file of the worktree; `footer` is what capturing its footer would store, if anything. */
  datatype WorkFile = WorkFile(path: Path, content: string, size: nat, mtime: nat, uri: string, footer: Option<Hash>)

  /** `_can_reuse_without_hash`. */
  predicate Trusted(s: Settings, f: WorkFile, known: Leaf) {
    s.trustMtime && ContentKind(known.kind) && known.size == f.size && known.mtime == f.mtime
  }

  /** The parent's leaf already identifies the file. */
  predicate Reusable(s: Settings, f: WorkFile, known: Leaf) {
    if s.contentMode then
      ContentKind(known.kind) &&
      (Trusted(s, f, known) || (known.size == f.size && known.hash == OfBytes(f.content)))
    else
      !ContentKind(known.kind) && known.hash == OfPathAndSize(f.path, f.size)
  }

  function Captured(s: Settings, f: WorkFile): Option<Hash> {
    if s.captureFooters then f.footer else None
  }

  /** `_reuse_or_backfill_footer`. */
  function Reused(s: Settings, f: WorkFile, known: Leaf): Leaf {
    if known.footer.Some? || Captured(s, f).None? then known
    else Leaf(if known.kind == Blob then BlobParquet else MetaParquet, known.hash, known.size, known.mtime,
              if s.contentMode then None else Some(f.uri), Captured(s, f), None)
  }

  /** `_materialize_worktree_file`: the leaf of a file, given the child the parent has there. */
  function Materialize(s: Settings, f: WorkFile, before: Option<Entry>): Leaf {
    if before.Some? && before.value.File? && Reusable(s, f, before.value.leaf) then
      Reused(s, f, before.value.leaf)
    else if s.contentMode then
      Leaf(if Captured(s, f).Some? then BlobParquet else Blob, OfBytes(f.content), f.size, f.mtime,
           None, Captured(s, f), None)
    else
      Leaf(if Captured(s, f).Some? then MetaParquet else Meta, OfPathAndSize(f.path, f.size), f.size, f.mtime,
           Some(f.uri), Captured(s, f), None)
  }

  /** Footers go with the parquet kinds, pointers with a source. */
  predicate ValidLeaf(l: Leaf) {
    && ((l.kind == BlobParquet || l.kind == MetaParquet) <==> l.footer.Some?)
    && (ContentKind(l.kind) <==> l.sourceUri.None?)
    && (l.sourceEtag.Some? ==> !ContentKind(l.kind))
  }

  /** A committed file carries its own identity: in content mode its content's digest and
      size, unless mtimes are trusted and a content leaf of the same size and mtime was there;
      in pointer mode its path and size.  Committing it again changes nothing. */
  lemma MaterializedIdentity(s: Settings, f: WorkFile, before: Option<Entry>)
    requires before.Some? && before.value.File? ==> ValidLeaf(before.value.leaf)
    ensures var l := Materialize(s, f, before);
      && ValidLeaf(l)
      && (l.kind == Blob || l.kind == BlobParquet <==> s.contentMode)
      && (s.contentMode && !(s.trustMtime && before.Some? && before.value.File? &&
                             (before.value.leaf.kind == Blob || before.value.leaf.kind == BlobParquet) &&
                             before.value.leaf.size == f.size && before.value.leaf.mtime == f.mtime) ==>
            l.hash == OfBytes(f.content) && l.size == f.size)
      && (!s.contentMode ==> l.hash == OfPathAndSize(f.path, f.size))
      && Materialize(s, f, Some(File("x", l))) == l
  {
  }

  /** The fields of a committed file.  A leaf that identifies the file is kept, at most with
      a footer captured now; any other is made from the file alone. */
  lemma MaterializedFields(s: Settings, f: WorkFile, before: Option<Entry>)
    ensures var l := Materialize(s, f, before);
      var captured := if s.captureFooters then f.footer else None;
      if before.Some? && before.value.File? && (
           var k := before.value.leaf;
           if s.contentMode then
             (k.kind == Blob || k.kind == BlobParquet) && k.size == f.size &&
             ((s.trustMtime && k.mtime == f.mtime) || k.hash == OfBytes(f.content))
           else (k.kind == Meta || k.kind == MetaParquet) && k.hash == OfPathAndSize(f.path, f.size))
      then
        var k := before.value.leaf;
        && l.hash == k.hash && l.size == k.size && l.mtime == k.mtime
        && (if k.footer.Some? || captured.None? then l == k
            else
              && l.footer == captured && l.sourceEtag.None?
              && l.kind == (if k.kind == Blob then BlobParquet else MetaParquet)
              && l.sourceUri == if s.contentMode then None else Some(f.uri))
      else
        && l.size == f.size && l.mtime == f.mtime && l.footer == captured && l.sourceEtag.None?
        && (s.contentMode ==> l.hash == OfBytes(f.content) && l.sourceUri.None?)
        && (!s.contentMode ==> l.hash == OfPathAndSize(f.path, f.size) && l.sourceUri == Some(f.uri))
        && (l.kind == Blob <==> s.contentMode && captured.None?)
        && (l.kind == BlobParquet <==> s.contentMode && captured.Some?)
        && (l.kind == Meta <==> !s.contentMode && captured.None?)
  {
  }

  // ---- The children a directory had before ----------------------------------

  ghost function DirEntries(parent: Option<Node>, d: Path): seq<Entry> {
    if parent.Some? && DirAt(parent.value.entries, d).Some? then DirAt(parent.value.entries, d).value.entries else []
  }

  /** The former child `n` of `d`: a staged addition, or else the parent's child. */
  ghost function FormerChild(parent: Option<Node>, adds: seq<Item>, d: Path, n: Name): Option<Entry> {
    if AddedAt(adds, d + [n]).Some? then Some(File(n, AddedAt(adds, d + [n]).value))
    else Child(DirEntries(parent, d), n)
  }

  ghost function CandidateNames(parent: Option<Node>, adds: seq<Item>, d: Path): set<Name> {
    (set e | e in Shards.Expand(DirEntries(parent, d)) :: e.name) +
    (set a | a in adds && a.path != [] :: a.path[|a.path| - 1])
  }

  ghost function FormerChildren(parent: Option<Node>, adds: seq<Item>, d: Path): map<Name, Entry> {
    map n: Name | n in CandidateNames(parent, adds, d) && FormerChild(parent, adds, d, n).Some? ::
      FormerChild(parent, adds, d, n).value
  }

  ghost function Former(parent: Option<Node>, adds: seq<Item>): Path -> map<Name, Entry> {
    (d: Path) => FormerChildren(parent, adds, d)
  }

  ghost predicate PublishedParent(m: nat, parent: Option<Node>) {
    parent.Some? ==> WellFormed(m, parent.value.entries)
  }

  lemma {:induction false} DirWellFormed(m: nat, es: seq<Entry>, d: Path)
    requires WellFormed(m, es) && DirAt(es, d).Some?
    ensures WellFormed(m, DirAt(es, d).value.entries)
    decreases |d|
  {
    if d != [] {
      Query.DirIsPublished(m, es, d[0]);
      DirWellFormed(m, Child(es, d[0]).value.child.entries, d[1..]);
    }
  }

  lemma FormerLookup(m: nat, parent: Option<Node>, adds: seq<Item>, d: Path, n: Name)
    requires PublishedParent(m, parent)
    ensures Lookup(FormerChildren(parent, adds, d), n) == FormerChild(parent, adds, d, n)
  {
    var es := DirEntries(parent, d);
    if es != [] {
      DirWellFormed(m, parent.value.entries, d);
      Shards.ExpandWellFormed(m, es);
    }
    ChildNone(Shards.Expand(es), n);
    Shards.ExpandChild(es, n);
    if AddedAt(adds, d + [n]).Some? {
      Rebuild.AddedIsMember(adds, d + [n]);
      var a := Item(d + [n], AddedAt(adds, d + [n]).value);
      assert a in adds && a.path[|a.path| - 1] == n;
    }
    hide Child, AddedAt, DirAt;
  }

  lemma FormerIsSound(m: nat, parent: Option<Node>, adds: seq<Item>, d: Path)
    requires PublishedParent(m, parent)
    ensures SoundParent(m, FormerChildren(parent, adds, d))
  {
    var es := DirEntries(parent, d);
    var fc := FormerChildren(parent, adds, d);
    forall n | n in fc
      ensures fc[n].name == n && !fc[n].Shard? && (fc[n].Dir? ==> Sound(m, fc[n].child))
    {
      FormerLookup(m, parent, adds, d, n);
      if fc[n].Dir? {
        DirWellFormed(m, parent.value.entries, d);
        Query.DirIsPublished(m, es, n);
        WellFormedIsSearchable(m, fc[n].child.entries);
      }
    }
  }

  // ---- Staged additions by directory ----------------------------------------

  type ByDir = map<Path, map<Name, Leaf>>

  ghost predicate HasAdditions(adds: seq<Item>, d: Path) {
    exists n: Name :: AddedAt(adds, d + [n]).Some?
  }

  function LeafOf(group: map<Name, Leaf>, n: Name): Option<Leaf> {
    if n in group then Some(group[n]) else None
  }

  /** `byDir` holds the additions of all directories but those `taken`. */
  ghost predicate Waiting(adds: seq<Item>, byDir: ByDir, taken: set<Path>) {
    && (forall d: Path :: d in byDir <==> d !in taken && HasAdditions(adds, d))
    && (forall d: Path, n: Name :: d in byDir ==> LeafOf(byDir[d], n) == AddedAt(adds, d + [n]))
  }

  lemma NextAddition(adds: seq<Item>, a: Item, d: Path, n: Name)
    requires a.path == d + [n]
    ensures forall e: Path, k: Name ::
      AddedAt(adds + [a], e + [k]) == if e == d && k == n then Some(a.leaf) else AddedAt(adds, e + [k])
    ensures forall e: Path :: HasAdditions(adds + [a], e) <==> e == d || HasAdditions(adds, e)
  {
    forall e: Path, k: Name
      ensures AddedAt(adds + [a], e + [k]) == if e == d && k == n then Some(a.leaf) else AddedAt(adds, e + [k])
    {
      AddedAtSnoc(adds, a, e + [k]);
      SameParent(d, n, e, k);
    }
    hide AddedAt;
    forall e: Path
      ensures HasAdditions(adds + [a], e) <==> e == d || HasAdditions(adds, e)
    {
      if HasAdditions(adds, e) {
        var k: Name :| AddedAt(adds, e + [k]).Some?;
        assert AddedAt(adds + [a], e + [k]).Some?;
      }
      assert AddedAt(adds + [a], d + [n]).Some?;
    }
  }

  lemma SameParent(d: Path, n: Name, e: Path, k: Name)
    ensures d + [n] == e + [k] <==> d == e && n == k
  {
    assert (d + [n])[..|d|] == d && (e + [k])[..|e|] == e;
    if d + [n] == e + [k] {
      assert |d| == |e|;
    }
  }

  lemma WaitingStep(adds: seq<Item>, a: Item, byDir: ByDir, d: Path, n: Name)
    requires Waiting(adds, byDir, {}) && a.path == d + [n]
    ensures Waiting(adds + [a], byDir[d := (if d in byDir then byDir[d] else map[])[n := a.leaf]], {})
  {
    NextAddition(adds, a, d, n);
    NoGroup(adds, byDir, d);
    hide AddedAt, HasAdditions;
  }

  lemma NoGroup(adds: seq<Item>, byDir: ByDir, d: Path)
    requires Waiting(adds, byDir, {})
    ensures d !in byDir ==> forall n: Name :: AddedAt(adds, d + [n]) == None
  {
    hide AddedAt;
  }

  /** `additions_by_dir`. */
  method GroupByDir(adds: seq<Item>) returns (byDir: ByDir)
    requires forall a :: a in adds ==> a.path != []
    ensures Waiting(adds, byDir, {})
  {
    byDir := map[];
    assert adds[..0] == [];
    for i := 0 to |adds|
      invariant Waiting(adds[..i], byDir, {})
    {
      hide Waiting;
      var a := adds[i];
      assert adds[..i + 1] == adds[..i] + [a];
      var d, n := a.path[..|a.path| - 1], a.path[|a.path| - 1];
      WaitingStep(adds[..i], a, byDir, d, n);
      byDir := byDir[d := (if d in byDir then byDir[d] else map[])[n := a.leaf]];
    }
    assert adds[..|adds|] == adds;
  }

  /** `merged.update(additions)`. */
  function Overlaid(merged: map<Name, Entry>, group: map<Name, Leaf>): map<Name, Entry> {
    map n: Name | n in merged.Keys + group.Keys :: if n in group then File(n, group[n]) else merged[n]
  }

  /** `parent_children`: the former children of `dir`, its additions no longer waiting. */
  method ParentChildren(m: nat, parent: Option<Node>, byDir: ByDir, dir: Path, ghost adds: seq<Item>, ghost taken: set<Path>)
    returns (merged: map<Name, Entry>, rest: ByDir, known: set<Node>)
    requires PublishedParent(m, parent) && Waiting(adds, byDir, taken) && dir !in taken
    ensures known == if parent.Some? then Reach.KnownAt(parent.value, dir) else {}
    ensures merged == FormerChildren(parent, adds, dir) && SoundParent(m, merged)
    ensures Waiting(adds, rest, taken + {dir})
  {
    FormerIsSound(m, parent, adds, dir);
    TakeGroup(adds, byDir, taken, dir);
    hide Waiting, SoundParent, HasAdditions, WellFormed;
    merged, known := map[], {};
    if parent.Some? {
      var resolved := Query.ResolveDirectory(m, parent.value, dir);
      if resolved.Some? {
        known := {resolved.value.0} + Reach.SubtreesHere(resolved.value.0.entries);
        merged := ByName(m, resolved.value.0.entries, resolved.value.1);
      }
    }
    var group := if dir in byDir then byDir[dir] else map[];
    OverlaidIsFormer(m, parent, adds, dir, merged, group);
    merged, rest := Overlaid(merged, group), byDir - {dir};
  }

  lemma TakeGroup(adds: seq<Item>, byDir: ByDir, taken: set<Path>, dir: Path)
    requires Waiting(adds, byDir, taken) && dir !in taken
    ensures Waiting(adds, byDir - {dir}, taken + {dir})
    ensures var group := if dir in byDir then byDir[dir] else map[];
      forall n: Name :: LeafOf(group, n) == AddedAt(adds, dir + [n])
  {
    hide AddedAt;
  }

  lemma OverlaidIsFormer(m: nat, parent: Option<Node>, adds: seq<Item>, dir: Path, merged: map<Name, Entry>, group: map<Name, Leaf>)
    requires PublishedParent(m, parent)
    requires forall n: Name :: Lookup(merged, n) == Child(DirEntries(parent, dir), n)
    requires forall n: Name :: LeafOf(group, n) == AddedAt(adds, dir + [n])
    ensures Overlaid(merged, group) == FormerChildren(parent, adds, dir)
  {
    forall n: Name
      ensures Lookup(Overlaid(merged, group), n) == Lookup(FormerChildren(parent, adds, dir), n)
    {
      FormerLookup(m, parent, adds, dir, n);
      hide Child, AddedAt, WellFormed, FormerChildren;
      assert Lookup(merged, n) == Child(DirEntries(parent, dir), n);
      assert LeafOf(group, n) == AddedAt(adds, dir + [n]);
    }
    SameLookup(Overlaid(merged, group), FormerChildren(parent, adds, dir));
  }

  lemma SameLookup(a: map<Name, Entry>, b: map<Name, Entry>)
    requires forall n: Name :: Lookup(a, n) == Lookup(b, n)
    ensures a == b
  {
    forall n: Name ensures n in a <==> n in b {
      assert Lookup(a, n) == Lookup(b, n);
    }
    forall n | n in a ensures a[n] == b[n] {
      assert Lookup(a, n) == Lookup(b, n);
    }
  }

  /** The expanded children of a directory, keyed by name. */
  method ByName(m: nat, ghost es: seq<Entry>, listed: seq<Entry>) returns (r: map<Name, Entry>)
    requires WellFormed(m, es) && listed == Shards.Expand(es)
    ensures forall n: Name :: Lookup(r, n) == Child(es, n)
  {
    Shards.ExpandWellFormed(m, es);
    SortedIsDistinct(listed);
    assert Plain(listed) && Distinct(listed);
    hide WellFormed, Searchable, Shards.Expand;
    r := map[];
    assert listed[..0] == [];
    for i := 0 to |listed|
      invariant forall n: Name :: Lookup(r, n) == Child(listed[..i], n)
    {
      assert listed[..i + 1] == listed[..i] + [listed[i]];
      NextByName(listed, i);
      r := r[listed[i].name := listed[i]];
    }
    assert listed[..|listed|] == listed;
  }

  lemma NextByName(es: seq<Entry>, i: nat)
    requires Plain(es) && Distinct(es) && i < |es|
    ensures forall n: Name :: Child(es[..i] + [es[i]], n) == if n == es[i].name then Some(es[i]) else Child(es[..i], n)
  {
    assert es[i] in es;
    ChildNone(es[..i], es[i].name);
    forall n: Name { ChildSnoc(es[..i], es[i], n); }
  }

  // ---- Walking the worktree -------------------------------------------------

  function ParentDir(p: Path): Path
    requires p != []
  {
    p[..|p| - 1]
  }

  function BaseName(p: Path): Name
    requires p != []
  {
    p[|p| - 1]
  }

  /** Files as a directory walk finds them: in component order, none below another. */
  ghost predicate Walk(files: seq<WorkFile>) {
    && (forall i :: 0 <= i < |files| ==> files[i].path != [])
    && (forall i, j :: 0 <= i < j < |files| ==> Query.PathLess(files[i].path, files[j].path))
    && (forall i, j :: 0 <= i < |files| && 0 <= j < |files| ==> !(files[i].path < files[j].path))
  }

  /** The files no staged removal covers. */
  function Kept(files: seq<WorkFile>, removed: set<Path>): seq<WorkFile> {
    if files == [] then []
    else (if PathIsRemoved(files[0].path, removed) then [] else [files[0]]) + Kept(files[1..], removed)
  }

  /** The file as it is committed. */
  ghost function Committed(s: Settings, parent: Option<Node>, adds: seq<Item>, f: WorkFile): Item
    requires f.path != []
  {
    Item(f.path, Materialize(s, f, FormerChild(parent, adds, ParentDir(f.path), BaseName(f.path))))
  }

  ghost predicate CommittedAs(s: Settings, parent: Option<Node>, adds: seq<Item>, files: seq<WorkFile>, all: seq<Item>) {
    |all| == |files| &&
    forall i :: 0 <= i < |files| ==> files[i].path != [] && all[i] == Committed(s, parent, adds, files[i])
  }

  lemma {:induction false} KeptIsFilter(files: seq<WorkFile>, removed: set<Path>)
    ensures forall f :: f in Kept(files, removed) <==> f in files && !PathIsRemoved(f.path, removed)
  {
    if files != [] {
      KeptIsFilter(files[1..], removed);
      assert forall f :: f in files <==> f == files[0] || f in files[1..];
    }
  }

  ghost predicate Before(f: WorkFile, g: WorkFile) {
    f.path != [] && g.path != [] && Query.PathLess(f.path, g.path) && !(f.path < g.path) && !(g.path < f.path)
  }

  lemma WalkCons(f: WorkFile, rest: seq<WorkFile>)
    requires f.path != [] && Walk(rest) && forall g :: g in rest ==> Before(f, g)
    ensures Walk([f] + rest)
  {
    var files := [f] + rest;
    forall j | 0 < j < |files| ensures Before(f, files[j]) && files[j] == rest[j - 1] {
      assert rest[j - 1] in rest;
    }
    hide Query.PathLess;
  }

  lemma WalkTail(files: seq<WorkFile>)
    requires Walk(files) && files != []
    ensures Walk(files[1..]) && files[0].path != [] && forall g :: g in files[1..] ==> Before(files[0], g)
  {
    hide Query.PathLess;
    assert forall i :: 0 <= i < |files| - 1 ==> files[1..][i] == files[i + 1];
  }

  lemma {:induction false} KeptIsWalk(files: seq<WorkFile>, removed: set<Path>)
    requires Walk(files)
    ensures Walk(Kept(files, removed))
  {
    if files != [] {
      WalkTail(files);
      hide Walk, Before;
      KeptIsWalk(files[1..], removed);
      KeptIsFilter(files[1..], removed);
      if !PathIsRemoved(files[0].path, removed) {
        WalkCons(files[0], Kept(files[1..], removed));
      } else {
        assert [] + Kept(files[1..], removed) == Kept(files[1..], removed);
      }
    }
  }

  lemma {:induction false} PathBetween(d: Path, p: Path, q: Path, r: Path)
    requires d < p && d < r && Query.PathLess(p, q) && Query.PathLess(q, r)
    ensures d < q
  {
    if d != [] {
      PathBetween(d[1..], p[1..], q[1..], r[1..]);
      assert d == [d[0]] + d[1..] && q == [q[0]] + q[1..];
    }
  }

  /** Component order keeps directories together too. */
  lemma WalkIsStream(s: Settings, parent: Option<Node>, adds: seq<Item>, files: seq<WorkFile>, all: seq<Item>)
    requires Walk(files) && CommittedAs(s, parent, adds, files, all)
    ensures Stream(all)
  {
    assert forall i :: 0 <= i < |all| ==> all[i].path == files[i].path;
    hide CommittedAs;
    assert all[..|all|] == all;
    PathsOfPrefix(all, |all|);
    forall i, j | 0 <= i < j < |all| ensures all[i].path != all[j].path {
      Rebuild.PathLessOneWay(files[i].path, files[j].path);
    }
    forall d: Path, i, j, k | 0 <= i < j < k < |all| && Under(d, all[i].path) && Under(d, all[k].path)
      ensures Under(d, all[j].path)
    {
      PathBetween(d, files[i].path, files[j].path, files[k].path);
    }
    hide Query.PathLess;
  }

  // ---- Opening directories --------------------------------------------------

  /** `open_frames`, once the frames outside `dir` are closed. */
  method OpenFrames(m: nat, parent: Option<Node>, frames: seq<Frame>, byDir: ByDir, dir: Path,
      ghost adds: seq<Item>, ghost fs: seq<Item>, ghost taken: set<Path>)
    returns (r: seq<Frame>, rest: ByDir, ghost gone: set<Path>)
    requires PublishedParent(m, parent) && Built(m, Former(parent, adds), fs, frames)
    requires Top(frames).dir <= dir && Rebuild.FreeFrom(fs, dir, |frames|)
    requires Waiting(adds, byDir, taken)
    requires forall k :: |frames| <= k <= |dir| ==> dir[..k] !in taken
    ensures Built(m, Former(parent, adds), fs, r) && Top(r).dir == dir
    ensures Waiting(adds, rest, gone)
    ensures forall d: Path :: d in gone <==> d in taken || (|frames| <= |d| && d <= dir)
  {
    hide Built, Waiting, PublishedParent, FormerChildren, Rebuild.FreeFrom, SoundParent, TakenDown;
    r, rest, gone := frames, byDir, taken;
    BuiltTop(m, parent, adds, fs, frames);
    NoneTaken(dir, |frames|, taken);
    for index := |frames| - 1 to |dir|
      invariant |r| == index + 1
      invariant Built(m, Former(parent, adds), fs, r) && Top(r).dir == dir[..index]
      invariant Waiting(adds, rest, gone)
      invariant TakenDown(dir, |frames|, index, taken, gone)
    {
      var frameDir := dir[..index + 1];
      NextTaken(dir, |frames|, index, taken, gone);
      var merged, known;
      merged, rest, known := ParentChildren(m, parent, rest, frameDir, adds, gone);
      var f := Frame(frameDir, [], merged);
      OpenNext(m, parent, adds, fs, r, dir, |frames|, f);
      r, gone := r + [f], gone + {frameDir};
    }
    AllTaken(dir, |frames|, taken, gone);
  }

  /** The staged directories read so far: `taken`, and the frames opened from `low` to `index`. */
  ghost predicate TakenDown(dir: Path, low: nat, index: nat, taken: set<Path>, gone: set<Path>) {
    forall d: Path :: d in gone <==> d in taken || (low <= |d| <= index && d <= dir)
  }

  lemma NoneTaken(dir: Path, low: nat, taken: set<Path>)
    requires 0 < low
    ensures TakenDown(dir, low, low - 1, taken, taken)
  {
  }

  lemma AllTaken(dir: Path, low: nat, taken: set<Path>, gone: set<Path>)
    requires TakenDown(dir, low, |dir|, taken, gone)
    ensures forall d: Path :: d in gone <==> d in taken || (low <= |d| && d <= dir)
  {
  }

  lemma NextTaken(dir: Path, low: nat, index: nat, taken: set<Path>, gone: set<Path>)
    requires low <= index + 1 <= |dir| && TakenDown(dir, low, index, taken, gone)
    ensures TakenDown(dir, low, index + 1, taken, gone + {dir[..index + 1]})
    ensures dir[..index + 1] in gone ==> dir[..index + 1] in taken
  {
    forall d: Path ensures d == dir[..index + 1] <==> |d| == index + 1 && d <= dir {
    }
  }

  lemma BuiltTop(m: nat, parent: Option<Node>, adds: seq<Item>, fs: seq<Item>, frames: seq<Frame>)
    requires Built(m, Former(parent, adds), fs, frames)
    ensures frames != [] && |Top(frames).dir| == |frames| - 1
  {
  }

  lemma OpenNext(m: nat, parent: Option<Node>, adds: seq<Item>, fs: seq<Item>, frames: seq<Frame>, dir: Path, low: nat, f: Frame)
    requires Built(m, Former(parent, adds), fs, frames) && low <= |frames| <= |dir| && Top(frames).dir <= dir
    requires f == Frame(dir[..|frames|], [], FormerChildren(parent, adds, dir[..|frames|]))
    requires SoundParent(m, f.parent) && Rebuild.FreeFrom(fs, dir, low)
    ensures Built(m, Former(parent, adds), fs, frames + [f])
    ensures Top(frames + [f]).dir == dir[..|frames|]
  {
    forall q | q in PathsOf(fs) ensures !(dir[..|frames|] <= q) {
    }
    OpenedFrame(m, Former(parent, adds), fs, frames, f);
  }

  // ---- One directory's files ------------------------------------------------

  /** The files `all[i..]` starts with, all of one directory. */
  ghost predicate Batch(s: Settings, parent: Option<Node>, adds: seq<Item>, all: seq<Item>, i: nat, dir: Path, batch: seq<WorkFile>) {
    && i + |batch| <= |all|
    && (forall j :: 0 <= j < |batch| ==>
          batch[j].path != [] && ParentDir(batch[j].path) == dir &&
          all[i + j] == Committed(s, parent, adds, batch[j]))
  }

  /** The frames are ready for the next file of `dir` at index `k`: files of the root
      may come while subdirectories are open, other files go to the innermost frame. */
  ghost predicate Receiving(m: nat, parents: Path -> map<Name, Entry>, all: seq<Item>, i: nat, frames: seq<Frame>, dir: Path, k: nat) {
    && Stream(all) && i <= |all| && Chain(frames) && k < |frames| && frames[k].dir == dir
    && (if k == 0 then Reading(m, parents, all, i, frames)
        else k == |frames| - 1 && Built(m, parents, all[..i], frames))
  }

  lemma Received(m: nat, parents: Path -> map<Name, Entry>, all: seq<Item>, i: nat, frames: seq<Frame>, dir: Path, k: nat)
    requires Receiving(m, parents, all, i, frames, dir, k)
    requires i < |all| && all[i].path != [] && ParentDir(all[i].path) == dir
    ensures var next := WithChild(frames, k, File(BaseName(all[i].path), all[i].leaf));
      && Reading(m, parents, all, i + 1, next)
      && Receiving(m, parents, all, i + 1, next, dir, k)
  {
    var path := all[i].path;
    var next := WithChild(frames, k, File(BaseName(path), all[i].leaf));
    assert path == dir + [BaseName(path)] && |dir| == k;
    if k == 0 {
      RootFileRead(m, parents, all, i, frames);
    } else {
      FileRead(m, parents, all, i, frames);
    }
    hide Built, Stream;
    Rebuild.SameChain(frames, k, File(BaseName(path), all[i].leaf));
    Rebuild.ReadyIsBuilt(m, parents, all[..i + 1], next);
  }

  lemma FrameParent(m: nat, parents: Path -> map<Name, Entry>, all: seq<Item>, i: nat, frames: seq<Frame>, dir: Path, k: nat)
    requires Receiving(m, parents, all, i, frames, dir, k)
    ensures frames[k].parent == parents(dir)
  {
    assert LevelBuilt(m, parents, all[..i], frames, k);
  }

  /** Materializes and appends the files of one directory. */
  method AppendFiles(m: nat, s: Settings, frames: seq<Frame>, k: nat, dir: Path, batch: seq<WorkFile>,
      ghost parent: Option<Node>, ghost adds: seq<Item>, ghost all: seq<Item>, ghost i: nat)
    returns (r: seq<Frame>)
    requires PublishedParent(m, parent) && Batch(s, parent, adds, all, i, dir, batch) && batch != []
    requires Receiving(m, Former(parent, adds), all, i, frames, dir, k)
    ensures Reading(m, Former(parent, adds), all, i + |batch|, r)
  {
    hide Receiving, Reading, FormerChildren, PublishedParent;
    r := frames;
    InFrames(m, Former(parent, adds), all, i, frames, dir, k);
    for j := 0 to |batch|
      invariant k < |r|
      invariant Receiving(m, Former(parent, adds), all, i + j, r, dir, k)
      invariant 0 < j ==> Reading(m, Former(parent, adds), all, i + j, r)
    {
      var f := batch[j];
      FrameParent(m, Former(parent, adds), all, i + j, r, dir, k);
      FormerLookup(m, parent, adds, dir, BaseName(f.path));
      var leaf := Materialize(s, f, Lookup(r[k].parent, BaseName(f.path)));
      assert all[i + j] == Item(f.path, leaf);
      Received(m, Former(parent, adds), all, i + j, r, dir, k);
      r := WithChild(r, k, File(BaseName(f.path), leaf));
    }
  }

  lemma InFrames(m: nat, parents: Path -> map<Name, Entry>, all: seq<Item>, i: nat, frames: seq<Frame>, dir: Path, k: nat)
    requires Receiving(m, parents, all, i, frames, dir, k)
    ensures k < |frames|
  {
  }

  // ---- The whole walk -------------------------------------------------------

  /** The first `i` files are in, and the additions of exactly the opened directories
      are taken. */
  ghost predicate Walking(m: nat, parent: Option<Node>, adds: seq<Item>, all: seq<Item>, i: nat,
      frames: seq<Frame>, byDir: ByDir, taken: set<Path>) {
    && Reading(m, Former(parent, adds), all, i, frames)
    && Waiting(adds, byDir, taken)
    && (forall d: Path :: d in taken <==> Opened(all[..i], d))
  }

  lemma OpenedBatch(all: seq<Item>, i: nat, b: nat, dir: Path, d: Path)
    requires i + b <= |all| && 0 < b
    requires forall j :: i <= j < i + b ==> all[j].path != [] && ParentDir(all[j].path) == dir
    ensures Opened(all[..i + b], d) <==> Opened(all[..i], d) || d <= dir
  {
    PathsOfPrefix(all, i);
    PathsOfPrefix(all, i + b);
    forall j | i <= j < i + b ensures d < all[j].path <==> d <= dir {
      assert all[j].path == dir + [BaseName(all[j].path)];
    }
    assert all[i].path in PathsOf(all[..i + b]);
    assert forall q :: q in PathsOf(all[..i]) ==> q in PathsOf(all[..i + b]);
    if d != [] && Opened(all[..i + b], d) {
      var q :| q in PathsOf(all[..i + b]) && d < q;
      var j :| 0 <= j < i + b && all[j].path == q;
      assert j < i ==> q in PathsOf(all[..i]);
    }
  }

  lemma BatchPaths(s: Settings, parent: Option<Node>, adds: seq<Item>, all: seq<Item>, i: nat, dir: Path, batch: seq<WorkFile>)
    requires Batch(s, parent, adds, all, i, dir, batch)
    ensures forall j :: i <= j < i + |batch| ==> all[j].path != [] && ParentDir(all[j].path) == dir
  {
    forall j | i <= j < i + |batch| ensures all[j].path != [] && ParentDir(all[j].path) == dir {
      assert all[j] == Committed(s, parent, adds, batch[j - i]);
    }
  }

  /** Opens the frame of the next file's directory, unless that is the root. */
  method OpenFor(m: nat, parent: Option<Node>, frames: seq<Frame>, byDir: ByDir, dir: Path,
      ghost adds: seq<Item>, ghost all: seq<Item>, ghost i: nat, ghost b: nat, ghost taken: set<Path>)
    returns (open: seq<Frame>, rest: ByDir, ghost gone: set<Path>)
    requires 2 <= m && PublishedParent(m, parent)
    requires Walking(m, parent, adds, all, i, frames, byDir, taken)
    requires i + b <= |all| && 0 < b
    requires forall j :: i <= j < i + b ==> all[j].path != [] && ParentDir(all[j].path) == dir
    ensures Receiving(m, Former(parent, adds), all, i, open, dir, |dir|)
    ensures Waiting(adds, rest, gone)
    ensures forall d: Path :: d in gone <==> Opened(all[..i + b], d)
  {
    assert Chain(frames);
    hide PublishedParent, FormerChildren, Built, Waiting, Stream;
    open, rest, gone := frames, byDir, taken;
    if dir == [] {
      RootTaken(all, i, b);
      Receives(m, parent, adds, all, i, frames, open, dir);
      return;
    }
    assert dir < all[i].path;
    var closed := CloseUntil(m, frames, dir, Former(parent, adds), all[..i]);
    BeforeOpening(m, parent, adds, all, i, frames, closed.value, dir, taken);
    AfterOpening(m, parent, adds, all, i, closed.value, dir, b, taken);
    hide Ready, Opened, Rebuild.FreeFrom;
    open, rest, gone := OpenFrames(m, parent, closed.value, byDir, dir, adds, all[..i], taken);
    Receives(m, parent, adds, all, i, frames, open, dir);
  }

  /** `handle_directory`. */
  method HandleDirectory(m: nat, s: Settings, parent: Option<Node>, frames: seq<Frame>, byDir: ByDir, dir: Path, batch: seq<WorkFile>,
      ghost adds: seq<Item>, ghost all: seq<Item>, ghost i: nat, ghost taken: set<Path>)
    returns (r: seq<Frame>, rest: ByDir, ghost gone: set<Path>)
    requires 2 <= m && PublishedParent(m, parent)
    requires Batch(s, parent, adds, all, i, dir, batch) && batch != []
    requires Walking(m, parent, adds, all, i, frames, byDir, taken)
    ensures Reading(m, Former(parent, adds), all, i + |batch|, r)
    ensures Walking(m, parent, adds, all, i + |batch|, r, rest, gone)
  {
    BatchPaths(s, parent, adds, all, i, dir, batch);
    BatchFits(s, parent, adds, all, i, dir, batch);
    hide PublishedParent, FormerChildren, Waiting, Batch, Receiving, Reading, Opened;
    var open;
    open, rest, gone := OpenFor(m, parent, frames, byDir, dir, adds, all, i, |batch|, taken);
    r := AppendFiles(m, s, open, |dir|, dir, batch, parent, adds, all, i);
  }

  lemma BatchFits(s: Settings, parent: Option<Node>, adds: seq<Item>, all: seq<Item>, i: nat, dir: Path, batch: seq<WorkFile>)
    requires Batch(s, parent, adds, all, i, dir, batch)
    ensures i + |batch| <= |all|
  {
  }

  lemma Receives(m: nat, parent: Option<Node>, adds: seq<Item>, all: seq<Item>, i: nat, frames: seq<Frame>, open: seq<Frame>, dir: Path)
    requires Reading(m, Former(parent, adds), all, i, frames)
    requires if dir == [] then open == frames
             else Built(m, Former(parent, adds), all[..i], open) && Top(open).dir == dir
    ensures Receiving(m, Former(parent, adds), all, i, open, dir, |dir|)
  {
  }

  lemma BeforeOpening(m: nat, parent: Option<Node>, adds: seq<Item>, all: seq<Item>, i: nat,
      frames: seq<Frame>, closed: seq<Frame>, dir: Path, taken: set<Path>)
    requires Reading(m, Former(parent, adds), all, i, frames) && i < |all| && dir < all[i].path
    requires Ready(m, Former(parent, adds), all[..i], closed) && |closed| <= |frames| && Top(closed).dir <= dir
    requires forall j :: 0 <= j < |closed| ==> closed[j].dir == frames[j].dir
    requires |closed| < |frames| ==> !(frames[|closed|].dir <= dir)
    requires forall d: Path :: d in taken <==> Opened(all[..i], d)
    ensures Built(m, Former(parent, adds), all[..i], closed)
    ensures Rebuild.FreeFrom(all[..i], dir, |closed|)
    ensures forall k :: |closed| <= k <= |dir| ==> dir[..k] !in taken
  {
    forall k, q | |closed| <= k <= |dir| && q in PathsOf(all[..i]) ensures !(dir[..k] <= q) {
      NewDirectory(all, i, frames, closed, dir, k);
    }
    hide Reading, Built;
  }

  /** Opening `dir` takes the additions of just the directories its files open. */
  lemma AfterOpening(m: nat, parent: Option<Node>, adds: seq<Item>, all: seq<Item>, i: nat,
      closed: seq<Frame>, dir: Path, b: nat, taken: set<Path>)
    requires i + b <= |all| && 0 < b
    requires forall j :: i <= j < i + b ==> all[j].path != [] && ParentDir(all[j].path) == dir
    requires Ready(m, Former(parent, adds), all[..i], closed) && Top(closed).dir <= dir
    requires forall d: Path :: d in taken <==> Opened(all[..i], d)
    ensures forall d: Path :: Opened(all[..i + b], d) <==> d in taken || (|closed| <= |d| && d <= dir)
  {
    forall d: Path ensures Opened(all[..i + b], d) <==> d in taken || (|closed| <= |d| && d <= dir) {
      OpenedBatch(all, i, b, dir, d);
      if d <= dir && |d| < |closed| {
        var top := Top(closed).dir;
        assert d == top[..|d|];
        StillOpened(all[..i], top, |d|);
      }
    }
  }

  lemma RootTaken(all: seq<Item>, i: nat, b: nat)
    requires i + b <= |all| && 0 < b
    requires forall j :: i <= j < i + b ==> all[j].path != [] && ParentDir(all[j].path) == []
    ensures forall d: Path :: Opened(all[..i + b], d) <==> Opened(all[..i], d)
  {
    forall d: Path ensures Opened(all[..i + b], d) <==> Opened(all[..i], d) {
      OpenedBatch(all, i, b, [], d);
    }
  }

  /** The files handled and batched so far, and those still to come. */
  ghost predicate Split(kept: seq<WorkFile>, done: nat, batch: seq<WorkFile>, rest: seq<WorkFile>) {
    done + |batch| <= |kept| && kept[done..] == batch + rest
  }

  lemma Skip(files: seq<WorkFile>, i: nat, removed: set<Path>)
    requires i < |files|
    ensures Kept(files[i..], removed) ==
            if PathIsRemoved(files[i].path, removed) then Kept(files[i + 1..], removed)
            else [files[i]] + Kept(files[i + 1..], removed)
  {
    assert files[i..][0] == files[i] && files[i..][1..] == files[i + 1..];
    var rest := Kept(files[i + 1..], removed);
    assert [] + rest == rest;
  }

  lemma MoreBatch(kept: seq<WorkFile>, done: nat, batch: seq<WorkFile>, f: WorkFile, rest: seq<WorkFile>)
    requires Split(kept, done, batch, [f] + rest)
    ensures Split(kept, done, batch + [f], rest)
  {
    assert batch + ([f] + rest) == batch + [f] + rest;
  }

  lemma BatchDone(kept: seq<WorkFile>, done: nat, batch: seq<WorkFile>, rest: seq<WorkFile>)
    requires Split(kept, done, batch, rest)
    ensures Split(kept, done + |batch|, [], rest)
  {
    assert kept[done..][|batch|..] == kept[done + |batch|..];
    assert [] + rest == rest;
  }

  lemma SplitBatch(s: Settings, parent: Option<Node>, adds: seq<Item>, kept: seq<WorkFile>, all: seq<Item>,
      done: nat, batch: seq<WorkFile>, rest: seq<WorkFile>, dir: Path)
    requires CommittedAs(s, parent, adds, kept, all) && Split(kept, done, batch, rest)
    requires forall f :: f in batch ==> f.path != [] && ParentDir(f.path) == dir
    ensures Batch(s, parent, adds, all, done, dir, batch)
  {
    forall j | 0 <= j < |batch|
      ensures batch[j].path != [] && ParentDir(batch[j].path) == dir
      ensures all[done + j] == Committed(s, parent, adds, batch[j])
    {
      assert batch[j] in batch;
      assert kept[done..][j] == batch[j] == kept[done + j];
    }
    hide Committed;
  }

  /** Nothing is read, and only the root's additions are taken. */
  lemma WalkBegins(m: nat, parent: Option<Node>, adds: seq<Item>, all: seq<Item>, byDir: ByDir)
    requires PublishedParent(m, parent) && Stream(all)
    requires Waiting(adds, byDir, {} + {[]})
    ensures Walking(m, parent, adds, all, 0, [Frame([], [], FormerChildren(parent, adds, []))], byDir, {[]})
  {
    var frames := [Frame([], [], FormerChildren(parent, adds, []))];
    FormerIsSound(m, parent, adds, []);
    var none: set<Path> := {};
    assert none + {[]} == {[]};
    assert all[..0] == [] && PathsOf(all[..0]) == {};
    hide Stream, FormerChildren;
    assert LevelBuilt(m, Former(parent, adds), all[..0], frames, 0);
  }

  /** All files of the batch are in the current directory. */
  ghost predicate OneDir(batch: seq<WorkFile>, current: Option<Path>) {
    && (batch != [] ==> current.Some?)
    && (forall f :: f in batch ==> f.path != [] && Some(ParentDir(f.path)) == current)
  }

  lemma OneDirMore(batch: seq<WorkFile>, f: WorkFile)
    requires f.path != [] && OneDir(batch, Some(ParentDir(f.path)))
    ensures OneDir(batch + [f], Some(ParentDir(f.path)))
  {
  }

  lemma OneDirNone(current: Option<Path>)
    ensures OneDir([], current)
  {
  }

  /** The batch, if any, goes to the frames. */
  method Flush(m: nat, s: Settings, parent: Option<Node>, frames: seq<Frame>, byDir: ByDir, current: Option<Path>, batch: seq<WorkFile>,
      ghost adds: seq<Item>, ghost kept: seq<WorkFile>, ghost all: seq<Item>, ghost done: nat, ghost rest: seq<WorkFile>, ghost taken: set<Path>)
    returns (r: seq<Frame>, left: ByDir, ghost gone: set<Path>)
    requires 2 <= m && PublishedParent(m, parent) && CommittedAs(s, parent, adds, kept, all)
    requires Split(kept, done, batch, rest)
    requires OneDir(batch, current)
    requires Walking(m, parent, adds, all, done, frames, byDir, taken)
    ensures Walking(m, parent, adds, all, done + |batch|, r, left, gone)
    ensures Split(kept, done + |batch|, [], rest)
  {
    hide PublishedParent, Walking, CommittedAs, Split;
    BatchDone(kept, done, batch, rest);
    r, left, gone := frames, byDir, taken;
    if batch != [] {
      SplitBatch(s, parent, adds, kept, all, done, batch, rest, current.value);
      r, left, gone := HandleDirectory(m, s, parent, frames, byDir, current.value, batch, adds, all, done, taken);
    }
  }

  /** The walk so far: what the frames hold, what is batched, and what is still to come. */
  ghost predicate Underway(m: nat, s: Settings, parent: Option<Node>, adds: seq<Item>, kept: seq<WorkFile>, all: seq<Item>,
      frames: seq<Frame>, byDir: ByDir, current: Option<Path>, batch: seq<WorkFile>, rest: seq<WorkFile>) {
    && CommittedAs(s, parent, adds, kept, all) && OneDir(batch, current)
    && exists done: nat, taken: set<Path> ::
         Walking(m, parent, adds, all, done, frames, byDir, taken) && Split(kept, done, batch, rest)
  }

  /** One file of the walk: a new directory flushes the batch of the last one. */
  method TakeFile(m: nat, s: Settings, parent: Option<Node>, frames: seq<Frame>, byDir: ByDir, current: Option<Path>,
      batch: seq<WorkFile>, f: WorkFile, ghost adds: seq<Item>, ghost kept: seq<WorkFile>, ghost all: seq<Item>, ghost rest: seq<WorkFile>)
    returns (r: seq<Frame>, left: ByDir, now: Option<Path>, next: seq<WorkFile>)
    requires 2 <= m && PublishedParent(m, parent) && f.path != []
    requires Underway(m, s, parent, adds, kept, all, frames, byDir, current, batch, [f] + rest)
    ensures Underway(m, s, parent, adds, kept, all, r, left, now, next, rest)
  {
    hide Walking, CommittedAs, Split, OneDir, PublishedParent;
    ghost var done: nat, taken: set<Path> :|
      Walking(m, parent, adds, all, done, frames, byDir, taken) && Split(kept, done, batch, [f] + rest);
    var dir := ParentDir(f.path);
    r, left, now, next := frames, byDir, current, batch;
    if current != Some(dir) {
      r, left, taken := Flush(m, s, parent, frames, byDir, current, batch, adds, kept, all, done, [f] + rest, taken);
      done, now, next := done + |batch|, Some(dir), [];
      OneDirNone(now);
    }
    OneDirMore(next, f);
    MoreBatch(kept, done, next, f, rest);
    next := next + [f];
  }

  /** The loop over the walk: files are batched by directory, removed ones skipped. */
  method WalkFiles(m: nat, s: Settings, parent: Option<Node>, removed: set<Path>, files: seq<WorkFile>,
      first: Frame, waiting: ByDir, ghost adds: seq<Item>, ghost all: seq<Item>)
    returns (frames: seq<Frame>, byDir: ByDir)
    requires 2 <= m && PublishedParent(m, parent) && Walk(files)
    requires CommittedAs(s, parent, adds, Kept(files, removed), all)
    requires Walking(m, parent, adds, all, 0, [first], waiting, {[]})
    ensures Chain(frames) && Ready(m, Former(parent, adds), all, frames)
    ensures forall d: Path :: d in byDir.Keys <==> HasAdditions(adds, d) && !Opened(all, d)
  {
    ghost var kept := Kept(files, removed);
    frames, byDir := [first], waiting;
    var current: Option<Path>, batch: seq<WorkFile> := None, [];
    hide *;
    AllToCome(files, kept);
    WalkUnderway(m, s, parent, adds, kept, all, first, waiting);
    for i := 0 to |files|
      invariant Underway(m, s, parent, adds, kept, all, frames, byDir, current, batch, Kept(files[i..], removed))
    {
      Skip(files, i, removed);
      if !PathIsRemoved(files[i].path, removed) {
        frames, byDir, current, batch := TakeFile(m, s, parent, frames, byDir, current, batch, files[i],
                                                  adds, kept, all, Kept(files[i + 1..], removed));
      }
    }
    frames, byDir := FlushLast(m, s, parent, frames, byDir, current, batch, adds, files, removed, kept, all);
  }

  lemma WalkUnderway(m: nat, s: Settings, parent: Option<Node>, adds: seq<Item>, kept: seq<WorkFile>, all: seq<Item>,
      first: Frame, waiting: ByDir)
    requires CommittedAs(s, parent, adds, kept, all) && Split(kept, 0, [], kept)
    requires Walking(m, parent, adds, all, 0, [first], waiting, {[]})
    ensures Underway(m, s, parent, adds, kept, all, [first], waiting, None, [], kept)
  {
    hide Walking, Split, CommittedAs;
  }

  method FlushLast(m: nat, s: Settings, parent: Option<Node>, frames: seq<Frame>, byDir: ByDir, current: Option<Path>,
      batch: seq<WorkFile>, ghost adds: seq<Item>, ghost files: seq<WorkFile>, ghost removed: set<Path>,
      ghost kept: seq<WorkFile>, ghost all: seq<Item>)
    returns (r: seq<Frame>, left: ByDir)
    requires 2 <= m && PublishedParent(m, parent)
    requires Underway(m, s, parent, adds, kept, all, frames, byDir, current, batch, Kept(files[|files|..], removed))
    ensures Chain(r) && Ready(m, Former(parent, adds), all, r)
    ensures forall d: Path :: d in left.Keys <==> HasAdditions(adds, d) && !Opened(all, d)
  {
    hide Walking, CommittedAs, Split, OneDir, PublishedParent, Ready, HasAdditions, Opened;
    ghost var rest := Kept(files[|files|..], removed);
    ghost var done: nat, taken: set<Path> :|
      Walking(m, parent, adds, all, done, frames, byDir, taken) && Split(kept, done, batch, rest);
    r, left, taken := Flush(m, s, parent, frames, byDir, current, batch, adds, kept, all, done, rest, taken);
    WalkEnds(m, s, parent, adds, files, removed, kept, all, done + |batch|, r, left, taken);
  }

  lemma AllToCome(files: seq<WorkFile>, kept: seq<WorkFile>)
    requires Walk(files)
    ensures files[0..] == files && Split(kept, 0, [], kept)
    ensures forall i :: 0 <= i < |files| ==> files[i].path != []
  {
    assert [] + kept == kept && kept[0..] == kept;
  }

  /** `_build_worktree_inner`: the tree of the worktree's files with the former children
      showing through, and the directories whose additions found no open frame. */
  method BuildInner(m: nat, s: Settings, parent: Option<Node>, removed: set<Path>, files: seq<WorkFile>, adds: seq<Item>,
      ghost all: seq<Item>)
    returns (r: Node, leftover: set<Path>)
    requires 2 <= m && PublishedParent(m, parent) && Walk(files)
    requires forall a :: a in adds ==> a.path != []
    requires CommittedAs(s, parent, adds, Kept(files, removed), all)
    ensures Finished(m, r.entries)
    ensures forall p: Path :: p != [] ==> LeafAt(r.entries, p) == BuiltAt(Former(parent, adds), all, [], p)
    ensures forall d: Path :: d in leftover <==> HasAdditions(adds, d) && !Opened(all, d)
  {
    KeptIsWalk(files, removed);
    WalkIsStream(s, parent, adds, Kept(files, removed), all);
    hide *;
    var byDir := GroupByDir(adds);
    var rootParent, known;
    rootParent, byDir, known := ParentChildren(m, parent, byDir, [], adds, {});
    WalkBegins(m, parent, adds, all, byDir);
    var frames;
    frames, byDir := WalkFiles(m, s, parent, removed, files, Frame([], [], rootParent), byDir, adds, all);
    var built := Finish(m, frames, Former(parent, adds), all);
    r, leftover := built.value, byDir.Keys;
  }

  lemma WalkEnds(m: nat, s: Settings, parent: Option<Node>, adds: seq<Item>, files: seq<WorkFile>, removed: set<Path>,
      kept: seq<WorkFile>, all: seq<Item>, done: nat, frames: seq<Frame>, byDir: ByDir, taken: set<Path>)
    requires Walking(m, parent, adds, all, done, frames, byDir, taken)
    requires CommittedAs(s, parent, adds, kept, all) && Split(kept, done, [], Kept(files[|files|..], removed))
    ensures Chain(frames) && Ready(m, Former(parent, adds), all, frames)
    ensures forall d: Path :: d in byDir.Keys <==> HasAdditions(adds, d) && !Opened(all, d)
  {
    assert done == |all|;
    assert all[..|all|] == all;
    hide Built, Opened, HasAdditions;
  }

  // ---- What the inner build leaves at a path --------------------------------

  /** The addition that a frame took in at `q`, unless a directory of the walk is there. */
  ghost function FramedAt(all: seq<Item>, adds: seq<Item>, q: Path): Option<Leaf> {
    if q != [] && Opened(all, ParentDir(q)) && !Opened(all, q) then AddedAt(adds, q) else None
  }

  ghost predicate UnderFramed(all: seq<Item>, adds: seq<Item>, q: Path) {
    exists k :: 1 <= k < |q| && FramedAt(all, adds, q[..k]).Some?
  }

  /** What is there without the worktree: additions of opened directories, then the parent. */
  ghost function VisibleAt(parent: Option<Node>, adds: seq<Item>, all: seq<Item>, q: Path): Option<Leaf> {
    if FramedAt(all, adds, q).Some? then FramedAt(all, adds, q)
    else if UnderFramed(all, adds, q) then None
    else LeafAt(EntriesOf(parent), q)
  }

  /** What the inner build leaves at `q`: the worktree's file, nothing above or below one,
      and otherwise what was visible there. */
  ghost function InnerLeaf(parent: Option<Node>, adds: seq<Item>, all: seq<Item>, q: Path): Option<Leaf> {
    if AddedAt(all, q).Some? then AddedAt(all, q)
    else if Shadowed(all, q) then None
    else VisibleAt(parent, adds, all, q)
  }

  lemma {:induction false} LeafBelowDir(es: seq<Entry>, d: Path, p: Path)
    requires p != []
    ensures LeafAt(es, d + p) == if DirAt(es, d).Some? then LeafAt(DirAt(es, d).value.entries, p) else None
    decreases |d|
  {
    if d == [] {
      assert d + p == p;
    } else {
      assert (d + p)[0] == d[0] && (d + p)[1..] == d[1..] + p;
      if Child(es, d[0]).Some? && Child(es, d[0]).value.Dir? {
        LeafBelowDir(Child(es, d[0]).value.child.entries, d[1..], p);
      }
    }
  }

  lemma OpenedAbove(all: seq<Item>, d: Path, e: Path)
    requires Opened(all, e) && d <= e
    ensures Opened(all, d)
  {
    StillOpened(all, e, |d|);
    assert e[..|d|] == d;
  }

  lemma NotBelowUnopened(all: seq<Item>, d: Path, e: Path)
    requires !Opened(all, d) && d <= e
    ensures !Opened(all, e)
  {
    if Opened(all, e) {
      OpenedAbove(all, d, e);
    }
  }

  lemma UnopenedFramed(all: seq<Item>, adds: seq<Item>, d: Path, p: Path)
    requires p != [] && Opened(all, d) && !Opened(all, d + [p[0]])
    ensures FramedAt(all, adds, d + p) == if |p| == 1 then AddedAt(adds, d + p) else None
    ensures UnderFramed(all, adds, d + p) <==> |p| > 1 && AddedAt(adds, d + [p[0]]).Some?
  {
    var e, q := d + [p[0]], d + p;
    assert q[..|e|] == e && ParentDir(e) == d;
    assert |p| == 1 ==> e == q;
    hide Opened, AddedAt;
    forall k | |e| < k <= |q| ensures FramedAt(all, adds, q[..k]).None? {
      assert e <= ParentDir(q[..k]);
      NotBelowUnopened(all, e, ParentDir(q[..k]));
    }
    assert q[..|q|] == q;
    assert FramedAt(all, adds, e) == AddedAt(adds, e);
  }

  lemma {:induction false} ThroughIsVisible(m: nat, parent: Option<Node>, adds: seq<Item>, all: seq<Item>, d: Path, p: Path)
    requires PublishedParent(m, parent) && p != [] && Opened(all, d) && !Opened(all, d + p)
    ensures Through(Former(parent, adds), all, d, p) == VisibleAt(parent, adds, all, d + p)
    decreases |p|
  {
    var e := d + [p[0]];
    assert |p| == 1 ==> e == d + p;
    if Opened(all, e) {
      assert e + p[1..] == d + p;
      ThroughIsVisible(m, parent, adds, all, e, p[1..]);
    } else {
      UnopenedFramed(all, adds, d, p);
      FormerLookup(m, parent, adds, d, p[0]);
      hide FramedAt, UnderFramed, Opened, FormerChildren;
      UnopenedLeaf(m, parent, adds, d, p);
    }
  }

  lemma UnopenedLeaf(m: nat, parent: Option<Node>, adds: seq<Item>, d: Path, p: Path)
    requires p != []
    ensures LeafIn(FormerChild(parent, adds, d, p[0]), p) ==
            if AddedAt(adds, d + [p[0]]).Some? then (if |p| == 1 then AddedAt(adds, d + p) else None)
            else LeafAt(EntriesOf(parent), d + p)
  {
    assert |p| == 1 ==> d + [p[0]] == d + p;
    if parent.Some? {
      LeafBelowDir(parent.value.entries, d, p);
    }
  }

  /** The inner build, path by path. */
  lemma InnerIsOverlay(m: nat, parent: Option<Node>, adds: seq<Item>, all: seq<Item>, p: Path)
    requires PublishedParent(m, parent) && p != []
    ensures BuiltAt(Former(parent, adds), all, [], p) == InnerLeaf(parent, adds, all, p)
  {
    assert [] + p == p;
    hide Through, VisibleAt, AddedAt, FormerChildren, WellFormed;
    if !Shadowed(all, p) {
      NotOpened(all, p);
      ThroughIsVisible(m, parent, adds, all, [], p);
    }
  }

  lemma NotOpened(all: seq<Item>, p: Path)
    requires p != [] && !Shadowed(all, p)
    ensures !Opened(all, p) && Opened(all, [])
  {
  }

  // ---- Room for every directory ---------------------------------------------

  /** `names` are all the names of `d` among the paths and the leaves of the tree, and
      they are no more than `m * m`. */
  ghost predicate Room(m: nat, es: seq<Entry>, paths: set<Path>, d: Path, names: set<Name>) {
    |names| <= m * m && forall p: Path :: d < p && (p in paths || LeafAt(es, p).Some?) ==> p[|d|] in names
  }

  /** No directory gets more than `m * m` children out of the worktree, the additions
      and the parent tree together. */
  ghost predicate Roomy(m: nat, es: seq<Entry>, paths: set<Path>) {
    forall d: Path :: HasRoom(m, es, paths, d)
  }

  ghost predicate HasRoom(m: nat, es: seq<Entry>, paths: set<Path>, d: Path) {
    exists names: set<Name> :: Room(m, es, paths, d, names)
  }

  lemma {:induction false} DirSearchable(es: seq<Entry>, d: Path)
    requires Searchable(es) && DirAt(es, d).Some?
    ensures Searchable(DirAt(es, d).value.entries)
    decreases |d|
  {
    if d != [] {
      Prune.ChildIsSearchable(es, d[0]);
      DirSearchable(Child(es, d[0]).value.child.entries, d[1..]);
    }
  }

  /** A tree whose leaves all come from the paths and the parent fits, if these leave room. */
  lemma FitsTheRoom(m: nat, es: seq<Entry>, parent: seq<Entry>, paths: set<Path>)
    requires Searchable(es) && Roomy(m, parent, paths)
    requires forall p: Path :: p != [] && LeafAt(es, p).Some? ==> p in paths || LeafAt(parent, p).Some?
    ensures Fits(m, es)
  {
    forall d: Path | DirAt(es, d).Some? ensures Count(DirAt(es, d).value.entries) <= m * m {
      DirFitsTheRoom(m, es, parent, paths, d);
    }
  }

  lemma DirFitsTheRoom(m: nat, es: seq<Entry>, parent: seq<Entry>, paths: set<Path>, d: Path)
    requires Searchable(es) && Roomy(m, parent, paths) && DirAt(es, d).Some?
    requires forall p: Path :: p != [] && LeafAt(es, p).Some? ==> p in paths || LeafAt(parent, p).Some?
    ensures Count(DirAt(es, d).value.entries) <= m * m
  {
    var sub := DirAt(es, d).value.entries;
    assert HasRoom(m, parent, paths, d);
    var names :| Room(m, parent, paths, d, names);
    DirSearchable(es, d);
    hide Searchable, Fits, LeafAt, Child;
    forall n: Name | Child(sub, n).Some? ensures n in names {
      var q := SomeLeafBelow(sub, n);
      LeafBelowDir(es, d, q);
      assert (d + q)[|d|] == n && d < d + q;
    }
    CountBound(sub, names);
  }

  // ---- The full commit ------------------------------------------------------

  /** The additions whose directory is one of `dirs`. */
  function InDirs(adds: seq<Item>, dirs: set<Path>): seq<Item> {
    if adds == [] then []
    else
      var a := adds[|adds| - 1];
      InDirs(adds[..|adds| - 1], dirs) + if a.path != [] && ParentDir(a.path) in dirs then [a] else []
  }

  /** The additions whose directory the walk never opened. */
  ghost function Leftover(adds: seq<Item>, all: seq<Item>): seq<Item> {
    if adds == [] then []
    else
      var a := adds[|adds| - 1];
      Leftover(adds[..|adds| - 1], all) + if a.path != [] && !Opened(all, ParentDir(a.path)) then [a] else []
  }

  lemma {:induction false} InDirsIsLeftover(adds: seq<Item>, all: seq<Item>, dirs: set<Path>)
    requires forall a :: a in adds && a.path != [] ==> (ParentDir(a.path) in dirs <==> !Opened(all, ParentDir(a.path)))
    ensures InDirs(adds, dirs) == Leftover(adds, all)
  {
    if adds != [] {
      var k := |adds| - 1;
      assert adds == adds[..k] + [adds[k]];
      InDirsIsLeftover(adds[..k], all, dirs);
    }
  }

  lemma HasItsAddition(adds: seq<Item>, a: Item)
    requires a in adds && a.path != []
    ensures HasAdditions(adds, ParentDir(a.path))
  {
    assert ParentDir(a.path) + [BaseName(a.path)] == a.path;
    BelowSpec(adds, [], a.path);
  }

  lemma {:induction false} LeftoverSpec(adds: seq<Item>, all: seq<Item>, p: Path)
    ensures AddedAt(Leftover(adds, all), p) ==
            if p != [] && !Opened(all, ParentDir(p)) then AddedAt(adds, p) else None
    ensures forall a :: a in Leftover(adds, all) <==> a in adds && a.path != [] && !Opened(all, ParentDir(a.path))
  {
    if adds != [] {
      var k := |adds| - 1;
      assert adds == adds[..k] + [adds[k]];
      LeftoverSpec(adds[..k], all, p);
      var low := Leftover(adds[..k], all);
      if adds[k].path != [] && !Opened(all, ParentDir(adds[k].path)) {
        AddedAtSnoc(low, adds[k], p);
      } else {
        assert low + [] == low;
      }
    }
  }

  function FilePaths(files: seq<WorkFile>): set<Path> {
    set f | f in files :: f.path
  }

  /** The inner tree, before removals and leftovers. */
  ghost predicate InnerTree(m: nat, parent: Option<Node>, adds: seq<Item>, all: seq<Item>, es: seq<Entry>) {
    && WellFormed(m, es)
    && forall p: Path :: p != [] ==> LeafAt(es, p) == InnerLeaf(parent, adds, all, p)
  }

  /** What a full commit leaves at `p`: the inner tree, pruned where pruning reaches,
      with the leftover additions spliced in. */
  ghost function FullLeaf(inner: seq<Entry>, adds: seq<Item>, all: seq<Item>, removed: set<Path>, p: Path): Option<Leaf>
    requires p != []
  {
    SplicedLeaf(Prune.PrunedLeaf(LeafAt(inner, p), p, Prune.Reached(inner, [], p, removed), removed),
                p, Leftover(adds, all), {})
  }

  lemma {:induction false} InnerSource(parent: Option<Node>, adds: seq<Item>, all: seq<Item>, p: Path)
    requires InnerLeaf(parent, adds, all, p).Some?
    ensures p in PathsOf(all) + PathsOf(adds) || LeafAt(EntriesOf(parent), p).Some?
  {
    BelowSpec(all, [], p);
    BelowSpec(adds, [], p);
  }

  lemma CommittedPaths(s: Settings, parent: Option<Node>, adds: seq<Item>, files: seq<WorkFile>, removed: set<Path>, all: seq<Item>)
    requires CommittedAs(s, parent, adds, Kept(files, removed), all)
    ensures PathsOf(all) <= FilePaths(files)
    ensures forall q :: q in PathsOf(all) ==> !PathIsRemoved(q, removed)
  {
    KeptIsFilter(files, removed);
    PathsOfPrefix(all, |all|);
    assert all[..|all|] == all;
    forall q | q in PathsOf(all) ensures q in FilePaths(files) && !PathIsRemoved(q, removed) {
      var j :| 0 <= j < |all| && all[j].path == q;
      assert Kept(files, removed)[j] in Kept(files, removed);
    }
  }

  /** `_build_worktree_inner` on a tree with room. */
  method BuildRoomy(m: nat, s: Settings, parent: Option<Node>, removed: set<Path>, files: seq<WorkFile>, adds: seq<Item>,
      ghost all: seq<Item>)
    returns (r: Node, leftover: set<Path>)
    requires 2 <= m && PublishedParent(m, parent) && Walk(files)
    requires forall a :: a in adds ==> a.path != []
    requires CommittedAs(s, parent, adds, Kept(files, removed), all)
    requires Roomy(m, EntriesOf(parent), FilePaths(files) + PathsOf(adds))
    ensures InnerTree(m, parent, adds, all, r.entries)
    ensures InDirs(adds, leftover) == Leftover(adds, all)
  {
    hide *;
    r, leftover := BuildInner(m, s, parent, removed, files, adds, all);
    forall p: Path | p != [] ensures LeafAt(r.entries, p) == InnerLeaf(parent, adds, all, p) {
      InnerIsOverlay(m, parent, adds, all, p);
    }
    InnerFits(m, s, parent, removed, files, adds, all, r.entries);
    forall a | a in adds && a.path != []
      ensures ParentDir(a.path) in leftover <==> !Opened(all, ParentDir(a.path))
    {
      HasItsAddition(adds, a);
    }
    InDirsIsLeftover(adds, all, leftover);
  }

  lemma InnerFits(m: nat, s: Settings, parent: Option<Node>, removed: set<Path>, files: seq<WorkFile>, adds: seq<Item>,
      all: seq<Item>, es: seq<Entry>)
    requires CommittedAs(s, parent, adds, Kept(files, removed), all)
    requires Roomy(m, EntriesOf(parent), FilePaths(files) + PathsOf(adds))
    requires Finished(m, es) && forall p: Path :: p != [] ==> LeafAt(es, p) == InnerLeaf(parent, adds, all, p)
    ensures InnerTree(m, parent, adds, all, es)
  {
    CommittedPaths(s, parent, adds, files, removed, all);
    var paths := FilePaths(files) + PathsOf(adds);
    assert Searchable(es) && (Fits(m, es) ==> WellFormed(m, es));
    hide Searchable, WellFormed, Fits, LeafAt, InnerLeaf, CommittedAs, Roomy, Kept, PathsOf, FilePaths;
    forall p: Path | p != [] && LeafAt(es, p).Some?
      ensures p in paths || LeafAt(EntriesOf(parent), p).Some?
    {
      InnerSource(parent, adds, all, p);
    }
    FitsTheRoom(m, es, EntriesOf(parent), paths);
  }

  lemma FullSource(parent: Option<Node>, adds: seq<Item>, all: seq<Item>, removed: set<Path>, inner: seq<Entry>, p: Path)
    requires p != [] && LeafAt(inner, p) == InnerLeaf(parent, adds, all, p)
    requires FullLeaf(inner, adds, all, removed, p).Some?
    ensures p in PathsOf(all) + PathsOf(adds) || LeafAt(EntriesOf(parent), p).Some?
  {
    hide LeafAt, InnerLeaf, Prune.Reached, Shadowed, PathIsRemoved;
    LeftoverSpec(adds, all, p);
    BelowSpec(adds, [], p);
    if LeafAt(inner, p).Some? {
      InnerSource(parent, adds, all, p);
    }
  }

  lemma FullFits(m: nat, s: Settings, parent: Option<Node>, removed: set<Path>, files: seq<WorkFile>, adds: seq<Item>,
      all: seq<Item>, inner: seq<Entry>, es: seq<Entry>)
    requires CommittedAs(s, parent, adds, Kept(files, removed), all)
    requires Roomy(m, EntriesOf(parent), FilePaths(files) + PathsOf(adds))
    requires InnerTree(m, parent, adds, all, inner)
    requires Finished(m, es) && forall p: Path :: p != [] ==> LeafAt(es, p) == FullLeaf(inner, adds, all, removed, p)
    ensures WellFormed(m, es)
  {
    var paths := FilePaths(files) + PathsOf(adds);
    assert Searchable(es) && (Fits(m, es) ==> WellFormed(m, es));
    hide *;
    CommittedPaths(s, parent, adds, files, removed, all);
    forall p: Path | p != [] && LeafAt(es, p).Some?
      ensures p in paths || LeafAt(EntriesOf(parent), p).Some?
    {
      InnerAt(m, parent, adds, all, inner, p);
      FullSource(parent, adds, all, removed, inner, p);
    }
    FitsTheRoom(m, es, EntriesOf(parent), paths);
  }

  // ---- A full commit is an overlay ------------------------------------------

  ghost predicate AnyPath(all: seq<Item>, adds: seq<Item>, p: Path) {
    p in PathsOf(all) || p in PathsOf(adds)
  }

  /** No path of the worktree or of the additions lies below another. */
  ghost predicate JointlyFree(all: seq<Item>, adds: seq<Item>) {
    forall p, q :: AnyPath(all, adds, p) && AnyPath(all, adds, q) ==> !(p < q)
  }

  /** The worktree's files, then the additions, then what the parent had that is neither
      removed nor in their way. */
  ghost function OverlayLeaf(parent: Option<Node>, adds: seq<Item>, all: seq<Item>, removed: set<Path>, p: Path): Option<Leaf> {
    if AddedAt(all, p).Some? then AddedAt(all, p)
    else if AddedAt(adds, p).Some? then AddedAt(adds, p)
    else if PathIsRemoved(p, removed) || Shadowed(all, p) || Shadowed(adds, p) then None
    else LeafAt(EntriesOf(parent), p)
  }

  lemma OpenedIsShadowed(all: seq<Item>, p: Path)
    requires p != [] && Opened(all, p)
    ensures Shadowed(all, p)
  {
  }

  lemma FreePath(all: seq<Item>, adds: seq<Item>, p: Path)
    requires JointlyFree(all, adds) && AnyPath(all, adds, p) && p != []
    ensures !Opened(all, p) && !Shadowed(all, p) && !Shadowed(adds, p)
  {
    forall q | q in PathsOf(all) || q in PathsOf(adds) ensures !(p < q) && !(q < p) {
      assert AnyPath(all, adds, q);
    }
  }

  /** Next to files that do not get in its way, an addition is visible or left over. */
  lemma FramedAddition(all: seq<Item>, adds: seq<Item>, q: Path)
    requires JointlyFree(all, adds) && q in PathsOf(adds) && q != []
    ensures AddedAt(adds, q).Some?
    ensures if Opened(all, ParentDir(q)) then FramedAt(all, adds, q) == AddedAt(adds, q)
            else q in PathsOf(Leftover(adds, all)) && AddedAt(Leftover(adds, all), q) == AddedAt(adds, q)
  {
    assert AnyPath(all, adds, q);
    FreePath(all, adds, q);
    BelowSpec(adds, [], q);
    LeftoverSpec(adds, all, q);
    BelowSpec(Leftover(adds, all), [], q);
  }

  /** Above or below an addition nothing of the parent shows, unless the overlay of the
      leftovers clears it. */
  lemma AroundAddition(parent: Option<Node>, adds: seq<Item>, all: seq<Item>, p: Path, q: Path)
    requires JointlyFree(all, adds) && p != [] && q != [] && q in PathsOf(adds) && (q < p || p < q)
    requires AddedAt(all, p).None? && AddedAt(adds, p).None? && !Shadowed(all, p)
    ensures InnerLeaf(parent, adds, all, p) == None || Shadowed(Leftover(adds, all), p)
  {
    FramedAddition(all, adds, q);
    if Opened(all, ParentDir(q)) {
      if p < q {
        OpenedAbove(all, p, ParentDir(q));
        OpenedIsShadowed(all, p);
      } else {
        assert q == p[..|q|];
        assert FramedAt(all, adds, p[..|q|]).Some?;
      }
    }
  }

  lemma NotUnderFramed(all: seq<Item>, adds: seq<Item>, p: Path)
    requires !Shadowed(adds, p)
    ensures !UnderFramed(all, adds, p)
  {
    forall k | 1 <= k < |p| ensures FramedAt(all, adds, p[..k]).None? {
      BelowSpec(adds, [], p[..k]);
    }
  }

  lemma InnerOverlay(parent: Option<Node>, adds: seq<Item>, all: seq<Item>, p: Path)
    requires JointlyFree(all, adds) && p != [] && AddedAt(all, p).None? && AddedAt(adds, p).None?
    requires [] !in PathsOf(adds)
    ensures !Shadowed(all, p) && !Shadowed(adds, p) ==> InnerLeaf(parent, adds, all, p) == LeafAt(EntriesOf(parent), p)
    ensures Shadowed(all, p) || Shadowed(adds, p) ==>
      InnerLeaf(parent, adds, all, p) == None || Shadowed(Leftover(adds, all), p)
  {
    if !Shadowed(all, p) {
      if Shadowed(adds, p) {
        var q :| q in PathsOf(adds) && (q < p || p < q);
        AroundAddition(parent, adds, all, p, q);
      } else {
        NotUnderFramed(all, adds, p);
      }
    }
  }

  lemma LeftoverShadows(adds: seq<Item>, all: seq<Item>, p: Path)
    ensures Shadowed(Leftover(adds, all), p) ==> Shadowed(adds, p)
  {
    LeftoverSpec(adds, all, p);
    forall q | q in PathsOf(Leftover(adds, all)) ensures q in PathsOf(adds) {
      var a :| a in Leftover(adds, all) && a.path == q;
    }
  }

  /** One action is staged for each path. */
  ghost predicate StagedOnce(adds: seq<Item>, removed: set<Path>) {
    forall q :: q in PathsOf(adds) ==> q != [] && q !in removed
  }

  /** The walk leaves removed files out. */
  ghost predicate NoneRemoved(all: seq<Item>, removed: set<Path>) {
    forall q :: q in PathsOf(all) ==> !PathIsRemoved(q, removed)
  }

  /** A directory that a file of the walk opened lies under no removal, so neither do the
      additions it takes in; those below a removal are left over. */
  lemma FramedNotRemoved(all: seq<Item>, adds: seq<Item>, removed: set<Path>, q: Path)
    requires NoneRemoved(all, removed) && StagedOnce(adds, removed) && q in PathsOf(adds) && Opened(all, ParentDir(q))
    ensures !PathIsRemoved(q, removed)
  {
    var d := ParentDir(q);
    forall k | 1 <= k <= |q| ensures q[..k] !in removed {
      if k < |q| {
        var f :| f in PathsOf(all) && d < f;
        assert q[..k] == f[..k];
      } else {
        assert q[..k] == q;
      }
    }
  }

  /** A full commit is an overlay: with worktree and additions jointly prefix-free, one
      action staged for each path, and every removed leaf within pruning's reach. */
  lemma CommitIsOverlay(m: nat, parent: Option<Node>, adds: seq<Item>, all: seq<Item>, removed: set<Path>, inner: seq<Entry>, p: Path)
    requires InnerTree(m, parent, adds, all, inner) && p != []
    requires JointlyFree(all, adds) && NoneRemoved(all, removed) && StagedOnce(adds, removed)
    requires LeafAt(inner, p).Some? && PathIsRemoved(p, removed) ==> Prune.Reached(inner, [], p, removed)
    ensures FullLeaf(inner, adds, all, removed, p) == OverlayLeaf(parent, adds, all, removed, p)
  {
    BelowSpec(all, [], p);
    BelowSpec(adds, [], p);
    LeftoverSpec(adds, all, p);
    LeftoverShadows(adds, all, p);
    InnerAt(m, parent, adds, all, inner, p);
    hide InnerTree, JointlyFree, LeafAt, PathIsRemoved, Prune.Reached, Leftover, PathsOf, UnderFramed;
    if AddedAt(all, p).Some? {
      assert AnyPath(all, adds, p);
      FreePath(all, adds, p);
      assert Opened(all, ParentDir(p));
      assert !PathIsRemoved(p, removed);
    } else if AddedAt(adds, p).Some? {
      assert AnyPath(all, adds, p);
      FreePath(all, adds, p);
      FramedAddition(all, adds, p);
      if Opened(all, ParentDir(p)) {
        FramedNotRemoved(all, adds, removed, p);
      }
    } else {
      hide InnerLeaf, Shadowed, Opened;
      InnerOverlay(parent, adds, all, p);
    }
  }

  lemma InnerAt(m: nat, parent: Option<Node>, adds: seq<Item>, all: seq<Item>, inner: seq<Entry>, p: Path)
    requires InnerTree(m, parent, adds, all, inner) && p != []
    ensures LeafAt(inner, p) == InnerLeaf(parent, adds, all, p)
  {
  }

  /** Removals inside sharded directories name direct children. */
  ghost predicate DirectRemovals(inner: seq<Entry>, removed: set<Path>) {
    forall d :: d in removed ==> Prune.PlainAbove(inner, d)
  }

  /** Then pruning reaches every removed leaf, and the whole commit is an overlay. */
  lemma DirectCommitIsOverlay(m: nat, parent: Option<Node>, adds: seq<Item>, all: seq<Item>, removed: set<Path>, inner: seq<Entry>, p: Path)
    requires InnerTree(m, parent, adds, all, inner) && p != []
    requires JointlyFree(all, adds) && NoneRemoved(all, removed) && StagedOnce(adds, removed)
    requires DirectRemovals(inner, removed)
    ensures FullLeaf(inner, adds, all, removed, p) == OverlayLeaf(parent, adds, all, removed, p)
  {
    if LeafAt(inner, p).Some? && PathIsRemoved(p, removed) {
      var k :| 1 <= k <= |p| && p[..k] in removed;
      assert [] + p[..k] == p[..k];
      WellFormedIsSearchable(m, inner);
      hide *;
      RemovedDirectly(inner, removed, p, k);
    }
    hide *;
    CommitIsOverlay(m, parent, adds, all, removed, inner, p);
  }

  lemma RemovedDirectly(inner: seq<Entry>, removed: set<Path>, p: Path, k: nat)
    requires Searchable(inner) && DirectRemovals(inner, removed)
    requires 1 <= k <= |p| && p[..k] in removed && LeafAt(inner, p).Some?
    ensures Prune.Reached(inner, [], p, removed)
  {
    assert [] + p[..k] == p[..k];
    Prune.DirectRemovalsReached(inner, [], p, k, removed);
  }

  /** Jointly prefix-free additions never conflict. */
  lemma LeftoversFree(all: seq<Item>, adds: seq<Item>)
    requires JointlyFree(all, adds)
    ensures PrefixFree(Leftover(adds, all))
  {
    LeftoverSpec(adds, all, []);
    forall p, q | p in PathsOf(Leftover(adds, all)) && q in PathsOf(Leftover(adds, all)) ensures !(p < q) {
      assert AnyPath(all, adds, p) && AnyPath(all, adds, q);
    }
  }

  /** What a directory had under a name, read off the flat maps: a staged addition, or else
      the parent's leaf. */
  lemma FormerFile(parent: Option<Node>, adds: seq<Item>, p: Path)
    requires p != []
    ensures var c := FormerChild(parent, adds, ParentDir(p), BaseName(p));
      (if c.Some? && c.value.File? then Some(c.value.leaf) else None) ==
      if AddedAt(adds, p).Some? then AddedAt(adds, p) else LeafAt(EntriesOf(parent), p)
  {
    var d, n := ParentDir(p), BaseName(p);
    assert p == d + [n];
    if parent.Some? {
      LeafBelowDir(parent.value.entries, d, [n]);
    }
    LeafNamed(DirEntries(parent, d), n);
    NoLeaves();
  }

  lemma LeafNamed(es: seq<Entry>, n: Name)
    ensures LeafAt(es, [n]) == if Child(es, n).Some? && Child(es, n).value.File? then Some(Child(es, n).value.leaf) else None
  {
    var c := Child(es, n);
    assert [n][1..] == [];
    if c.Some? && c.value.Dir? {
      assert LeafAt(c.value.child.entries, [n][1..]) == None;
    }
  }

  lemma {:induction false} OnlyFile(all: seq<Item>, j: nat)
    requires j < |all| && forall i :: j < i < |all| ==> all[i].path != all[j].path
    ensures AddedAt(all, all[j].path) == Some(all[j].leaf)
  {
    if j < |all| - 1 {
      OnlyFile(all[..|all| - 1], j);
    }
  }

  /** A file of the walk in the committed tree: its own digest and size, unless mtimes are
      trusted and the leaf before it is content of the same size and mtime. */
  lemma CommittedFile(s: Settings, parent: Option<Node>, removed: set<Path>, files: seq<WorkFile>, adds: seq<Item>, all: seq<Item>, f: WorkFile)
    requires Walk(files) && CommittedAs(s, parent, adds, Kept(files, removed), all)
    requires f in files && forall q :: q in removed && q != [] ==> !(q <= f.path)
    ensures f.path != [] && AddedAt(all, f.path).Some?
    ensures var l := AddedAt(all, f.path).value;
      var before := if AddedAt(adds, f.path).Some? then AddedAt(adds, f.path) else LeafAt(EntriesOf(parent), f.path);
      s.contentMode && !(s.trustMtime && before.Some? && (before.value.kind == Blob || before.value.kind == BlobParquet) &&
                         before.value.size == f.size && before.value.mtime == f.mtime) ==>
        l.hash == OfBytes(f.content) && l.size == f.size
    ensures !s.contentMode ==> AddedAt(all, f.path).value.hash == OfPathAndSize(f.path, f.size)
  {
    KeptIsFilter(files, removed);
    KeptIsWalk(files, removed);
    var kept := Kept(files, removed);
    assert f in kept;
    hide Kept, Materialize, Walk;
    var j :| 0 <= j < |kept| && kept[j] == f;
    assert all[j] == Committed(s, parent, adds, f);
    WalkDistinct(s, parent, adds, kept, all, j);
    OnlyFile(all, j);
    FormerFile(parent, adds, f.path);
    MaterializedDigest(s, f, FormerChild(parent, adds, ParentDir(f.path), BaseName(f.path)));
  }

  lemma WalkDistinct(s: Settings, parent: Option<Node>, adds: seq<Item>, kept: seq<WorkFile>, all: seq<Item>, j: nat)
    requires Walk(kept) && CommittedAs(s, parent, adds, kept, all) && j < |all|
    ensures all[j].path == kept[j].path != []
    ensures forall i :: j < i < |all| ==> all[i].path != all[j].path
  {
    forall i | j < i < |all| ensures all[i].path != all[j].path {
      Rebuild.PathLessOneWay(kept[j].path, kept[i].path);
    }
  }

  /** The digest needs no assumption on the leaf before. */
  lemma MaterializedDigest(s: Settings, f: WorkFile, before: Option<Entry>)
    ensures var l := Materialize(s, f, before);
      && (s.contentMode && !(s.trustMtime && before.Some? && before.value.File? &&
                             (before.value.leaf.kind == Blob || before.value.leaf.kind == BlobParquet) &&
                             before.value.leaf.size == f.size && before.value.leaf.mtime == f.mtime) ==>
            l.hash == OfBytes(f.content) && l.size == f.size)
      && (!s.contentMode ==> l.hash == OfPathAndSize(f.path, f.size))
  {
  }

  /** `build_worktree_tree`: the inner build, the pruning of removals, and the overlay of
      the additions no directory took in. */
  method BuildWorktreeTree(m: nat, s: Settings, parent: Option<Node>, removed: set<Path>, files: seq<WorkFile>, adds: seq<Item>,
      ghost all: seq<Item>)
    returns (r: Result<Node>, ghost inner: Node)
    requires 2 <= m && PublishedParent(m, parent) && Walk(files)
    requires forall a :: a in adds ==> a.path != []
    requires CommittedAs(s, parent, adds, Kept(files, removed), all)
    requires Roomy(m, EntriesOf(parent), FilePaths(files) + PathsOf(adds))
    ensures InnerTree(m, parent, adds, all, inner.entries)
    ensures r.Success? <==> PrefixFree(Leftover(adds, all))
    ensures r.Success? ==>
      && WellFormed(m, r.value.entries)
      && forall p: Path :: p != [] ==> LeafAt(r.value.entries, p) == FullLeaf(inner.entries, adds, all, removed, p)
    ensures JointlyFree(all, adds) && StagedOnce(adds, removed) && DirectRemovals(inner.entries, removed) ==>
      && r.Success?
      && forall p: Path :: p != [] ==> LeafAt(r.value.entries, p) == OverlayLeaf(parent, adds, all, removed, p)
    ensures JointlyFree(all, adds) && StagedOnce(adds, removed) && DirectRemovals(inner.entries, removed) ==>
      forall f :: f in files && (forall q :: q in removed && q != [] ==> !(q <= f.path)) ==>
        var leaf := LeafAt(r.value.entries, f.path);
        var before := if AddedAt(adds, f.path).Some? then AddedAt(adds, f.path) else LeafAt(EntriesOf(parent), f.path);
        && leaf.Some?
        && (s.contentMode && !(s.trustMtime && before.Some? && (before.value.kind == Blob || before.value.kind == BlobParquet) &&
                               before.value.size == f.size && before.value.mtime == f.mtime) ==>
              leaf.value.hash == OfBytes(f.content) && leaf.value.size == f.size)
        && (!s.contentMode ==> leaf.value.hash == OfPathAndSize(f.path, f.size))
  {
    hide *;
    var root, leftoverDirs := BuildRoomy(m, s, parent, removed, files, adds, all);
    inner := root;
    var pruned := PruneRemoved(m, root, removed, parent, adds, all);
    var leftovers := InDirs(adds, leftoverDirs);
    LeftoverSpec(adds, all, []);
    r := OverlayLeftovers(m, pruned, leftovers);
    if r.Success? {
      forall p: Path | p != [] ensures LeafAt(r.value.entries, p) == FullLeaf(root.entries, adds, all, removed, p) {
        FullLeafIs(root.entries, adds, all, removed, p);
      }
      FullFits(m, s, parent, removed, files, adds, all, root.entries, r.value.entries);
    }
    if JointlyFree(all, adds) && StagedOnce(adds, removed) && DirectRemovals(root.entries, removed) {
      LeftoversFree(all, adds);
      WalkedNotRemoved(s, parent, adds, files, removed, all);
      forall p: Path | p != [] ensures LeafAt(r.value.entries, p) == OverlayLeaf(parent, adds, all, removed, p) {
        DirectCommitIsOverlay(m, parent, adds, all, removed, root.entries, p);
      }
      forall f | f in files && (forall q :: q in removed && q != [] ==> !(q <= f.path))
        ensures f.path != [] && AddedAt(all, f.path).Some? &&
                OverlayLeaf(parent, adds, all, removed, f.path) == AddedAt(all, f.path)
        ensures var leaf := AddedAt(all, f.path);
          var before := if AddedAt(adds, f.path).Some? then AddedAt(adds, f.path) else LeafAt(EntriesOf(parent), f.path);
          && (s.contentMode && !(s.trustMtime && before.Some? && (before.value.kind == Blob || before.value.kind == BlobParquet) &&
                                 before.value.size == f.size && before.value.mtime == f.mtime) ==>
                leaf.value.hash == OfBytes(f.content) && leaf.value.size == f.size)
          && (!s.contentMode ==> leaf.value.hash == OfPathAndSize(f.path, f.size))
      {
        CommittedFile(s, parent, removed, files, adds, all, f);
        FilesFirst(parent, adds, all, removed, f.path);
      }
    }
  }

  lemma FilesFirst(parent: Option<Node>, adds: seq<Item>, all: seq<Item>, removed: set<Path>, p: Path)
    requires AddedAt(all, p).Some?
    ensures OverlayLeaf(parent, adds, all, removed, p) == AddedAt(all, p)
  {
  }

  lemma WalkedNotRemoved(s: Settings, parent: Option<Node>, adds: seq<Item>, files: seq<WorkFile>, removed: set<Path>, all: seq<Item>)
    requires CommittedAs(s, parent, adds, Kept(files, removed), all)
    ensures NoneRemoved(all, removed)
  {
    CommittedPaths(s, parent, adds, files, removed, all);
  }

  lemma FullLeafIs(inner: seq<Entry>, adds: seq<Item>, all: seq<Item>, removed: set<Path>, p: Path)
    requires p != []
    ensures FullLeaf(inner, adds, all, removed, p) ==
            SplicedLeaf(Prune.PrunedLeaf(LeafAt(inner, p), p, Prune.Reached(inner, [], p, removed), removed),
                        p, Leftover(adds, all), {})
  {
  }

  method PruneRemoved(m: nat, root: Node, removed: set<Path>, ghost parent: Option<Node>, ghost adds: seq<Item>, ghost all: seq<Item>)
    returns (pruned: Node)
    requires 2 <= m && InnerTree(m, parent, adds, all, root.entries)
    ensures WellFormed(m, pruned.entries)
    ensures forall p: Path :: p != [] ==>
      LeafAt(pruned.entries, p) ==
      Prune.PrunedLeaf(LeafAt(root.entries, p), p, Prune.Reached(root.entries, [], p, removed), removed)
  {
    assert WellFormed(m, root.entries);
    hide WellFormed, InnerTree, LeafAt, Prune.Reached;
    if removed == {} {
      return root;
    }
    var left := Prune.PruneTree(m, root, removed);
    if left.Some? {
      pruned := left.value;
    } else {
      var empty := WriteNode([]);
      pruned := empty.value;
      EmptyIsWellFormed(m);
    }
    assert pruned.entries == EntriesOf(left);
  }

  lemma EmptyIsWellFormed(m: nat)
    ensures WellFormed(m, [])
  {
  }

  method OverlayLeftovers(m: nat, root: Node, leftovers: seq<Item>) returns (r: Result<Node>)
    requires 2 <= m && WellFormed(m, root.entries)
    requires forall a :: a in leftovers ==> a.path != []
    ensures r.Success? <==> PrefixFree(leftovers)
    ensures r.Success? ==> Finished(m, r.value.entries)
    ensures r.Success? ==> forall p: Path :: p != [] ==>
      LeafAt(r.value.entries, p) == SplicedLeaf(LeafAt(root.entries, p), p, leftovers, {})
  {
    if leftovers == [] {
      WellFormedIsSearchable(m, root.entries);
      return Success(root);
    }
    Rebuild.SortByPathSpec(leftovers);
    hide LeafAt, Searchable, WellFormed, Fits, Rebuild.SortByPath, AddedAt, PathIsRemoved;
    r := SpliceTree(m, root, Rebuild.SortByPath(leftovers), {});
  }
}
