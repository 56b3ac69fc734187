/** Structural diff: two trees compared directory by directory, equal subtrees skipped. */
module Diff {
  import opened Paths
  import opened Trees
  import opened Shards
  import Query
  import Rebuild
  import Splice

  /** What a diff compares of a leaf. */
  datatype Stat = Stat(hash: Hash, size: nat)

  datatype Kind = Added | Removed | Modified

  datatype Change = Change(path: Path, kind: Kind, before: Option<Stat>, after: Option<Stat>)

  function StatOf(l: Option<Leaf>): Option<Stat> {
    if l.Some? then Some(Stat(l.value.hash, l.value.size)) else None
  }

  // ---- What a diff reports --------------------------------------------------

  /** `c` tells the difference between the two leaves at its path. */
  predicate Tells(c: Change, before: Option<Leaf>, after: Option<Leaf>) {
    && c.before == StatOf(before) && c.after == StatOf(after) && c.before != c.after
    && c.kind == if before.None? then Added else if after.None? then Removed else Modified
  }

  predicate Once(cs: seq<Change>) {
    forall i, j :: 0 <= i < j < |cs| ==> cs[i].path != cs[j].path
  }

  predicate Mentions(cs: seq<Change>, p: Path) {
    exists c :: c in cs && c.path == p
  }

  /** `cs` reports every difference below the names in `seen` of `dir`, each once. */
  ghost predicate Reports(dir: Path, seen: iset<Name>, a: seq<Entry>, b: seq<Entry>, cs: seq<Change>) {
    && Once(cs)
    && (forall c :: c in cs ==>
          dir < c.path && c.path[|dir|] in seen &&
          Tells(c, LeafAt(a, c.path[|dir|..]), LeafAt(b, c.path[|dir|..])))
    && (forall p: Path :: p != [] && p[0] in seen && StatOf(LeafAt(a, p)) != StatOf(LeafAt(b, p)) ==>
          Mentions(cs, dir + p))
  }

  /** The same for the child `n` alone. */
  ghost predicate ReportsChild(dir: Path, n: Name, before: Option<Entry>, after: Option<Entry>, cs: seq<Change>) {
    && Once(cs)
    && (forall c :: c in cs ==>
          dir < c.path && c.path[|dir|] == n &&
          Tells(c, LeafIn(before, c.path[|dir|..]), LeafIn(after, c.path[|dir|..])))
    && (forall p: Path :: p != [] && p[0] == n && StatOf(LeafIn(before, p)) != StatOf(LeafIn(after, p)) ==>
          Mentions(cs, dir + p))
  }

  lemma ReportsNext(dir: Path, seen: iset<Name>, a: seq<Entry>, b: seq<Entry>, cs: seq<Change>, n: Name, next: seq<Change>)
    requires Reports(dir, seen, a, b, cs) && n !in seen
    requires ReportsChild(dir, n, Child(a, n), Child(b, n), next)
    ensures Reports(dir, seen + iset{n}, a, b, cs + next)
  {
    hide Child, LeafIn;
    var all := cs + next;
    forall p: Path | Mentions(cs, p) || Mentions(next, p) ensures Mentions(all, p) {
      var c :| (c in cs || c in next) && c.path == p;
      assert c in all;
    }
    forall i, j | 0 <= i < |cs| && 0 <= j < |next| ensures cs[i].path != next[j].path {
      assert cs[i] in cs && next[j] in next;
    }
  }

  /** The whole of two directories compared. */
  ghost predicate Compared(dir: Path, a: seq<Entry>, b: seq<Entry>, cs: seq<Change>) {
    && Once(cs)
    && (forall c :: c in cs ==>
          dir < c.path && Tells(c, LeafAt(a, c.path[|dir|..]), LeafAt(b, c.path[|dir|..])))
    && (forall p: Path :: p != [] && StatOf(LeafAt(a, p)) != StatOf(LeafAt(b, p)) ==> Mentions(cs, dir + p))
  }

  lemma ReportsAll(dir: Path, seen: iset<Name>, a: seq<Entry>, b: seq<Entry>, cs: seq<Change>)
    requires Reports(dir, seen, a, b, cs)
    requires forall n: Name :: n !in seen ==> Child(a, n).None? && Child(b, n).None?
    ensures Compared(dir, a, b, cs)
  {
  }

  // ---- One side only --------------------------------------------------------

  /** The leaves of a listing, moved below `path`. */
  function Moved(path: Path, xs: seq<Item>): seq<Item> {
    seq(|xs|, i requires 0 <= i < |xs| => Item(path + xs[i].path, xs[i].leaf))
  }

  function OneSided(x: Item, added: bool): Change {
    var stat := StatOf(Some(x.leaf));
    if added then Change(x.path, Added, None, stat) else Change(x.path, Removed, stat, None)
  }

  function OneSidedAll(xs: seq<Item>, added: bool): seq<Change> {
    seq(|xs|, i requires 0 <= i < |xs| => OneSided(xs[i], added))
  }

  /** `xs` are the leaves below the child `e` of `dir`. */
  ghost predicate LeavesOf(dir: Path, e: Entry, xs: seq<Item>) {
    && Rebuild.DistinctPaths(xs)
    && (forall x :: x in xs ==> dir < x.path && x.path[|dir|] == e.name && LeafIn(Some(e), x.path[|dir|..]) == Some(x.leaf))
    && (forall p: Path :: p != [] && p[0] == e.name && LeafIn(Some(e), p).Some? ==>
          Item(dir + p, LeafIn(Some(e), p).value) in xs)
  }

  lemma ReportedLeaf(dir: Path, e: Entry, xs: seq<Item>, added: bool, c: Change)
    requires LeavesOf(dir, e, xs) && c in OneSidedAll(xs, added)
    ensures dir < c.path && c.path[|dir|] == e.name
    ensures LeafIn(Some(e), c.path[|dir|..]).Some? &&
            c == OneSided(Item(c.path, LeafIn(Some(e), c.path[|dir|..]).value), added)
  {
    hide LeafIn;
    var cs := OneSidedAll(xs, added);
    var i :| 0 <= i < |cs| && cs[i] == c;
    assert xs[i] in xs && c == OneSided(xs[i], added);
  }

  lemma MentionedLeaf(dir: Path, e: Entry, xs: seq<Item>, added: bool, p: Path)
    requires LeavesOf(dir, e, xs) && p != [] && p[0] == e.name && LeafIn(Some(e), p).Some?
    ensures Mentions(OneSidedAll(xs, added), dir + p)
  {
    hide LeafIn;
    var cs := OneSidedAll(xs, added);
    var i :| 0 <= i < |xs| && xs[i] == Item(dir + p, LeafIn(Some(e), p).value);
    assert cs[i] in cs && cs[i].path == dir + p;
  }

  lemma LeavesReported(dir: Path, e: Entry, xs: seq<Item>, added: bool)
    requires !e.Shard? && LeavesOf(dir, e, xs)
    ensures var before := if added then None else Some(e);
      var after := if added then Some(e) else None;
      ReportsChild(dir, e.name, before, after, OneSidedAll(xs, added))
  {
    var cs := OneSidedAll(xs, added);
    assert Once(cs) by {
      assert forall i :: 0 <= i < |cs| ==> cs[i].path == xs[i].path;
    }
    hide LeafIn, LeavesOf, OneSidedAll, Once;
    forall p: Path | p != [] ensures LeafIn(None, p) == None { NoChildNoLeaf(p); }
    forall c | c in cs
      ensures dir < c.path && c.path[|dir|] == e.name
      ensures LeafIn(Some(e), c.path[|dir|..]).Some? &&
              c == OneSided(Item(c.path, LeafIn(Some(e), c.path[|dir|..]).value), added)
    {
      ReportedLeaf(dir, e, xs, added, c);
    }
    forall p: Path | p != [] && p[0] == e.name && LeafIn(Some(e), p).Some?
      ensures Mentions(cs, dir + p)
    {
      MentionedLeaf(dir, e, xs, added, p);
    }
    hide Mentions;
  }

  lemma NoChildNoLeaf(p: Path)
    requires p != []
    ensures LeafIn(None, p) == None
  {
  }

  lemma FlattenDistinct(es: seq<Entry>)
    requires Searchable(es)
    ensures Rebuild.DistinctPaths(Query.Flatten(es, []))
  {
    var xs := Query.Flatten(es, []);
    Query.FlattenAscends(es, []);
    forall i, j | 0 <= i < j < |xs| ensures xs[i].path != xs[j].path {
      Rebuild.PathLessOneWay(xs[i].path, xs[j].path);
    }
  }

  lemma MovedDistinct(path: Path, xs: seq<Item>)
    requires Rebuild.DistinctPaths(xs)
    ensures Rebuild.DistinctPaths(Moved(path, xs))
  {
    var ys := Moved(path, xs);
    forall i, j | 0 <= i < j < |ys| ensures ys[i].path != ys[j].path {
      assert xs[i].path == ys[i].path[|path|..] && xs[j].path == ys[j].path[|path|..];
    }
  }

  lemma MovedLeaf(dir: Path, e: Entry, x: Item)
    requires e.Dir? && Searchable(e.child.entries)
    requires x in Moved(dir + [e.name], Query.Flatten(e.child.entries, []))
    ensures dir < x.path && x.path[|dir|] == e.name && LeafIn(Some(e), x.path[|dir|..]) == Some(x.leaf)
  {
    var path, fs := dir + [e.name], Query.Flatten(e.child.entries, []);
    var xs := Moved(path, fs);
    var i :| 0 <= i < |xs| && xs[i] == x;
    Query.FlattenSound(e.child.entries, [], fs[i]);
    hide Query.Flatten, Searchable;
    var q := fs[i].path;
    assert x.path == path + q && q[0..] == q;
    assert x.path[|dir|..] == [e.name] + q && ([e.name] + q)[1..] == q;
  }

  lemma LeafIsMoved(dir: Path, e: Entry, p: Path)
    requires e.Dir? && Searchable(e.child.entries)
    requires p != [] && p[0] == e.name && LeafIn(Some(e), p).Some?
    ensures Item(dir + p, LeafIn(Some(e), p).value) in Moved(dir + [e.name], Query.Flatten(e.child.entries, []))
  {
    var path, es := dir + [e.name], e.child.entries;
    var fs := Query.Flatten(es, []);
    assert LeafIn(Some(e), p) == LeafAt(es, p[1..]);
    Query.FlattenComplete(es, [], p[1..]);
    hide Query.Flatten, Searchable, LeafIn, LeafAt;
    assert [] + p[1..] == p[1..];
    var i :| 0 <= i < |fs| && fs[i] == Item(p[1..], LeafAt(es, p[1..]).value);
    assert path + p[1..] == dir + p;
    assert Moved(path, fs)[i] == Item(dir + p, LeafIn(Some(e), p).value);
  }

  /** The leaves of a subdirectory, moved below it. */
  lemma SubtreeLeaves(dir: Path, e: Entry, xs: seq<Item>)
    requires e.Dir? && Searchable(e.child.entries)
    requires xs == Moved(dir + [e.name], Query.Flatten(e.child.entries, []))
    ensures LeavesOf(dir, e, xs)
  {
    FlattenDistinct(e.child.entries);
    MovedDistinct(dir + [e.name], Query.Flatten(e.child.entries, []));
    hide Query.Flatten, Searchable, LeafIn, Moved;
    forall x | x in xs
      ensures dir < x.path && x.path[|dir|] == e.name && LeafIn(Some(e), x.path[|dir|..]) == Some(x.leaf)
    {
      MovedLeaf(dir, e, x);
    }
    forall p: Path | p != [] && p[0] == e.name && LeafIn(Some(e), p).Some?
      ensures Item(dir + p, LeafIn(Some(e), p).value) in xs
    {
      LeafIsMoved(dir, e, p);
    }
  }

  lemma FileLeaf(dir: Path, e: Entry)
    requires e.File?
    ensures LeavesOf(dir, e, [Item(dir + [e.name], e.leaf)])
  {
    assert (dir + [e.name])[|dir|..] == [e.name];
    forall p: Path | p != [] && p[0] == e.name && LeafIn(Some(e), p).Some? ensures p == [e.name] {
    }
  }

  lemma SortedLeaves(dir: Path, e: Entry, xs: seq<Item>)
    requires LeavesOf(dir, e, xs)
    ensures LeavesOf(dir, e, Rebuild.SortByPath(xs))
  {
    Rebuild.SortByPathSpec(xs);
    Rebuild.SortByPathDistinct(xs);
    hide LeafIn, Rebuild.SortByPath;
  }

  lemma OneInOrder(x: Item)
    ensures Rebuild.StringSorted([x])
  {
  }

  lemma InStringOrder(xs: seq<Item>, added: bool)
    requires Rebuild.StringSorted(xs)
    ensures var cs := OneSidedAll(xs, added);
      forall i, j :: 0 <= i < j < |cs| ==> LexLess(Join(cs[i].path), Join(cs[j].path))
  {
    forall i, j | 0 <= i < j < |xs| ensures LexLess(Join(xs[i].path), Join(xs[j].path)) {
      Rebuild.StringSortedFar(xs, i, j);
      LtIsLexicographic(Join(xs[i].path), Join(xs[j].path));
    }
    hide LexLess, Join;
  }

  /** `_emit_change`: one child present on one side only, expanded into its leaves in the
      order of their path strings. */
  method EmitChange(dir: Path, e: Entry, added: bool) returns (cs: seq<Change>)
    requires !e.Shard? && (e.Dir? ==> Searchable(e.child.entries))
    ensures ReportsChild(dir, e.name, if added then None else Some(e), if added then Some(e) else None, cs)
    ensures forall i, j :: 0 <= i < j < |cs| ==> LexLess(Join(cs[i].path), Join(cs[j].path))
  {
    hide LexLess, Join, LeafIn, Rebuild.SortByPath, Rebuild.StringSorted, ReportsChild, OneSidedAll;
    var xs;
    if e.Dir? {
      var leaves := Query.IterAllEntries(e.child);
      xs := Moved(dir + [e.name], leaves);
      SubtreeLeaves(dir, e, xs);
      SortedLeaves(dir, e, xs);
      Rebuild.SortedIsStringSorted(xs);
      xs := Rebuild.SortByPath(xs);
    } else {
      xs := [Item(dir + [e.name], e.leaf)];
      FileLeaf(dir, e);
      OneInOrder(xs[0]);
    }
    LeavesReported(dir, e, xs, added);
    InStringOrder(xs, added);
    cs := OneSidedAll(xs, added);
  }

  // ---- Both sides -----------------------------------------------------------

  /** A file replaced by a directory, or the other way round: both sides in full. */
  lemma ShapeChange(dir: Path, before: Entry, after: Entry, gone: seq<Change>, come: seq<Change>)
    requires before.name == after.name && !before.Shard? && !after.Shard? && (before.File? <==> after.Dir?)
    requires ReportsChild(dir, before.name, Some(before), None, gone)
    requires ReportsChild(dir, before.name, None, Some(after), come)
    ensures ReportsChild(dir, before.name, Some(before), Some(after), gone + come)
  {
    var cs, n := gone + come, before.name;
    forall p: Path | p != [] && p[0] == n
      ensures LeafIn(Some(before), p).None? || LeafIn(Some(after), p).None?
    {
      DirHasNoLeaf(before, p);
      DirHasNoLeaf(after, p);
    }
    forall p: Path | p != [] ensures LeafIn(None, p) == None { NoChildNoLeaf(p); }
    hide LeafIn;
    forall p: Path | Mentions(gone, p) || Mentions(come, p) ensures Mentions(cs, p) {
      var c :| (c in gone || c in come) && c.path == p;
      assert c in cs;
    }
    forall i, j | 0 <= i < |gone| && 0 <= j < |come| ensures gone[i].path != come[j].path {
      assert gone[i] in gone && come[j] in come;
    }
    forall c | c in cs
      ensures dir < c.path && c.path[|dir|] == n &&
              Tells(c, LeafIn(Some(before), c.path[|dir|..]), LeafIn(Some(after), c.path[|dir|..]))
    {
    }
  }

  lemma DirHasNoLeaf(e: Entry, p: Path)
    requires !e.Shard? && p != []
    ensures e.Dir? && |p| == 1 ==> LeafIn(Some(e), p) == None
    ensures e.File? && |p| > 1 ==> LeafIn(Some(e), p) == None
  {
  }

  lemma ModifiedFile(dir: Path, before: Entry, after: Entry)
    requires before.File? && after.File? && before.name == after.name
    ensures var b, a := StatOf(Some(before.leaf)), StatOf(Some(after.leaf));
      ReportsChild(dir, before.name, Some(before), Some(after),
                   if b != a then [Change(dir + [before.name], Modified, b, a)] else [])
  {
    var n, b, a := before.name, StatOf(Some(before.leaf)), StatOf(Some(after.leaf));
    var cs := if b != a then [Change(dir + [n], Modified, b, a)] else [];
    assert (dir + [n])[|dir|..] == [n];
    forall p: Path | p != [] && p[0] == n && StatOf(LeafIn(Some(before), p)) != StatOf(LeafIn(Some(after), p))
      ensures Mentions(cs, dir + p)
    {
      assert p == [n];
      assert cs[0] in cs;
    }
  }

  lemma SubtreesCompared(dir: Path, before: Entry, after: Entry, cs: seq<Change>)
    requires before.Dir? && after.Dir? && before.name == after.name
    requires Compared(dir + [before.name], before.child.entries, after.child.entries, cs)
    ensures ReportsChild(dir, before.name, Some(before), Some(after), cs)
  {
    var n := before.name;
    var path := dir + [n];
    forall c | c in cs
      ensures dir < c.path && c.path[|dir|] == n &&
              Tells(c, LeafIn(Some(before), c.path[|dir|..]), LeafIn(Some(after), c.path[|dir|..]))
    {
      assert c.path[|dir|..][1..] == c.path[|path|..];
      assert c.path[|dir|] == path[|dir|];
    }
    forall p: Path | p != [] && p[0] == n && StatOf(LeafIn(Some(before), p)) != StatOf(LeafIn(Some(after), p))
      ensures Mentions(cs, dir + p)
    {
      DirHasNoLeaf(before, p);
      DirHasNoLeaf(after, p);
      assert path + p[1..] == dir + p;
    }
  }

  lemma SameChild(dir: Path, n: Name, e: Option<Entry>)
    ensures ReportsChild(dir, n, e, e, [])
  {
  }

  lemma SameTree(dir: Path, es: seq<Entry>)
    ensures Compared(dir, es, es, [])
  {
  }

  lemma SearchableChild(m: nat, n: Name, e: Option<Entry>)
    requires PublishedChild(m, n, e)
    ensures e.Some? && e.value.Dir? ==> Searchable(e.value.child.entries)
  {
    if e.Some? && e.value.Dir? {
      WellFormedIsSearchable(m, e.value.child.entries);
    }
  }

  /** One turn of the loop over the child names. */
  method DiffChild(m: nat, dir: Path, n: Name, before: Option<Entry>, after: Option<Entry>) returns (cs: seq<Change>)
    requires PublishedChild(m, n, before) && PublishedChild(m, n, after)
    requires before.Some? || after.Some?
    ensures ReportsChild(dir, n, before, after, cs)
    decreases if before.Some? then Height([before.value]) else 0, 0
  {
    SearchableChild(m, n, before);
    SearchableChild(m, n, after);
    hide ReportsChild, Compared, Searchable, WellFormed;
    if before.None? {
      cs := EmitChange(dir, after.value, true);
    } else if after.None? {
      cs := EmitChange(dir, before.value, false);
    } else if before.value.Dir? && after.value.Dir? {
      SameChild(dir, n, before);
      cs := [];
      if before.value.child != after.value.child {
        HeightOfMember([before.value], before.value);
        cs := DiffSubtrees(m, dir + [n], before.value.child, after.value.child);
        SubtreesCompared(dir, before.value, after.value, cs);
      }
    } else if before.value.Dir? || after.value.Dir? {
      var gone := EmitChange(dir, before.value, false);
      var come := EmitChange(dir, after.value, true);
      ShapeChange(dir, before.value, after.value, gone, come);
      cs := gone + come;
    } else {
      ModifiedFile(dir, before.value, after.value);
      var b, a := StatOf(Some(before.value.leaf)), StatOf(Some(after.value.leaf));
      cs := if b != a then [Change(dir + [n], Modified, b, a)] else [];
    }
  }

  /** The changes come name by name. */
  ghost predicate NameByName(dir: Path, cs: seq<Change>) {
    && (forall c :: c in cs ==> dir < c.path)
    && (forall i, j :: 0 <= i < j < |cs| ==> !Lt(cs[j].path[|dir|], cs[i].path[|dir|]))
  }

  lemma NameNext(names: seq<Name>, i: nat)
    requires Ascending(names) && i < |names|
    ensures names[i] !in names[..i] && names[i] in names && names[..i + 1] == names[..i] + [names[i]]
    ensures forall k :: k in names[..i] ==> Lt(k, names[i])
  {
  }

  lemma OfOneName(dir: Path, n: Name, before: Option<Entry>, after: Option<Entry>, cs: seq<Change>)
    requires ReportsChild(dir, n, before, after, cs)
    ensures forall c :: c in cs ==> dir < c.path && c.path[|dir|] == n
  {
  }

  lemma NextName(dir: Path, seen: seq<Name>, cs: seq<Change>, n: Name, next: seq<Change>)
    requires NameByName(dir, cs) && forall c :: c in cs ==> c.path[|dir|] in seen
    requires forall k :: k in seen ==> Lt(k, n)
    requires forall c :: c in next ==> dir < c.path && c.path[|dir|] == n
    ensures NameByName(dir, cs + next)
    ensures forall c :: c in cs + next ==> c.path[|dir|] in seen + [n]
  {
    var all := cs + next;
    assert forall i :: 0 <= i < |cs| ==> all[i] == cs[i] && cs[i] in cs;
    assert forall i :: |cs| <= i < |all| ==> all[i] == next[i - |cs|] && next[i - |cs|] in next;
  }

  lemma NamesAscend(dir: Path, cs: seq<Change>)
    requires NameByName(dir, cs)
    ensures forall i, j :: 0 <= i < j < |cs| ==>
      dir < cs[i].path && dir < cs[j].path && !LexLess(cs[j].path[|dir|], cs[i].path[|dir|])
  {
    forall i, j | 0 <= i < j < |cs|
      ensures dir < cs[i].path && dir < cs[j].path && !LexLess(cs[j].path[|dir|], cs[i].path[|dir|])
    {
      assert cs[i] in cs && cs[j] in cs;
      LtIsLexicographic(cs[j].path[|dir|], cs[i].path[|dir|]);
    }
  }

  /** `_diff_trees`: subtrees that are the same are skipped, and the others compared name by name. */
  method DiffSubtrees(m: nat, dir: Path, a: Node, b: Node) returns (cs: seq<Change>)
    requires WellFormed(m, a.entries) && WellFormed(m, b.entries)
    ensures Compared(dir, a.entries, b.entries, cs)
    ensures NameByName(dir, cs)
    decreases Height(a.entries), 1
  {
    SameTree(dir, a.entries);
    if a == b {
      return [];
    }
    var from := ExpandShards(a.entries);
    var to := ExpandShards(b.entries);
    ExpandListed(m, a.entries);
    ExpandListed(m, b.entries);
    NothingYet(dir, a.entries, b.entries);
    hide Ascending, Lt, Reports, ReportsChild, NameByName, Compared, WellFormed, Expand, Height, Child, PublishedChild, LeafAt;
    var names := SortedNames(NameSet(from) + NameSet(to));
    cs := [];
    ghost var seen: iset<Name> := iset{};
    for i := 0 to |names|
      invariant forall n :: n in seen <==> n in names[..i]
      invariant Reports(dir, seen, a.entries, b.entries, cs)
      invariant NameByName(dir, cs) && forall c :: c in cs ==> c.path[|dir|] in names[..i]
    {
      var n := names[i];
      NameNext(names, i);
      assert n in NameSet(from) || n in NameSet(to);
      var next := DiffChild(m, dir, n, Child(from, n), Child(to, n));
      ReportsNext(dir, seen, a.entries, b.entries, cs, n, next);
      OfOneName(dir, n, Child(from, n), Child(to, n), next);
      NextName(dir, names[..i], cs, n, next);
      cs, seen := cs + next, seen + iset{n};
    }
    assert names[..|names|] == names;
    ReportsAll(dir, seen, a.entries, b.entries, cs);
  }

  /** A comparison, said on the fields of the leaves themselves. */
  lemma ComparedByFields(dir: Path, a: seq<Entry>, b: seq<Entry>, cs: seq<Change>)
    requires Compared(dir, a, b, cs)
    ensures forall i, j :: 0 <= i < j < |cs| ==> cs[i].path != cs[j].path
    ensures forall c :: c in cs ==>
      && dir < c.path
      && var x, y := LeafAt(a, c.path[|dir|..]), LeafAt(b, c.path[|dir|..]);
         && c.before == (if x.Some? then Some(Stat(x.value.hash, x.value.size)) else None)
         && c.after == (if y.Some? then Some(Stat(y.value.hash, y.value.size)) else None)
         && (c.kind == Added <==> x.None?) && (c.kind == Removed <==> y.None?)
    ensures forall p: Path :: p != [] ==>
      var x, y := LeafAt(a, p), LeafAt(b, p);
      (exists c :: c in cs && c.path == dir + p) <==>
      (x.Some? != y.Some? || (x.Some? && y.Some? && (x.value.hash != y.value.hash || x.value.size != y.value.size)))
  {
    hide LeafAt;
    forall p: Path | p != []
      ensures var x, y := LeafAt(a, p), LeafAt(b, p);
        (exists c :: c in cs && c.path == dir + p) <==>
        (x.Some? != y.Some? || (x.Some? && y.Some? && (x.value.hash != y.value.hash || x.value.size != y.value.size)))
    {
      assert (dir + p)[|dir|..] == p;
      assert Mentions(cs, dir + p) <==> exists c :: c in cs && c.path == dir + p;
    }
  }

  lemma NothingYet(dir: Path, a: seq<Entry>, b: seq<Entry>)
    ensures Reports(dir, iset{}, a, b, [])
  {
  }

  // ---- Changes carry one tree to the other ----------------------------------

  /** `diff_trees`: reports each path exactly once, and exactly where the two flat maps
      differ in presence, hash or size; names at the root come in order. */
  method DiffTrees(m: nat, a: Node, b: Node) returns (cs: seq<Change>)
    requires WellFormed(m, a.entries) && WellFormed(m, b.entries)
    ensures Compared([], a.entries, b.entries, cs)
    ensures forall i, j :: 0 <= i < j < |cs| ==> cs[i].path != cs[j].path
    ensures forall c :: c in cs ==>
      && c.path != []
      && var x, y := LeafAt(a.entries, c.path), LeafAt(b.entries, c.path);
         && c.before == (if x.Some? then Some(Stat(x.value.hash, x.value.size)) else None)
         && c.after == (if y.Some? then Some(Stat(y.value.hash, y.value.size)) else None)
         && (c.kind == Added <==> x.None?) && (c.kind == Removed <==> y.None?)
    ensures forall p: Path :: p != [] ==>
      var x, y := LeafAt(a.entries, p), LeafAt(b.entries, p);
      (exists c :: c in cs && c.path == p) <==>
      (x.Some? != y.Some? || (x.Some? && y.Some? && (x.value.hash != y.value.hash || x.value.size != y.value.size)))
    ensures forall i, j :: 0 <= i < j < |cs| ==>
      cs[i].path != [] && cs[j].path != [] && !LexLess(cs[j].path[0], cs[i].path[0])
  {
    hide LexLess, WellFormed, LeafAt, Compared;
    cs := DiffSubtrees(m, [], a, b);
    NamesAscend([], cs);
    ComparedByFields([], a.entries, b.entries, cs);
    assert forall p: Path :: [] + p == p && p[0..] == p;
  }

  /** The additions and removals a list of changes amounts to, with the leaves of the second tree. */
  ghost predicate Patch(cs: seq<Change>, b: seq<Entry>, adds: seq<Item>, removed: set<Path>) {
    && (forall x :: x in adds ==> LeafAt(b, x.path) == Some(x.leaf))
    && (forall p: Path :: p in Splice.PathsOf(adds) <==> exists c :: c in cs && c.path == p && c.after.Some?)
    && (forall p: Path :: p in removed <==> exists c :: c in cs && c.path == p && c.after.None?)
  }

  /** Splicing what a diff reports into the first tree gives the second tree's hashes
      and sizes, at every path. */
  lemma DiffThenSplice(a: seq<Entry>, b: seq<Entry>, cs: seq<Change>, adds: seq<Item>, removed: set<Path>, p: Path)
    requires Compared([], a, b, cs) && Patch(cs, b, adds, removed) && p != []
    ensures Splice.PrefixFree(adds)
    ensures var x, y := Splice.SplicedLeaf(LeafAt(a, p), p, adds, removed), LeafAt(b, p);
      x.Some? == y.Some? && (y.Some? ==> x.value.hash == y.value.hash && x.value.size == y.value.size)
  {
    forall q | q in Splice.PathsOf(adds) ensures LeafAt(b, q).Some? {
      var x :| x in adds && x.path == q;
    }
    forall q, r | q in Splice.PathsOf(adds) && r in Splice.PathsOf(adds) ensures !(q < r) {
      Rebuild.LeavesDoNotNest(b, q, r);
    }
    Splice.BelowSpec(adds, [], p);
    if Splice.AddedAt(adds, p).Some? {
      Rebuild.AddedIsMember(adds, p);
    } else {
      NotAdded(a, b, cs, adds, removed, p);
    }
  }

  lemma ChangeAt(a: seq<Entry>, b: seq<Entry>, cs: seq<Change>, p: Path)
    requires Compared([], a, b, cs) && p != []
    ensures forall c :: c in cs && c.path == p ==> Tells(c, LeafAt(a, p), LeafAt(b, p))
    ensures StatOf(LeafAt(a, p)) != StatOf(LeafAt(b, p)) ==> exists c :: c in cs && c.path == p
  {
    assert p[0..] == p && [] + p == p;
  }

  lemma NotAdded(a: seq<Entry>, b: seq<Entry>, cs: seq<Change>, adds: seq<Item>, removed: set<Path>, p: Path)
    requires Compared([], a, b, cs) && Patch(cs, b, adds, removed) && p != []
    requires p !in Splice.PathsOf(adds)
    ensures Splice.PathIsRemoved(p, removed) || Splice.Shadowed(adds, p) ==> LeafAt(b, p).None?
    ensures !Splice.PathIsRemoved(p, removed) ==> StatOf(LeafAt(a, p)) == StatOf(LeafAt(b, p))
  {
    ChangeAt(a, b, cs, p);
    hide LeafAt, Compared;
    assert p[..|p|] == p;
    if Splice.PathIsRemoved(p, removed) {
      var k :| 1 <= k <= |p| && p[..k] in removed;
      ChangeAt(a, b, cs, p[..k]);
      if k < |p| {
        var c :| c in cs && c.path == p[..k] && c.after.None?;
        assert LeafAt(a, p[..k]).Some?;
        if LeafAt(a, p).Some? {
          Rebuild.LeavesDoNotNest(a, p[..k], p);
        }
      }
    }
    if Splice.Shadowed(adds, p) {
      var q :| q in Splice.PathsOf(adds) && (q < p || p < q);
      var x :| x in adds && x.path == q;
      if LeafAt(b, p).Some? {
        Rebuild.LeavesDoNotNest(b, p, q);
        Rebuild.LeavesDoNotNest(b, q, p);
      }
    }
  }
}
