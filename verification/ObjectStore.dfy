/** Content addressing: tree payloads named by what they hold, their publication, and the
    cache of parsed nodes.

Everywhere else a subtree pointer is the subtree itself, and comparing two hashes is
comparing two nodes.  Here the pointers are ids, handed out by content, and both are
shown to come to the same. */
module ObjectStore {
  import opened Paths
  import opened Trees
  import Reach

  /** A line of a tree object: a file, or a pointer to a subdirectory or shard. */
  datatype Line = FileLine(name: Name, leaf: Leaf) | SubLine(shard: bool, name: Name, id: nat)

  type Payload = seq<Line>

  /** Every payload hashed so far; its position is its id.  Equal payloads have one id,
      and a payload can only point at ids that existed before it. */
  ghost predicate Table(t: seq<Payload>) {
    && (forall i, j :: 0 <= i < j < |t| ==> t[i] != t[j])
    && (forall i :: 0 <= i < |t| ==> PointsBelow(t[i], i))
  }

  predicate PointsBelow(lines: Payload, bound: nat) {
    forall l :: l in lines && l.SubLine? ==> l.id < bound
  }

  // ---- Reading a node back --------------------------------------------------

  ghost function Decode(t: seq<Payload>, id: nat): Node
    requires Table(t) && id < |t|
    decreases id, |t[id]| + 1
  {
    Node(DecodeLines(t, t[id], id))
  }

  ghost function DecodeLines(t: seq<Payload>, lines: Payload, bound: nat): seq<Entry>
    requires Table(t) && PointsBelow(lines, bound) && bound <= |t|
    decreases bound, |lines|
  {
    if lines == [] then []
    else
      [match lines[0]
       case FileLine(name, leaf) => File(name, leaf)
       case SubLine(shard, name, id) => if shard then Shard(name, Decode(t, id)) else Dir(name, Decode(t, id))]
      + DecodeLines(t, lines[1..], bound)
  }

  /** Two ids name equal nodes only if they are the same id. */
  lemma {:induction false} DecodeInjective(t: seq<Payload>, i: nat, j: nat)
    requires Table(t) && i < |t| && j < |t| && Decode(t, i) == Decode(t, j)
    ensures i == j
    decreases i, |t[i]| + 1
  {
    LinesInjective(t, t[i], i, t[j], j);
  }

  lemma {:induction false} LinesInjective(t: seq<Payload>, a: Payload, i: nat, b: Payload, j: nat)
    requires Table(t) && PointsBelow(a, i) && PointsBelow(b, j) && i <= |t| && j <= |t|
    requires DecodeLines(t, a, i) == DecodeLines(t, b, j)
    ensures a == b
    decreases i, |a|
  {
    if a != [] && b != [] {
      var x, y := DecodeLines(t, a, i), DecodeLines(t, b, j);
      assert x[0] == y[0] && x[1..] == DecodeLines(t, a[1..], i) && y[1..] == DecodeLines(t, b[1..], j);
      if a[0].SubLine? && b[0].SubLine? {
        DecodeInjective(t, a[0].id, b[0].id);
      }
      LinesInjective(t, a[1..], i, b[1..], j);
      assert a == [a[0]] + a[1..] && b == [b[0]] + b[1..];
    }
  }

  /** What is hashed later changes no node. */
  lemma {:induction false} DecodeStable(t: seq<Payload>, later: seq<Payload>, id: nat)
    requires Table(t) && Table(later) && t <= later && id < |t|
    ensures Decode(later, id) == Decode(t, id)
    decreases id, |t[id]| + 1
  {
    LinesStable(t, later, t[id], id);
  }

  lemma {:induction false} LinesStable(t: seq<Payload>, later: seq<Payload>, lines: Payload, bound: nat)
    requires Table(t) && Table(later) && t <= later && PointsBelow(lines, bound) && bound <= |t|
    ensures DecodeLines(later, lines, bound) == DecodeLines(t, lines, bound)
    decreases bound, |lines|
  {
    if lines != [] {
      if lines[0].SubLine? {
        DecodeStable(t, later, lines[0].id);
      }
      LinesStable(t, later, lines[1..], bound);
    }
  }

  lemma {:induction false} BoundIsFree(t: seq<Payload>, lines: Payload, low: nat, high: nat)
    requires Table(t) && PointsBelow(lines, low) && low <= high <= |t|
    ensures DecodeLines(t, lines, low) == DecodeLines(t, lines, high)
    decreases |lines|
  {
    if lines != [] {
      BoundIsFree(t, lines[1..], low, high);
    }
  }

  // ---- Publishing -----------------------------------------------------------

  /** The id of a payload, new if the payload is. */
  method HashOf(t: seq<Payload>, payload: Payload) returns (id: nat, t': seq<Payload>)
    requires Table(t) && PointsBelow(payload, |t|)
    ensures Table(t') && t <= t' && id < |t'| && t'[id] == payload
  {
    id := 0;
    while id < |t|
      invariant id <= |t| && forall i :: 0 <= i < id ==> t[i] != payload
    {
      if t[id] == payload {
        return id, t;
      }
      id := id + 1;
    }
    t' := t + [payload];
  }

  /** The objects in the store point at objects in the store. */
  ghost predicate Intact(t: seq<Payload>, present: set<nat>) {
    && (forall id :: id in present ==> id < |t|)
    && (forall id, l :: id in present && l in t[id] && l.SubLine? ==> l.id in present)
  }

  /** The hashes a write may skip are those a client learned by reading: each names the node
      of a directory, or a subtree or shard it points at, in a tree whose root is there. */
  ghost predicate Learned(t: seq<Payload>, present: set<nat>, skip: set<nat>)
    requires Table(t)
  {
    forall id :: id in skip ==> id < |t| && exists root: nat, d: Path :: LearnedAt(t, present, id, root, d)
  }

  ghost predicate LearnedAt(t: seq<Payload>, present: set<nat>, id: nat, root: nat, d: Path)
    requires Table(t) && id < |t|
  {
    root in present && root < |t| && Decode(t, id) in Reach.KnownAt(Decode(t, root), d)
  }

  /** A subtree of what is there is there. */
  lemma {:induction false} SubtreePresent(t: seq<Payload>, present: set<nat>, lines: Payload, bound: nat, n: Node)
    returns (id: nat)
    requires Table(t) && Intact(t, present) && PointsBelow(lines, bound) && bound <= |t|
    requires forall l :: l in lines && l.SubLine? ==> l.id in present
    requires n in Reach.SubtreesOf(DecodeLines(t, lines, bound))
    ensures id in present && id < |t| && Decode(t, id) == n
    decreases bound, |lines|
  {
    var es := DecodeLines(t, lines, bound);
    assert es[1..] == DecodeLines(t, lines[1..], bound);
    if n in Reach.SubtreesOf(es[1..]) {
      id := SubtreePresent(t, present, lines[1..], bound, n);
    } else if n == es[0].child {
      id := lines[0].id;
    } else {
      id := SubtreePresent(t, present, t[lines[0].id], lines[0].id, n);
    }
  }

  /** So a skipped write leaves nothing out. */
  lemma LearnedIsPresent(t: seq<Payload>, present: set<nat>, skip: set<nat>)
    requires Table(t) && Intact(t, present) && Learned(t, present, skip)
    ensures skip <= present
  {
    forall id | id in skip ensures id in present {
      var root: nat, d: Path :| LearnedAt(t, present, id, root, d);
      Reach.KnownIsUnder(Decode(t, root), d);
      if Decode(t, id) == Decode(t, root) {
        DecodeInjective(t, id, root);
      } else {
        var k := SubtreePresent(t, present, t[root], root, Decode(t, id));
        DecodeInjective(t, id, k);
      }
    }
  }

  lemma LearnedStays(t: seq<Payload>, present: set<nat>, later: seq<Payload>, more: set<nat>, skip: set<nat>)
    requires Table(t) && Table(later) && t <= later && present <= more && Learned(t, present, skip)
    ensures Learned(later, more, skip)
  {
    forall id | id in skip ensures id < |later| && exists root: nat, d: Path :: LearnedAt(later, more, id, root, d) {
      var root: nat, d: Path :| LearnedAt(t, present, id, root, d);
      DecodeStable(t, later, id);
      DecodeStable(t, later, root);
      assert LearnedAt(later, more, id, root, d);
    }
  }

  /** `_write_tree_bytes`: a payload the client knows is not written again; written or
      skipped, it is in the store afterwards, and so is all it points at. */
  method WriteTreeBytes(t: seq<Payload>, present: set<nat>, payload: Payload, skip: set<nat>)
    returns (id: nat, t': seq<Payload>, present': set<nat>)
    requires Table(t) && PointsBelow(payload, |t|)
    requires Intact(t, present) && Learned(t, present, skip)
    requires forall l :: l in payload && l.SubLine? ==> l.id in present
    ensures Table(t') && t <= t' && id < |t'| && t'[id] == payload
    ensures present <= present' && id in present' && Intact(t', present')
    ensures id in skip ==> present' == present
  {
    LearnedIsPresent(t, present, skip);
    id, t' := HashOf(t, payload);
    if id in skip {
      return id, t', present;
    }
    present' := present + {id};
  }

  /** Publishes a node after its subtrees; the id names exactly that node. */
  method StoreNode(t: seq<Payload>, present: set<nat>, node: Node, skip: set<nat>)
    returns (id: nat, t': seq<Payload>, present': set<nat>)
    requires Table(t) && Intact(t, present) && Learned(t, present, skip)
    ensures Table(t') && t <= t' && id < |t'| && Decode(t', id) == node
    ensures present <= present' && id in present' && Intact(t', present')
    decreases node.entries, 1
  {
    var lines;
    lines, t', present' := StoreEntries(t, present, node.entries, skip);
    var before := t';
    LearnedStays(t, present, t', present', skip);
    id, t', present' := WriteTreeBytes(t', present', lines, skip);
    LinesStable(before, t', lines, |before|);
    BoundIsFree(t', lines, id, |t'|);
    BoundIsFree(t', lines, |before|, |t'|);
  }

  /** The lines of some entries, their subtrees published first. */
  method StoreEntries(t: seq<Payload>, present: set<nat>, es: seq<Entry>, skip: set<nat>)
    returns (lines: Payload, t': seq<Payload>, present': set<nat>)
    requires Table(t) && Intact(t, present) && Learned(t, present, skip)
    ensures Table(t') && t <= t' && PointsBelow(lines, |t'|) && DecodeLines(t', lines, |t'|) == es
    ensures present <= present' && Intact(t', present')
    ensures forall l :: l in lines && l.SubLine? ==> l.id in present'
    decreases es, 0
  {
    if es == [] {
      return [], t, present;
    }
    var e := es[0];
    if e.File? {
      lines, t', present' := StoreEntries(t, present, es[1..], skip);
      lines := [FileLine(e.name, e.leaf)] + lines;
      assert es == [e] + es[1..];
      return;
    }
    var id;
    id, t', present' := StoreNode(t, present, e.child, skip);
    var between := t';
    LearnedStays(t, present, t', present', skip);
    lines, t', present' := StoreEntries(t', present', es[1..], skip);
    DecodeStable(between, t', id);
    lines := [SubLine(e.Shard?, e.name, id)] + lines;
    assert lines[1..] + [] == lines[1..];
    assert es == [e] + es[1..];
  }

  /** Whatever was published in between, equal nodes have equal ids and different nodes
      different ones. */
  lemma SameNodeSameId(t: seq<Payload>, later: seq<Payload>, i: nat, j: nat)
    requires Table(t) && Table(later) && t <= later && i < |t| && j < |later|
    ensures Decode(t, i) == Decode(later, j) <==> i == j
  {
    DecodeStable(t, later, i);
    if Decode(t, i) == Decode(later, j) {
      DecodeInjective(later, i, j);
    }
  }

  // ---- The cache of parsed nodes --------------------------------------------

  /** `TreeCache`: the most recently used payloads, keyed by id. */
  class TreeCache {
    var entries: map<nat, Payload>
    var order: seq<nat>
    const maxsize: nat

    ghost predicate Valid()
      reads this
    {
      && Unique(order)
      && (forall k :: k in order <==> k in entries)
      && |order| <= maxsize
    }

    /** A cached payload is what the id stands for. */
    ghost predicate Coherent(t: seq<Payload>)
      reads this
    {
      forall k :: k in entries ==> k < |t| && entries[k] == t[k]
    }

    constructor (maxsize: nat)
      ensures Valid() && this.maxsize == maxsize && entries == map[]
    {
      this.maxsize, this.entries, this.order := maxsize, map[], [];
    }

    /** The keys in order of use, without `k`. */
    static function Without(order: seq<nat>, k: nat): seq<nat> {
      if order == [] then []
      else (if order[0] == k then [] else [order[0]]) + Without(order[1..], k)
    }

    static lemma {:induction false} WithoutSpec(order: seq<nat>, k: nat)
      requires Unique(order)
      ensures Unique(Without(order, k))
      ensures forall x :: x in Without(order, k) <==> x in order && x != k
      ensures |Without(order, k)| == |order| - if k in order then 1 else 0
    {
      if order != [] {
        WithoutSpec(order[1..], k);
        assert forall x :: x in order <==> x == order[0] || x in order[1..];
        var rest := Without(order[1..], k);
        forall i | 0 <= i < |rest| ensures rest[i] != order[0] {
          assert rest[i] in rest;
        }
      }
    }

    /** `get`: a hit becomes the most recently used. */
    method Get(k: nat) returns (r: Option<Payload>)
      requires Valid()
      modifies this
      ensures Valid() && entries == old(entries)
      ensures r == if k in entries then Some(entries[k]) else None
      ensures r.Some? ==> order != [] && order[|order| - 1] == k
      ensures r.None? ==> order == old(order)
    {
      if k !in entries {
        return None;
      }
      WithoutSpec(order, k);
      order := Without(order, k) + [k];
      return Some(entries[k]);
    }

    /** The first keys of an order dropped, so that at most `limit` are left. */
    static function Newest(order: seq<nat>, limit: nat): seq<nat> {
      if |order| <= limit then order else order[|order| - limit..]
    }

    static predicate Unique(order: seq<nat>) {
      forall i, j :: 0 <= i < j < |order| ==> order[i] != order[j]
    }

    static lemma DropOldest(order: seq<nat>, limit: nat)
      requires Unique(order) && |order| > limit
      ensures Unique(order[1..]) && Newest(order[1..], limit) == Newest(order, limit)
      ensures forall x :: x in order[1..] <==> x in order && x != order[0]
    {
    }

    /** `_evict`: the least recently used go until the limit is kept. */
    method Evict()
      requires Unique(order) && forall k :: k in order <==> k in entries
      modifies this
      ensures Valid() && order == Newest(old(order), maxsize)
      ensures forall k :: k in entries ==> k in old(entries) && entries[k] == old(entries)[k]
    {
      hide Unique, Newest;
      while |order| > maxsize
        invariant Unique(order) && forall k :: k in order <==> k in entries
        invariant Newest(order, maxsize) == Newest(old(order), maxsize)
        invariant forall k :: k in entries ==> k in old(entries) && entries[k] == old(entries)[k]
        decreases |order|
      {
        DropOldest(order, maxsize);
        entries, order := entries - {order[0]}, order[1..];
      }
      WithinLimit(order, maxsize);
    }

    static lemma WithinLimit(order: seq<nat>, limit: nat)
      requires |order| <= limit
      ensures Newest(order, limit) == order
    {
    }

    /** `put`: the new entry comes last; past the limit the least recently used go. */
    method Put(k: nat, payload: Payload, ghost t: seq<Payload>)
      requires Valid() && Coherent(t) && k < |t| && payload == t[k]
      modifies this
      ensures Valid() && Coherent(t)
      ensures order == Newest(Without(old(order), k) + [k], maxsize)
      ensures forall x :: x in entries ==> x == k || x in old(entries)
    {
      WithoutSpec(order, k);
      order, entries := Without(order, k) + [k], entries[k := payload];
      Evict();
    }

    /** `_load`: with or without a hit, what is read is what the store holds. */
    method Load(id: nat, present: set<nat>, t: seq<Payload>) returns (r: Option<Payload>)
      requires Valid() && Coherent(t) && (forall i :: i in present ==> i < |t|)
      requires forall i :: i in entries ==> i in present
      modifies this
      ensures Valid() && Coherent(t) && forall i :: i in entries ==> i in present
      ensures r == if id in present then Some(t[id]) else None
    {
      r := Get(id);
      if r.Some? {
        return;
      }
      if id !in present {
        return None;
      }
      Put(id, t[id], t);
      return Some(t[id]);
    }
  }
}
