/** Entry lines: encoding and decoding one entry, and reading a whole node back. */
module Codec {
  import opened Paths

  /** A JSON value of a line; `Other` stands for truth values, fractions, arrays and objects. */
  datatype Value = Text(s: string) | Number(n: int) | Null | Other(id: nat)

  type Line = seq<Value>

  /** How the language turns values of another type into text and numbers. */
  datatype Conversions = Conversions(text: Value -> string, number: Value -> Option<int>)

  /** `str`. */
  function AsText(v: Value, conv: Conversions): string {
    if v.Text? then v.s else conv.text(v)
  }

  /** `int`, which may fail. */
  function AsNumber(v: Value, conv: Conversions): Option<int> {
    if v.Number? then Some(v.n) else conv.number(v)
  }

  /** A leaf or subtree pointer as the repository's record has it. */
  datatype Record = Record(
    path: string, kind: string, hash: string, size: int, mtime: int,
    sourceUri: Option<string>, footer: Option<string>, sourceEtag: Option<string>)

  const BLOB := "b"
  const META := "m"
  const BLOB_PARQUET := "bp"
  const META_PARQUET := "mp"
  const TREE := "t"
  const SHARD := "s"

  predicate LeafKind(kind: string) {
    kind == BLOB || kind == META || kind == BLOB_PARQUET || kind == META_PARQUET
  }

  predicate SubtreeKind(kind: string) {
    kind == TREE || kind == SHARD
  }

  predicate HasSource(kind: string) {
    kind == META || kind == META_PARQUET
  }

  predicate HasFooter(kind: string) {
    kind == BLOB_PARQUET || kind == META_PARQUET
  }

  predicate HexDigest(s: string) {
    |s| == 64 && forall c :: c in s ==> '0' <= c <= '9' || 'a' <= c <= 'f'
  }

  /** The characters that trimming a text removes. */
  const WHITESPACE :=
    "\t\n\U{000B}\U{000C}\r\U{001C}\U{001D}\U{001E}\U{001F} \U{0085}\U{00A0}\U{1680}\U{2000}\U{2001}\U{2002}\U{2003}"
    + "\U{2004}\U{2005}\U{2006}\U{2007}\U{2008}\U{2009}\U{200A}\U{2028}\U{2029}\U{202F}\U{205F}\U{3000}"

  predicate Blank(s: string) {
    forall c :: c in s ==> c in WHITESPACE
  }

  /** `validate_leaf`. */
  predicate ValidFields(r: Record) {
    && LeafKind(r.kind)
    && (if HasSource(r.kind) then r.sourceUri.Some? && r.sourceUri.value != "" && (r.sourceEtag.Some? ==> !Blank(r.sourceEtag.value))
        else r.sourceUri.None? && r.sourceEtag.None?)
    && (if HasFooter(r.kind) then r.footer.Some? && r.footer.value != "" else r.footer.None?)
  }

  /** What constructing an entry checks; `validPath` is the rule for its path. */
  predicate Valid(r: Record, validPath: string -> bool) {
    && validPath(r.path)
    && (LeafKind(r.kind) || SubtreeKind(r.kind))
    && HexDigest(r.hash) && r.size >= 0 && r.mtime >= 0
    && (if SubtreeKind(r.kind) then
          r.size == 0 && r.mtime == 0 && r.sourceUri.None? && r.footer.None? && r.sourceEtag.None?
        else
          && ValidFields(r)
          && (r.footer.Some? ==> HexDigest(r.footer.value))
          && (r.sourceUri.Some? ==> !Blank(r.sourceUri.value)))
  }

  // ---- Encoding -------------------------------------------------------------

  /** `serialize`: the fields by position, the optional source marker last. */
  function Encode(r: Record): Line {
    if SubtreeKind(r.kind) then [Text(r.kind), Text(r.path), Text(r.hash)]
    else
      [Text(r.kind), Text(r.path), Text(r.hash), Number(r.size), Number(r.mtime)]
      + (if HasSource(r.kind) then [Optional(r.sourceUri)] else [])
      + (if HasFooter(r.kind) then [Optional(r.footer)] else [])
      + (if HasSource(r.kind) && r.sourceEtag.Some? then [Text(r.sourceEtag.value)] else [])
  }

  function Optional(s: Option<string>): Value {
    if s.Some? then Text(s.value) else Null
  }

  // ---- Decoding -------------------------------------------------------------

  datatype Problem = NotAnArray | UnsupportedShape | MissingFields | InvalidEntry

  datatype Parsed = Entry(record: Record) | Bad(problem: Problem)

  /** Least and greatest number of fields of a leaf line. */
  function Arity(kind: string): (nat, nat) {
    if kind == BLOB then (5, 5)
    else if kind == META then (6, 7)
    else if kind == BLOB_PARQUET then (6, 6)
    else (7, 8)
  }

  function Checked(r: Record, validPath: string -> bool): Parsed {
    if Valid(r, validPath) then Entry(r) else Bad(InvalidEntry)
  }

  /** `_entry_from_leaf_payload`: fields of another type are converted, a null source
      included; only a null marker at the end means none. */
  function ParseLeaf(l: Line, conv: Conversions, validPath: string -> bool): Parsed
    requires l != [] && LeafKind(AsText(l[0], conv))
  {
    var kind := AsText(l[0], conv);
    if !(Arity(kind).0 <= |l| <= Arity(kind).1) then Bad(UnsupportedShape)
    else if AsNumber(l[3], conv).None? || AsNumber(l[4], conv).None? then Bad(InvalidEntry)
    else
      var source := if HasSource(kind) then Some(AsText(l[5], conv)) else None;
      var footer :=
        if kind == META_PARQUET then Some(AsText(l[6], conv)) else if kind == BLOB_PARQUET then Some(AsText(l[5], conv)) else None;
      var last := if kind == META_PARQUET then 7 else 6;
      var etag := if HasSource(kind) && |l| > last && l[last] != Null then Some(AsText(l[last], conv)) else None;
      Checked(
        Record(AsText(l[1], conv), kind, AsText(l[2], conv), AsNumber(l[3], conv).value, AsNumber(l[4], conv).value, source, footer, etag),
        validPath)
  }

  /** `Entry.parse`. */
  function Parse(l: Line, conv: Conversions, validPath: string -> bool): Parsed {
    if l == [] then Bad(NotAnArray)
    else
      var kind := AsText(l[0], conv);
      if LeafKind(kind) then ParseLeaf(l, conv, validPath)
      else if !SubtreeKind(kind) then Bad(UnsupportedShape)
      else if |l| < 3 then Bad(MissingFields)
      else Checked(Record(AsText(l[1], conv), kind, AsText(l[2], conv), 0, 0, None, None, None), validPath)
  }

  // ---- Round trips ----------------------------------------------------------

  lemma KindsDiffer()
    ensures BLOB != META && BLOB != BLOB_PARQUET && BLOB != META_PARQUET && META != BLOB_PARQUET
    ensures META != META_PARQUET && BLOB_PARQUET != META_PARQUET && TREE != SHARD
    ensures forall k: string :: !(LeafKind(k) && SubtreeKind(k))
  {
    assert BLOB[0] == 'b' && META[0] == 'm' && BLOB_PARQUET[0] == 'b' && META_PARQUET[0] == 'm' && TREE[0] == 't' && SHARD[0] == 's';
    assert |BLOB| == 1 && |META| == 1 && |BLOB_PARQUET| == 2 && |META_PARQUET| == 2;
  }

  /** A valid entry reads back as itself. */
  lemma EncodeThenParse(r: Record, conv: Conversions, validPath: string -> bool)
    requires Valid(r, validPath)
    ensures Parse(Encode(r), conv, validPath) == Entry(r)
  {
    KindsDiffer();
    var l := Encode(r);
    assert l[0] == Text(r.kind) && l[1] == Text(r.path) && l[2] == Text(r.hash);
    if LeafKind(r.kind) {
      assert l[3] == Number(r.size) && l[4] == Number(r.mtime);
      assert HasSource(r.kind) ==> l[5] == Text(r.sourceUri.value);
      assert r.kind == META_PARQUET ==> l[6] == Text(r.footer.value);
      assert r.kind == BLOB_PARQUET ==> l[5] == Text(r.footer.value);
    }
  }

  /** The i-th field of a line after conversion. */
  function Field(l: Line, i: nat, conv: Conversions): Option<Value>
    requires i < |l|
  {
    if i == 3 || i == 4 then
      var n := AsNumber(l[i], conv);
      if n.Some? then Some(Number(n.value)) else None
    else Some(Text(AsText(l[i], conv)))
  }

  /** What is read is valid, and written again it is the line with its fields converted, but
      for what follows them: a null marker, or extra fields of a subtree pointer. */
  lemma ParseThenEncode(l: Line, conv: Conversions, validPath: string -> bool)
    requires Parse(l, conv, validPath).Entry?
    ensures Valid(Parse(l, conv, validPath).record, validPath)
    ensures var written := Encode(Parse(l, conv, validPath).record);
      && |written| <= |l|
      && (forall i :: 0 <= i < |written| ==> Field(l, i, conv) == Some(written[i]))
      && (|written| < |l| ==> l[|written|] == Null || SubtreeKind(Parse(l, conv, validPath).record.kind))
  {
    KindsDiffer();
  }

  /** Different entries are written differently. */
  lemma EncodeInjective(a: Record, b: Record, validPath: string -> bool)
    requires Valid(a, validPath) && Valid(b, validPath) && Encode(a) == Encode(b)
    ensures a == b
  {
    var conv := Conversions(v => "", v => None);
    EncodeThenParse(a, conv, validPath);
    EncodeThenParse(b, conv, validPath);
  }

  // ---- Lines and entries, kind by kind --------------------------------------

  /** Some character of `s` is no white space. */
  ghost predicate Inked(s: string) {
    exists c :: c in s && var k := c as int;
      !(9 <= k <= 13 || 28 <= k <= 32 || k == 0x85 || k == 0xA0 || k == 0x1680 || 0x2000 <= k <= 0x200A
        || 0x2028 <= k <= 0x2029 || k == 0x202F || k == 0x205F || k == 0x3000)
  }

  ghost predicate Hex64(s: string) {
    |s| == 64 && forall c :: c in s ==> c in "0123456789abcdef"
  }

  /** The line `l` stands for the entry `r`: which fields a line of each kind has, and what
      they must hold. */
  ghost predicate Stands(l: Line, conv: Conversions, r: Record) {
    var text := (v: Value) => if v.Text? then v.s else conv.text(v);
    var number := (v: Value) => if v.Number? then Some(v.n) else conv.number(v);
    && |l| >= 3 && text(l[0]) == r.kind && text(l[1]) == r.path && text(l[2]) == r.hash && Hex64(r.hash)
    && (r.kind == "t" || r.kind == "s" || r.kind == "b" || r.kind == "m" || r.kind == "bp" || r.kind == "mp")
    && (r.kind == "t" || r.kind == "s" ==>
          r.size == 0 && r.mtime == 0 && r.sourceUri.None? && r.footer.None? && r.sourceEtag.None?)
    && (r.kind == "b" || r.kind == "m" || r.kind == "bp" || r.kind == "mp" ==>
          |l| >= 5 && number(l[3]) == Some(r.size) && number(l[4]) == Some(r.mtime) && r.size >= 0 && r.mtime >= 0)
    && (r.kind == "b" ==> |l| == 5 && r.sourceUri.None? && r.footer.None? && r.sourceEtag.None?)
    && (r.kind == "bp" ==>
          |l| == 6 && r.sourceUri.None? && r.footer == Some(text(l[5])) && Hex64(text(l[5])) && r.sourceEtag.None?)
    && (r.kind == "m" ==>
          && 6 <= |l| <= 7 && r.sourceUri == Some(text(l[5])) && Inked(text(l[5])) && r.footer.None?
          && (if |l| == 6 || l[6] == Null then r.sourceEtag.None? else r.sourceEtag == Some(text(l[6])) && Inked(text(l[6]))))
    && (r.kind == "mp" ==>
          && 7 <= |l| <= 8 && r.sourceUri == Some(text(l[5])) && Inked(text(l[5])) && r.footer == Some(text(l[6])) && Hex64(text(l[6]))
          && (if |l| == 7 || l[7] == Null then r.sourceEtag.None? else r.sourceEtag == Some(text(l[7])) && Inked(text(l[7]))))
  }

  lemma InkedIsNotBlank(s: string)
    ensures Inked(s) <==> !Blank(s)
  {
  }

  lemma Hex64IsDigest(s: string)
    ensures Hex64(s) <==> HexDigest(s)
  {
  }

  lemma TextRules()
    ensures forall s: string :: Inked(s) <==> !Blank(s)
    ensures forall s: string :: Hex64(s) <==> HexDigest(s)
    ensures Blank("") && !HexDigest("")
  {
    forall s: string ensures Inked(s) <==> !Blank(s) {
      InkedIsNotBlank(s);
    }
    forall s: string ensures Hex64(s) <==> HexDigest(s) {
      Hex64IsDigest(s);
    }
  }

  lemma LeafStands(l: Line, conv: Conversions, validPath: string -> bool, r: Record)
    requires l != [] && LeafKind(AsText(l[0], conv))
    ensures ParseLeaf(l, conv, validPath) == Entry(r) <==> validPath(r.path) && Stands(l, conv, r)
  {
    TextRules();
    KindsDiffer();
    hide Inked, Blank, Hex64, HexDigest;
    if validPath(r.path) && Stands(l, conv, r) {
      assert Arity(r.kind).0 <= |l| <= Arity(r.kind).1;
      assert Valid(r, validPath);
    }
  }

  /** A line reads as the entry it stands for, and as no other. */
  lemma ParsedStands(l: Line, conv: Conversions, validPath: string -> bool, r: Record)
    ensures Parse(l, conv, validPath) == Entry(r) <==> validPath(r.path) && Stands(l, conv, r)
  {
    TextRules();
    KindsDiffer();
    hide Inked, Blank, Hex64, HexDigest, ParseLeaf;
    if l != [] && LeafKind(AsText(l[0], conv)) {
      LeafStands(l, conv, validPath, r);
      hide Stands;
    }
  }

  /** Why a line is refused: by its kind and its number of fields, before any field is looked at. */
  lemma RefusedAs(l: Line, conv: Conversions, validPath: string -> bool)
    ensures Parse(l, conv, validPath) == Bad(NotAnArray) <==> l == []
    ensures l != [] ==>
      var kind := if l[0].Text? then l[0].s else conv.text(l[0]);
      && (Parse(l, conv, validPath) == Bad(MissingFields) <==> (kind == "t" || kind == "s") && |l| < 3)
      && (Parse(l, conv, validPath) == Bad(UnsupportedShape) <==>
            !(kind == "t" || kind == "s" || (kind == "b" && |l| == 5) || (kind == "m" && (|l| == 6 || |l| == 7))
              || (kind == "bp" && |l| == 6) || (kind == "mp" && (|l| == 7 || |l| == 8))))
  {
    KindsDiffer();
    hide Valid;
  }

  // ---- Whole nodes ----------------------------------------------------------

  ghost predicate Readable(lines: seq<Line>, conv: Conversions) {
    && (forall i :: 0 <= i < |lines| ==> Parse(lines[i], conv, ComponentName).Entry?)
    && (forall i :: 0 < i < |lines| ==>
          Lt(Parse(lines[i - 1], conv, ComponentName).record.path, Parse(lines[i], conv, ComponentName).record.path))
  }

  /** A path that is one component. */
  predicate ComponentName(s: string) {
    ValidName(s)
  }

  /** The line's name, where there is one. */
  function NameOf(l: Line, conv: Conversions): string
    requires |l| >= 2
  {
    AsText(l[1], conv)
  }

  predicate GuardedLine(l: Line, conv: Conversions) {
    |l| >= 3 && (LeafKind(AsText(l[0], conv)) || SubtreeKind(AsText(l[0], conv))) && ComponentName(NameOf(l, conv))
  }

  ghost predicate Guarded(lines: seq<Line>, conv: Conversions) {
    && (forall i :: 0 <= i < |lines| ==> GuardedLine(lines[i], conv))
    && (forall i :: 0 < i < |lines| ==> Lt(NameOf(lines[i - 1], conv), NameOf(lines[i], conv)))
  }

  /** A name a node may have, character by character. */
  ghost predicate OneComponent(s: string) {
    s != "" && s != "." && s != ".." && forall c :: c in s ==> c != '/' && c != '\\'
  }

  /** The entries a node's lines stand for. */
  ghost predicate NodeOf(lines: seq<Line>, conv: Conversions, rs: seq<Record>) {
    && |rs| == |lines|
    && (forall i :: 0 <= i < |lines| ==> Stands(lines[i], conv, rs[i]) && OneComponent(rs[i].path))
    && (forall i :: 0 < i < |lines| ==> LexLess(rs[i - 1].path, rs[i].path))
  }

  lemma NodeIsReadable(lines: seq<Line>, conv: Conversions, rs: seq<Record>)
    ensures NodeOf(lines, conv, rs) <==>
            Readable(lines, conv) && |rs| == |lines| &&
            forall i :: 0 <= i < |lines| ==> Parse(lines[i], conv, ComponentName) == Entry(rs[i])
  {
    forall i, r: Record | 0 <= i < |lines|
      ensures Parse(lines[i], conv, ComponentName) == Entry(r) <==> Stands(lines[i], conv, r) && OneComponent(r.path)
    {
      ParsedStands(lines[i], conv, ComponentName, r);
    }
    forall i | 0 < i < |lines| && |rs| == |lines|
      ensures LexLess(rs[i - 1].path, rs[i].path) <==> Lt(rs[i - 1].path, rs[i].path)
    {
      LtIsLexicographic(rs[i - 1].path, rs[i].path);
    }
    hide Parse, Stands, Lt, OneComponent, LexLess;
  }

  /** What the guard looks at. */
  ghost predicate GuardedNode(lines: seq<Line>, conv: Conversions) {
    var text := (v: Value) => if v.Text? then v.s else conv.text(v);
    && (forall i :: 0 <= i < |lines| ==>
          && |lines[i]| >= 3 && OneComponent(text(lines[i][1]))
          && text(lines[i][0]) in ["t", "s", "b", "m", "bp", "mp"])
    && (forall i :: 0 < i < |lines| ==> LexLess(text(lines[i - 1][1]), text(lines[i][1])))
  }

  lemma GuardedAre(lines: seq<Line>, conv: Conversions)
    ensures Guarded(lines, conv) <==> GuardedNode(lines, conv)
  {
    forall i | 0 < i < |lines| && |lines[i - 1]| >= 2 && |lines[i]| >= 2
      ensures LexLess(AsText(lines[i - 1][1], conv), AsText(lines[i][1], conv)) <==>
              Lt(NameOf(lines[i - 1], conv), NameOf(lines[i], conv))
    {
      LtIsLexicographic(NameOf(lines[i - 1], conv), NameOf(lines[i], conv));
    }
    hide Lt, LexLess;
  }

  /** `parse_tree_object`: every line an entry with a component name, names ascending. */
  method ParseTree(lines: seq<Line>, conv: Conversions) returns (r: Option<seq<Record>>)
    ensures r.Some? <==> Readable(lines, conv)
    ensures r.Some? <==> exists rs :: NodeOf(lines, conv, rs)
    ensures r.Some? ==> NodeOf(lines, conv, r.value)
    ensures r.Some? ==> |r.value| == |lines| && forall i :: 0 <= i < |lines| ==> Parse(lines[i], conv, ComponentName) == Entry(r.value[i])
  {
    forall rs: seq<Record> {
      NodeIsReadable(lines, conv, rs);
    }
    hide NodeOf, Parse, Lt;
    var records: seq<Record>, previous: Option<string> := [], None;
    for i := 0 to |lines|
      invariant |records| == i
      invariant previous == if i == 0 then None else Some(records[i - 1].path)
      invariant forall j :: 0 <= j < i ==> Parse(lines[j], conv, ComponentName) == Entry(records[j])
      invariant forall j :: 0 < j < i ==> Lt(records[j - 1].path, records[j].path)
    {
      var parsed := Parse(lines[i], conv, ComponentName);
      if parsed.Bad? {
        return None;
      }
      if previous.Some? && !Lt(previous.value, parsed.record.path) {
        return None;
      }
      previous, records := Some(parsed.record.path), records + [parsed.record];
    }
    return Some(records);
  }

  /** `validate_tree_node`: the guard looks at kinds, names and their order only. */
  method GuardTree(lines: seq<Line>, conv: Conversions) returns (ok: bool)
    ensures ok <==> GuardedNode(lines, conv)
  {
    GuardedAre(lines, conv);
    hide GuardedNode, LeafKind, SubtreeKind, ComponentName, AsText, Lt;
    var previous: Option<string> := None;
    for i := 0 to |lines|
      invariant forall j :: 0 <= j < i ==> GuardedLine(lines[j], conv)
      invariant forall j :: 0 < j < i ==> Lt(NameOf(lines[j - 1], conv), NameOf(lines[j], conv))
      invariant previous == if i == 0 then None else Some(NameOf(lines[i - 1], conv))
    {
      if !GuardedLine(lines[i], conv) {
        return false;
      }
      var name := NameOf(lines[i], conv);
      if previous.Some? && !Lt(previous.value, name) {
        return false;
      }
      previous := Some(name);
    }
    return true;
  }

  lemma ParsedName(l: Line, conv: Conversions)
    requires Parse(l, conv, ComponentName).Entry?
    ensures GuardedLine(l, conv) && NameOf(l, conv) == Parse(l, conv, ComponentName).record.path
  {
    KindsDiffer();
  }

  /** The reader accepts nothing the guard refuses; and of guarded lines that encode
      valid entries it reads every one back. */
  lemma GuardIsSafe(lines: seq<Line>, conv: Conversions)
    ensures Readable(lines, conv) ==> Guarded(lines, conv)
    ensures Guarded(lines, conv) && (forall i :: 0 <= i < |lines| ==> Parse(lines[i], conv, ComponentName).Entry?) ==> Readable(lines, conv)
  {
    forall i | 0 <= i < |lines| && Parse(lines[i], conv, ComponentName).Entry?
      ensures GuardedLine(lines[i], conv) && NameOf(lines[i], conv) == Parse(lines[i], conv, ComponentName).record.path
    {
      ParsedName(lines[i], conv);
    }
    hide Parse, Lt, GuardedLine;
  }
}
