/** Uploading large blobs in parts. */
module Multipart {

  newtype byte = x: int | 0 <= x < 256

  const MULTIPART_THRESHOLD := 64 * 1024 * 1024
  const MULTIPART_PART_SIZE := 64 * 1024 * 1024
  const MIN_PART_SIZE := 5 * 1024 * 1024
  const MAX_PARTS := 10_000

  /** `part_size_for`: 64 MiB for whatever fits one part of it, else the least size of at
      least 5 MiB that 10,000 parts suffice for. */
  function PartSizeFor(total: nat): (size: nat)
    ensures total <= 67_108_864 ==> size == 67_108_864
    ensures total > 67_108_864 ==>
      && total <= 10_000 * size && 5_242_880 <= size < total
      && (5_242_880 < size ==> 10_000 * (size - 1) < total)
  {
    if total <= MULTIPART_PART_SIZE then MULTIPART_PART_SIZE
    else
      var needed := (total + MAX_PARTS - 1) / MAX_PARTS;
      if needed < MIN_PART_SIZE then MIN_PART_SIZE else needed
  }

  /** What arrives at the store: one object, or parts to be joined. */
  datatype Upload = Single(body: seq<byte>) | Parts(parts: seq<seq<byte>>)

  function Joined(parts: seq<seq<byte>>): seq<byte> {
    if parts == [] then [] else Joined(parts[..|parts| - 1]) + parts[|parts| - 1]
  }

  function Received(u: Upload): seq<byte> {
    if u.Single? then u.body else Joined(u.parts)
  }

  /** `read(size)`: the next bytes of a stream, fewer only at its end. */
  function Read(source: seq<byte>, at: nat, size: nat): seq<byte>
    requires at <= |source|
  {
    source[at..if at + size <= |source| then at + size else |source|]
  }

  function FullSize(i: nat, first: nat, size: nat): nat {
    if i == 0 then first else size
  }

  /** Parts of a stream: the first of `first` bytes, the others of `size`, the last
      perhaps shorter, none empty. */
  ghost predicate CutInto(parts: seq<seq<byte>>, first: nat, size: nat) {
    && (forall i :: 0 <= i < |parts| ==> 0 < |parts[i]| <= FullSize(i, first, size))
    && (forall i :: 0 <= i < |parts| - 1 ==> |parts[i]| == FullSize(i, first, size))
  }

  /** The bytes of `n` full parts. */
  function FullBytes(n: nat, first: nat, size: nat): nat {
    if n == 0 then 0 else FullBytes(n - 1, first, size) + FullSize(n - 1, first, size)
  }

  /** The parts sent and the one read are what was read of the source. */
  ghost predicate Carried(source: seq<byte>, parts: seq<seq<byte>>, body: seq<byte>, at: nat) {
    at <= |source| && Joined(parts) + body == source[..at]
  }

  /** Only once the source is at its end is a part not full. */
  ghost predicate Sized(total: nat, parts: seq<seq<byte>>, last: nat, at: nat, first: nat, size: nat) {
    && CutInto(parts, first, size)
    && (last == 0 ==> at == total)
    && (last != 0 ==>
          && last <= FullSize(|parts|, first, size)
          && (at < total ==> last == FullSize(|parts|, first, size))
          && at - last == FullBytes(|parts|, first, size) && at <= total
          && forall i :: 0 <= i < |parts| ==> |parts[i]| == FullSize(i, first, size))
    && (parts != [] ==> FullBytes(|parts| - 1, first, size) < total)
  }

  lemma CarryPart(source: seq<byte>, parts: seq<seq<byte>>, body: seq<byte>, at: nat, size: nat)
    requires Carried(source, parts, body, at)
    ensures var next := Read(source, at, size); Carried(source, parts + [body], next, at + |next|)
  {
    var next := Read(source, at, size);
    assert (parts + [body])[..|parts|] == parts;
    assert source[..at + |next|] == source[..at] + next;
  }

  lemma ReadLength(source: seq<byte>, at: nat, size: nat)
    requires at <= |source|
    ensures |Read(source, at, size)| == if at + size <= |source| then size else |source| - at
  {
  }

  lemma SizePart(total: nat, parts: seq<seq<byte>>, body: seq<byte>, at: nat, first: nat, size: nat)
    requires 0 < size && body != [] && at <= total && Sized(total, parts, |body|, at, first, size)
    ensures var next := if at + size <= total then size else total - at;
      Sized(total, parts + [body], next, at + next, first, size)
  {
    var sent := parts + [body];
    assert forall i :: 0 <= i < |parts| ==> sent[i] == parts[i];
    assert sent[|parts|] == body;
  }

  /** `upload_stream`: the store receives just the source, in one piece within the
      threshold, in parts above it. */
  method UploadStream(source: seq<byte>, partSize: nat, threshold: nat) returns (u: Upload)
    requires 0 < partSize
    ensures Received(u) == source
    ensures u.Single? <==> |source| <= threshold
    ensures u.Parts? ==>
      u.parts != [] && CutInto(u.parts, threshold + 1, partSize) &&
      FullBytes(|u.parts| - 1, threshold + 1, partSize) < |source|
  {
    var first := Read(source, 0, threshold + 1);
    ReadLength(source, 0, threshold + 1);
    if |first| <= threshold {
      Whole(source, threshold + 1);
      return Single(first);
    }
    var parts: seq<seq<byte>>, body, at := [], first, |first|;
    FirstPart(source, threshold + 1, partSize);
    hide Carried, Sized, Read, Joined, CutInto, FullBytes;
    while body != []
      invariant at <= |source| && Carried(source, parts, body, at)
      invariant Sized(|source|, parts, |body|, at, threshold + 1, partSize)
      invariant parts == [] ==> body != []
      decreases |source| - at, |body|
    {
      CarryPart(source, parts, body, at, partSize);
      SizePart(|source|, parts, body, at, threshold + 1, partSize);
      ReadLength(source, at, partSize);
      var next := Read(source, at, partSize);
      parts, body, at := parts + [body], next, at + |next|;
    }
    AllSent(source, parts, at, threshold + 1, partSize);
    return Parts(parts);
  }

  lemma Whole(source: seq<byte>, size: nat)
    requires |source| <= size
    ensures Read(source, 0, size) == source
  {
  }

  lemma FirstPart(source: seq<byte>, first: nat, size: nat)
    requires 0 < first <= |source|
    ensures Carried(source, [], Read(source, 0, first), first)
    ensures Sized(|source|, [], first, first, first, size)
  {
    assert [] + Read(source, 0, first) == source[..first];
  }

  lemma AllSent(source: seq<byte>, parts: seq<seq<byte>>, at: nat, first: nat, size: nat)
    requires Carried(source, parts, [], at) && Sized(|source|, parts, 0, at, first, size) && parts != []
    ensures Joined(parts) == source && CutInto(parts, first, size) && FullBytes(|parts| - 1, first, size) < |source|
  {
    assert Joined(parts) + [] == Joined(parts) && source[..|source|] == source;
  }

  lemma {:induction false} FullBytesIs(n: nat, first: nat, size: nat)
    ensures FullBytes(n, first, size) == if n == 0 then 0 else first + (n - 1) * size
  {
    if n > 1 {
      FullBytesIs(n - 1, first, size);
      assert (n - 2) * size + size == (n - 1) * size;
    }
  }

  lemma FewParts(n: nat, size: nat, total: nat)
    requires 0 < n && FullBytes(n - 1, size + 1, size) < total <= MAX_PARTS * size
    ensures n <= MAX_PARTS
  {
    FullBytesIs(n - 1, size + 1, size);
    if MAX_PARTS < n {
      Larger(MAX_PARTS - 1, n - 2, size);
    }
  }

  lemma Larger(a: int, b: int, size: nat)
    requires a <= b
    ensures a * size <= b * size
  {
  }

  /** `upload_file`: a file above the threshold goes up in at most 10,000 parts, all but
      the last of at least 5 MiB, and what the store joins is the file. */
  method UploadFile(content: seq<byte>) returns (u: Upload)
    ensures Received(u) == content
    ensures u.Single? <==> |content| <= 67_108_864
    ensures u.Parts? ==> 1 <= |u.parts| <= 10_000
    ensures u.Parts? ==> forall i :: 0 <= i < |u.parts| - 1 ==> 5_242_880 <= |u.parts[i]|
    ensures u.Parts? ==> var size := PartSizeFor(|content|);
      forall i :: 0 <= i < |u.parts| ==>
        && 1 <= |u.parts[i]| <= (if i == 0 then size + 1 else size)
        && (i < |u.parts| - 1 ==> |u.parts[i]| == if i == 0 then size + 1 else size)
  {
    if |content| <= MULTIPART_THRESHOLD {
      return Single(content);
    }
    var size := PartSizeFor(|content|);
    u := UploadStream(content, size, size);
    FewParts(|u.parts|, size, |content|);
  }
}
