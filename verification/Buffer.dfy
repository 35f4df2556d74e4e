/** Writing a message into a byte buffer from its end towards its front.

    Each method models one block that the code generator emits per field kind: the payload is
    written below index i, then its length, then its hard-coded tag, and the new i is returned.
    The ghost parameters say what the buffer held before the message (orig) and what has been
    written at i so far (done), or the whole task and how many segments are left to write. */
module Buffer {
  import opened Wire

  /** orig with the bytes mid placed at index i. */
  ghost function Splice(orig: bytes, i: nat, mid: bytes): bytes
    requires i + |mid| <= |orig|
  {
    orig[..i] + mid + orig[i + |mid|..]
  }

  ghost predicate Filled(now: bytes, orig: bytes, i: nat, done: bytes) {
    i + |done| <= |orig| && now == Splice(orig, i, done)
  }

  lemma Fill(now: bytes, orig: bytes, i: nat, done: bytes, mid: bytes, later: bytes)
    requires Filled(now, orig, i, done) && |mid| <= i
    requires Filled(later, now, i - |mid|, mid)
    ensures Filled(later, orig, i - |mid|, mid + done)
  {
  }

  lemma FilledBounds(now: bytes, orig: bytes, i: nat, done: bytes)
    requires Filled(now, orig, i, done)
    ensures i + |done| <= |now| == |orig|
  {
  }

  /** A buffer filled from end to end holds exactly what was written. */
  lemma FilledWhole(now: bytes, orig: bytes, done: bytes)
    requires Filled(now, orig, 0, done) && |orig| == |done|
    ensures now == done
  {
  }

  lemma FilledFront(now: bytes, orig: bytes, done: bytes)
    requires Filled(now, orig, 0, done)
    ensures now == done + orig[|done|..]
  {
  }

  lemma FillNothing(now: bytes, i: nat)
    requires i <= |now|
    ensures Filled(now, now, i, [])
  {
  }

  lemma Assoc(a: bytes, b: bytes, c: bytes)
    ensures (a + b) + c == a + (b + c)
  {
  }

  lemma NothingFirst(done: bytes)
    ensures [] + done == done
  {
  }

  /** start after the first k bytes of s have been copied to index at. */
  ghost function Copied(start: bytes, at: nat, s: bytes, k: nat): (r: bytes)
    requires k <= |s| && at + |s| <= |start|
    ensures |r| == |start|
  {
    start[..at] + s[..k] + start[at + k..]
  }

  lemma CopyStep(start: bytes, at: nat, s: bytes, k: nat)
    requires k < |s| && at + |s| <= |start|
    ensures Copied(start, at, s, k)[at + k := s[k]] == Copied(start, at, s, k + 1)
  {
  }

  lemma CopyEnds(start: bytes, at: nat, s: bytes)
    requires at + |s| <= |start|
    ensures Copied(start, at, s, 0) == start && Copied(start, at, s, |s|) == Splice(start, at, s)
  {
  }

  // ---------------------------------------------------------------- protohelpers

  method SizeOfVarint(x: nat) returns (n: nat)
    ensures n == |VarintBytes(x)|
  {
    n := 1;
    var v := x;
    while v >= 128
      invariant n + |VarintBytes(v)| == |VarintBytes(x)| + 1
    {
      v := v / 128;
      n := n + 1;
    }
  }

  /** Writes the groups of x from base upwards. */
  method PutGroups(buf: array<byte>, base: nat, x: nat)
    requires base + |VarintBytes(x)| <= buf.Length
    modifies buf
    ensures buf[..] == Splice(old(buf[..]), base, VarintBytes(x))
  {
    var k, v := 0, x;
    ghost var start, all := buf[..], VarintBytes(x);
    CopyEnds(start, base, all);
    while v >= 128
      invariant k < |all| && all[k..] == VarintBytes(v)
      invariant buf[..] == Copied(start, base, all, k)
    {
      VarintSuffix(all, k, v);
      CopyStep(start, base, all, k);
      buf[base + k] := v % 128 + 128;
      v, k := v / 128, k + 1;
    }
    VarintSuffix(all, k, v);
    CopyStep(start, base, all, k);
    buf[base + k] := v;
  }

  /** Writes x so that it ends just before offset; returns where it starts. */
  method EncodeVarint(buf: array<byte>, offset: nat, x: nat, ghost orig: bytes, ghost done: bytes) returns (base: nat)
    requires Filled(buf[..], orig, offset, done)
    requires |VarintBytes(x)| <= offset
    modifies buf
    ensures base == offset - |VarintBytes(x)|
    ensures Filled(buf[..], orig, base, VarintBytes(x) + done)
  {
    var size := SizeOfVarint(x);
    base := offset - size;
    ghost var start := buf[..];
    PutGroups(buf, base, x);
    Fill(start, orig, offset, done, VarintBytes(x), buf[..]);
  }

  lemma VarintSuffix(all: bytes, k: nat, v: nat)
    requires k < |all| && all[k..] == VarintBytes(v)
    ensures all[k] == if v < 128 then v else 128 + v % 128
    ensures v < 128 ==> k + 1 == |all|
    ensures v >= 128 ==> k + 1 < |all| && all[k + 1..] == VarintBytes(v / 128)
  {
    assert all[k] == all[k..][0];
    assert all[k + 1..] == all[k..][1..];
  }

  // ---------------------------------------------------------------- raw pieces

  /** i -= len(s); copy(dAtA[i:], s) */
  method PutRaw(buf: array<byte>, i: nat, s: bytes, ghost orig: bytes, ghost done: bytes) returns (at: nat)
    requires Filled(buf[..], orig, i, done) && |s| <= i
    modifies buf
    ensures at == i - |s| && Filled(buf[..], orig, at, s + done)
  {
    at := i - |s|;
    ghost var start := buf[..];
    CopyEnds(start, at, s);
    for k := 0 to |s|
      invariant buf[..] == Copied(start, at, s, k)
    {
      CopyStep(start, at, s, k);
      buf[at + k] := s[k];
    }
    Fill(start, orig, i, done, s, buf[..]);
  }

  /** The tag bytes, last one first: i--; dAtA[i] = tag[k] */
  method PutTag(buf: array<byte>, i: nat, tag: bytes, ghost orig: bytes, ghost done: bytes) returns (at: nat)
    requires Filled(buf[..], orig, i, done) && |tag| <= i
    modifies buf
    ensures at == i - |tag| && Filled(buf[..], orig, at, tag + done)
  {
    at := i;
    ghost var start := buf[..];
    for k := |tag| downto 0
      invariant at == i - |tag| + k
      invariant buf[..] == start[..at] + tag[k..] + start[i..]
    {
      at := at - 1;
      buf[at] := tag[k];
    }
    Fill(start, orig, i, done, tag, buf[..]);
  }

  // ---------------------------------------------------------------- segments by field kind

  /** The payloads have the wire type of the key and numbers fit their width. */
  predicate ShapedSegment(s: Segment) {
    ValidKey(s.key) && forall p :: p in s.payloads ==> WireOf(p) == s.key.wire && (p.Bytes? || ValidPayload(p))
  }

  function StringSeg(num: nat, s: bytes): (r: Segment)
    ensures 1 <= num < MAX_FIELD ==> ShapedSegment(r)
    ensures r.key == Key(num, 2) && |r.payloads| <= 1
  {
    Segment(Key(num, 2), if |s| > 0 then [Bytes(s)] else [])
  }

  function IntSeg(num: nat, v: nat): (r: Segment)
    ensures 1 <= num < MAX_FIELD && v < TWO_64 ==> ShapedSegment(r)
    ensures r.key == Key(num, 0) && |r.payloads| <= 1
  {
    Segment(Key(num, 0), if v != 0 then [Varint(v)] else [])
  }

  function BoolSeg(num: nat, b: bool): (r: Segment)
    ensures 1 <= num < MAX_FIELD ==> ShapedSegment(r)
    ensures r.key == Key(num, 0) && |r.payloads| <= 1
  {
    IntSeg(num, if b then 1 else 0)
  }

  /** A double is its IEEE 754 bit pattern; the two zeros are the patterns equal to 0. */
  predicate IsZeroDouble(bits: nat) { bits == 0 || bits == TWO_63 }

  function DoubleSeg(num: nat, bits: nat): (r: Segment)
    ensures 1 <= num < MAX_FIELD && bits < TWO_64 ==> ShapedSegment(r)
    ensures r.key == Key(num, 1) && |r.payloads| <= 1
  {
    Segment(Key(num, 1), if IsZeroDouble(bits) then [] else [Fixed64(bits)])
  }

  /** A message-typed field, given the encoding of the message when it is set. */
  function ChildSeg(num: nat, child: Ptr<bytes>): (r: Segment)
    ensures 1 <= num < MAX_FIELD ==> ShapedSegment(r)
    ensures r.key == Key(num, 2) && |r.payloads| <= 1
  {
    Segment(Key(num, 2), if child.Ref? then [Bytes(child.value)] else [])
  }

  function ListSeg(num: nat, items: seq<bytes>): (r: Segment)
    ensures 1 <= num < MAX_FIELD ==> ShapedSegment(r)
    ensures r.key == Key(num, 2)
  {
    Segment(Key(num, 2), seq(|items|, k requires 0 <= k < |items| => Bytes(items[k])))
  }

  function SegBytes(s: Segment): bytes { SegmentBytes(s.key, s.payloads) }

  lemma SingleBytes(k: Key, p: Payload)
    ensures SegmentBytes(k, [p]) == RecordBytes(k, p)
  {
    assert [p][1..] == [];
    assert RecordBytes(k, p) + [] == RecordBytes(k, p);
  }

  /** The records of a list from its k-th element on. */
  function ListBytes(num: nat, items: seq<bytes>, k: nat): bytes
    decreases |items| - k
  {
    if k >= |items| then [] else RecordBytes(Key(num, 2), Bytes(items[k])) + ListBytes(num, items, k + 1)
  }

  lemma {:induction false} ListBytesFrom(num: nat, items: seq<bytes>, k: nat)
    requires k <= |items|
    ensures ListBytes(num, items, k) == SegmentBytes(Key(num, 2), ListSeg(num, items).payloads[k..])
    decreases |items| - k
  {
    if k < |items| {
      assert ListSeg(num, items).payloads[k..][1..] == ListSeg(num, items).payloads[k + 1..];
      ListBytesFrom(num, items, k + 1);
    }
  }

  lemma ListBytesAll(num: nat, items: seq<bytes>)
    ensures SegBytes(ListSeg(num, items)) == ListBytes(num, items, 0) && ListBytes(num, items, |items|) == []
  {
    ListBytesFrom(num, items, 0);
    assert ListSeg(num, items).payloads[0..] == ListSeg(num, items).payloads;
  }

  lemma {:induction false} ListBytesShrinks(num: nat, items: seq<bytes>, k: nat)
    ensures |ListBytes(num, items, k)| <= |ListBytes(num, items, 0)|
  {
    if 0 < k <= |items| { ListBytesShrinks(num, items, k - 1); }
  }

  /** One more record in front of a list that is being written from its end. */
  lemma ListStep(num: nat, items: seq<bytes>, k: nat, done: bytes)
    requires k < |items|
    ensures RecordBytes(Key(num, 2), Bytes(items[k])) + (ListBytes(num, items, k + 1) + done)
        == ListBytes(num, items, k) + done
    ensures |ListBytes(num, items, k)| <= |SegBytes(ListSeg(num, items))|
    ensures |ListBytes(num, items, k)| == |RecordBytes(Key(num, 2), Bytes(items[k]))| + |ListBytes(num, items, k + 1)|
    ensures |RecordBytes(Key(num, 2), Bytes(items[k]))| == |VarintBytes(num * 8 + 2)| + |VarintBytes(|items[k]|)|
        + |items[k]|
  {
    ListBytesAll(num, items);
    ListBytesShrinks(num, items, k);
    Assoc(RecordBytes(Key(num, 2), Bytes(items[k])), ListBytes(num, items, k + 1), done);
  }

  lemma {:induction false} BodyShrinks(segs: seq<Segment>, j: nat, u: bytes)
    ensures |Body(segs, j, u)| <= |Body(segs, 0, u)|
  {
    if 0 < j {
      BodyShrinks(segs, j - 1, u);
      if j > |segs| { assert Body(segs, j, u) == Body(segs, j - 1, u); }
    }
  }

  /** The body from segment j on is that segment and then the body after it. */
  lemma BodyStep(segs: seq<Segment>, j: nat, u: bytes)
    requires j < |segs|
    ensures Body(segs, j, u) == SegBytes(segs[j]) + Body(segs, j + 1, u)
    ensures |Body(segs, j, u)| <= |Body(segs, 0, u)|
  {
    BodyShrinks(segs, j, u);
  }

  lemma BodyEnd(segs: seq<Segment>, u: bytes)
    ensures Body(segs, |segs|, u) == u == u + []
    ensures |u| <= |Body(segs, 0, u)|
  {
    BodyShrinks(segs, |segs|, u);
  }

  lemma OneByteTags()
    ensures forall v: nat :: v < 128 ==> VarintBytes(v) == [v]
  {
  }

  lemma TwoByteTag(v: nat, first: byte, second: byte)
    requires first >= 128 && 1 <= second < 128 && v == first - 128 + 128 * second
    ensures VarintBytes(v) == [first, second]
  {
    assert VarintBytes(v / 128) == [second];
  }

  // ---------------------------------------------------------------- progress through a message

  /** Writing a message so that it ends at index end of a buffer that holds orig. */
  datatype Task = Task(orig: bytes, end: nat, segs: seq<Segment>, unknown: bytes)

  /** The segments from j on and the unknown bytes are in place from i to end; the rest of the
      buffer is as it was. */
  ghost predicate Reached(now: bytes, t: Task, i: nat, j: nat) {
    var done := Body(t.segs, j, t.unknown);
    i + |done| == t.end && |Body(t.segs, 0, t.unknown)| <= t.end && Filled(now, t.orig, i, done)
  }

  /** n is the size of the segments before j. */
  ghost predicate Counted(t: Task, n: nat, j: nat) {
    n + |Body(t.segs, j, t.unknown)| == |Body(t.segs, 0, t.unknown)|
  }

  lemma Finished(now: bytes, t: Task, i: nat)
    requires Reached(now, t, i, 0)
    ensures i <= t.end && t.end - i == |Body(t.segs, 0, t.unknown)|
    ensures Filled(now, t.orig, i, Body(t.segs, 0, t.unknown))
  {
  }

  /** The unknown bytes, written first because they come last. */
  method PutUnknown(buf: array<byte>, unknown: bytes, end: nat, ghost t: Task) returns (at: nat)
    requires t.orig == buf[..] && t.end == end <= buf.Length && t.unknown == unknown
    requires |Body(t.segs, 0, t.unknown)| <= end
    modifies buf
    ensures Reached(buf[..], t, at, |t.segs|)
  {
    BodyEnd(t.segs, unknown);
    FillNothing(t.orig, end);
    at := PutRaw(buf, end, unknown, t.orig, []);
  }

  method StartSize(ghost t: Task) returns (n: nat)
    ensures Counted(t, n, 0)
  {
    n := 0;
  }

  method SizeUnknown(n: nat, unknown: bytes, ghost t: Task) returns (sum: nat)
    requires unknown == t.unknown
    ensures Counted(t, n, |t.segs|) ==> sum == |Body(t.segs, 0, t.unknown)|
  {
    BodyEnd(t.segs, unknown);
    sum := n + |unknown|;
  }

  // ---------------------------------------------------------------- field blocks

  /** Length and tag in front of a length-delimited payload that is already in place. */
  method PutLength(buf: array<byte>, i: nat, tag: bytes, size: nat, ghost num: nat, ghost data: bytes,
      ghost orig: bytes, ghost done: bytes)
    returns (at: nat)
    requires Filled(buf[..], orig, i, data + done) && size == |data|
    requires tag == VarintBytes(num * 8 + 2) && |tag| + |VarintBytes(size)| <= i
    modifies buf
    ensures at == i - |tag| - |VarintBytes(size)|
    ensures Filled(buf[..], orig, at, RecordBytes(Key(num, 2), Bytes(data)) + done)
  {
    at := EncodeVarint(buf, i, size, orig, data + done);
    at := PutTag(buf, at, tag, orig, VarintBytes(size) + (data + done));
    Assoc(VarintBytes(size), data, done);
    Assoc(tag, VarintBytes(size) + data, done);
  }

  method PutBytes(buf: array<byte>, i: nat, tag: bytes, s: bytes, ghost num: nat, ghost orig: bytes, ghost done: bytes)
    returns (at: nat)
    requires Filled(buf[..], orig, i, done)
    requires tag == VarintBytes(num * 8 + 2) && |RecordBytes(Key(num, 2), Bytes(s))| <= i
    modifies buf
    ensures at == i - |RecordBytes(Key(num, 2), Bytes(s))|
    ensures Filled(buf[..], orig, at, RecordBytes(Key(num, 2), Bytes(s)) + done)
  {
    at := PutRaw(buf, i, s, orig, done);
    at := PutLength(buf, at, tag, |s|, num, s, orig, done);
  }

  /** A length-delimited field with presence: a oneof arm, or a child whose own encoder is not
      modelled and whose payload is given. */
  method PutOpaque(buf: array<byte>, i: nat, tag: bytes, child: Ptr<bytes>, ghost num: nat, ghost t: Task, ghost j: nat)
    returns (at: nat)
    requires Reached(buf[..], t, i, j + 1) && j < |t.segs|
    requires tag == VarintBytes(num * 8 + 2) && t.segs[j] == ChildSeg(num, child)
    modifies buf
    ensures Reached(buf[..], t, at, j)
  {
    BodyStep(t.segs, j, t.unknown);
    ghost var orig, done := t.orig, Body(t.segs, j + 1, t.unknown);
    at := i;
    if child.Ref? {
      SingleBytes(Key(num, 2), Bytes(child.value));
      at := PutBytes(buf, i, tag, child.value, num, orig, done);
    } else {
      NothingFirst(done);
    }
  }

  /** A singular string: omitted when empty. */
  method PutString(buf: array<byte>, i: nat, tag: bytes, s: bytes, ghost num: nat, ghost t: Task, ghost j: nat)
    returns (at: nat)
    requires Reached(buf[..], t, i, j + 1) && j < |t.segs|
    requires tag == VarintBytes(num * 8 + 2) && t.segs[j] == StringSeg(num, s)
    modifies buf
    ensures Reached(buf[..], t, at, j)
  {
    BodyStep(t.segs, j, t.unknown);
    ghost var orig, done := t.orig, Body(t.segs, j + 1, t.unknown);
    at := i;
    if |s| > 0 {
      SingleBytes(Key(num, 2), Bytes(s));
      at := PutBytes(buf, i, tag, s, num, orig, done);
    } else {
      NothingFirst(done);
    }
  }

  /** An integer or enum field, already converted to uint64: omitted when zero. */
  method PutInt(buf: array<byte>, i: nat, tag: bytes, v: nat, ghost num: nat, ghost t: Task, ghost j: nat)
    returns (at: nat)
    requires Reached(buf[..], t, i, j + 1) && j < |t.segs|
    requires tag == VarintBytes(num * 8) && t.segs[j] == IntSeg(num, v)
    modifies buf
    ensures Reached(buf[..], t, at, j)
  {
    BodyStep(t.segs, j, t.unknown);
    ghost var orig, done := t.orig, Body(t.segs, j + 1, t.unknown);
    at := i;
    if v != 0 {
      SingleBytes(Key(num, 0), Varint(v));
      at := EncodeVarint(buf, at, v, orig, done);
      at := PutTag(buf, at, tag, orig, VarintBytes(v) + done);
      Assoc(tag, VarintBytes(v), done);
    } else {
      NothingFirst(done);
    }
  }

  /** A bool field: omitted when false; otherwise the byte 1. */
  method PutBool(buf: array<byte>, i: nat, tag: bytes, b: bool, ghost num: nat, ghost t: Task, ghost j: nat)
    returns (at: nat)
    requires Reached(buf[..], t, i, j + 1) && j < |t.segs|
    requires tag == VarintBytes(num * 8) && t.segs[j] == BoolSeg(num, b)
    modifies buf
    ensures Reached(buf[..], t, at, j)
  {
    BodyStep(t.segs, j, t.unknown);
    ghost var orig, done := t.orig, Body(t.segs, j + 1, t.unknown);
    at := i;
    if b {
      SingleBytes(Key(num, 0), Varint(1));
      at := PutRaw(buf, at, [if b then 1 else 0], orig, done);
      at := PutTag(buf, at, tag, orig, [1] + done);
      Assoc(tag, [1], done);
    } else {
      NothingFirst(done);
    }
  }

  /** binary.LittleEndian.PutUint64(dAtA[i:], bits) */
  method PutUint64(buf: array<byte>, i: nat, bits: nat, ghost orig: bytes, ghost done: bytes) returns (at: nat)
    requires Filled(buf[..], orig, i, done) && 8 <= i
    modifies buf
    ensures at == i - 8 && Filled(buf[..], orig, at, LittleEndian(8, bits) + done)
  {
    at := i - 8;
    ghost var start := buf[..];
    ghost var all := LittleEndian(8, bits);
    CopyEnds(start, at, all);
    var v := bits;
    for k := 0 to 8
      invariant v >= 0 && all[k..] == LittleEndian(8 - k, v)
      invariant buf[..] == Copied(start, at, all, k)
    {
      LittleEndianSuffix(all, k, v);
      CopyStep(start, at, all, k);
      buf[at + k] := v % 256;
      v := v / 256;
    }
    Fill(start, orig, i, done, all, buf[..]);
  }

  lemma LittleEndianSuffix(all: bytes, k: nat, v: nat)
    requires k < |all| && all[k..] == LittleEndian(|all| - k, v)
    ensures all[k] == v % 256 && all[k + 1..] == LittleEndian(|all| - k - 1, v / 256)
  {
    assert all[k] == all[k..][0];
    assert all[k + 1..] == all[k..][1..];
  }

  /** A double field: omitted when it compares equal to zero. */
  method PutDouble(buf: array<byte>, i: nat, tag: bytes, bits: nat, ghost num: nat, ghost t: Task, ghost j: nat)
    returns (at: nat)
    requires Reached(buf[..], t, i, j + 1) && j < |t.segs|
    requires tag == VarintBytes(num * 8 + 1) && t.segs[j] == DoubleSeg(num, bits)
    modifies buf
    ensures Reached(buf[..], t, at, j)
  {
    BodyStep(t.segs, j, t.unknown);
    ghost var orig, done := t.orig, Body(t.segs, j + 1, t.unknown);
    at := i;
    if !IsZeroDouble(bits) {
      SingleBytes(Key(num, 1), Fixed64(bits));
      at := PutUint64(buf, at, bits, orig, done);
      at := PutTag(buf, at, tag, orig, LittleEndian(8, bits) + done);
      Assoc(tag, LittleEndian(8, bits), done);
    } else {
      NothingFirst(done);
    }
  }

  /** A repeated string: every element is written, the last one first. */
  method PutStrings(buf: array<byte>, i: nat, tag: bytes, items: seq<bytes>, ghost num: nat, ghost t: Task,
      ghost j: nat)
    returns (at: nat)
    requires Reached(buf[..], t, i, j + 1) && j < |t.segs|
    requires tag == VarintBytes(num * 8 + 2) && t.segs[j] == ListSeg(num, items)
    modifies buf
    ensures Reached(buf[..], t, at, j)
  {
    hide Splice, Filled, SegBytes, SegmentBytes, RecordBytes, ListSeg;
    BodyStep(t.segs, j, t.unknown);
    ghost var orig, done := t.orig, Body(t.segs, j + 1, t.unknown);
    at := i;
    NothingFirst(done);
    for k := |items| downto 0
      invariant at == i - |ListBytes(num, items, k)|
      invariant Filled(buf[..], orig, at, ListBytes(num, items, k) + done)
    {
      ListStep(num, items, k, done);
      ghost var later := ListBytes(num, items, k + 1) + done;
      at := PutBytes(buf, at, tag, items[k], num, orig, later);
    }
    ListBytesAll(num, items);
  }

  // ---------------------------------------------------------------- size blocks

  /** n += tagSize + l + SizeOfVarint(l) */
  method SizeBytes(tagSize: nat, l: nat, ghost num: nat, ghost s: bytes) returns (n: nat)
    requires tagSize == |VarintBytes(num * 8 + 2)| && l == |s|
    ensures n == |RecordBytes(Key(num, 2), Bytes(s))|
  {
    var v := SizeOfVarint(l);
    n := tagSize + l + v;
  }

  method SizeOpaque(n: nat, tagSize: nat, child: Ptr<bytes>, ghost num: nat, ghost t: Task, ghost j: nat)
    returns (sum: nat)
    requires j < |t.segs| && tagSize == |VarintBytes(num * 8 + 2)| && t.segs[j] == ChildSeg(num, child)
    ensures Counted(t, n, j) ==> Counted(t, sum, j + 1)
  {
    hide VarintBytes, Body;
    BodyStep(t.segs, j, t.unknown);
    sum := n;
    if child.Ref? {
      SingleBytes(Key(num, 2), Bytes(child.value));
      var l := SizeBytes(tagSize, |child.value|, num, child.value);
      sum := n + l;
    }
  }

  method SizeString(n: nat, tagSize: nat, s: bytes, ghost num: nat, ghost t: Task, ghost j: nat) returns (sum: nat)
    requires j < |t.segs| && tagSize == |VarintBytes(num * 8 + 2)| && t.segs[j] == StringSeg(num, s)
    ensures Counted(t, n, j) ==> Counted(t, sum, j + 1)
  {
    hide VarintBytes, Body;
    BodyStep(t.segs, j, t.unknown);
    sum := n;
    if |s| > 0 {
      SingleBytes(Key(num, 2), Bytes(s));
      var l := SizeBytes(tagSize, |s|, num, s);
      sum := n + l;
    }
  }

  method SizeInt(n: nat, tagSize: nat, v: nat, ghost num: nat, ghost t: Task, ghost j: nat) returns (sum: nat)
    requires j < |t.segs| && tagSize == |VarintBytes(num * 8)| && t.segs[j] == IntSeg(num, v)
    ensures Counted(t, n, j) ==> Counted(t, sum, j + 1)
  {
    hide VarintBytes, Body;
    BodyStep(t.segs, j, t.unknown);
    sum := n;
    if v != 0 {
      SingleBytes(Key(num, 0), Varint(v));
      var l := SizeOfVarint(v);
      sum := n + tagSize + l;
    }
  }

  /** Given the fixed size of tag and byte together. */
  method SizeBool(n: nat, fieldSize: nat, b: bool, ghost num: nat, ghost t: Task, ghost j: nat) returns (sum: nat)
    requires j < |t.segs| && fieldSize == |VarintBytes(num * 8)| + 1 && t.segs[j] == BoolSeg(num, b)
    ensures Counted(t, n, j) ==> Counted(t, sum, j + 1)
  {
    hide Body;
    BodyStep(t.segs, j, t.unknown);
    sum := n;
    if b {
      SingleBytes(Key(num, 0), Varint(1));
      sum := n + fieldSize;
    }
  }

  method SizeDouble(n: nat, fieldSize: nat, bits: nat, ghost num: nat, ghost t: Task, ghost j: nat) returns (sum: nat)
    requires j < |t.segs| && fieldSize == |VarintBytes(num * 8 + 1)| + 8 && t.segs[j] == DoubleSeg(num, bits)
    ensures Counted(t, n, j) ==> Counted(t, sum, j + 1)
  {
    hide VarintBytes, Body;
    BodyStep(t.segs, j, t.unknown);
    sum := n;
    if !IsZeroDouble(bits) {
      SingleBytes(Key(num, 1), Fixed64(bits));
      sum := n + fieldSize;
    }
  }

  method SizeStrings(n: nat, tagSize: nat, items: seq<bytes>, ghost num: nat, ghost t: Task, ghost j: nat)
    returns (sum: nat)
    requires j < |t.segs| && tagSize == |VarintBytes(num * 8 + 2)| && t.segs[j] == ListSeg(num, items)
    ensures Counted(t, n, j) ==> Counted(t, sum, j + 1)
  {
    hide VarintBytes, Body;
    BodyStep(t.segs, j, t.unknown);
    sum := n;
    ListBytesAll(num, items);
    for k := 0 to |items|
      invariant sum + |ListBytes(num, items, k)| == n + |SegBytes(ListSeg(num, items))|
    {
      var l := SizeBytes(tagSize, |items[k]|, num, items[k]);
      sum := sum + l;
    }
  }
}
