/** Children from other packages (Percent, Address, Locality, CircuitBreakers). The generated code
    asks at run time whether the child has its own encoder, and separately whether it has its own
    size function, and falls back to the proto library otherwise. */
module ForeignChild {
  import opened Wire
  import opened Buffer
  import opened Message

  /** What each function of the child would do; None stands for an error. An own encoder that fails may
      first have written bytes, here called scratch, in front of where it was told to end. */
  datatype Foreign = Foreign(
    hasMarshalVT: bool, marshalVT: Option<bytes>, scratch: bytes, hasSizeVT: bool, sizeVT: nat,
    protoMarshal: Option<bytes>, protoSize: nat)

  function ChosenMarshal(f: Foreign): Option<bytes> { if f.hasMarshalVT then f.marshalVT else f.protoMarshal }

  function ChosenSize(f: Foreign): nat { if f.hasSizeVT then f.sizeVT else f.protoSize }

  predicate CanEncode(p: Ptr<Foreign>) { p.Ref? ==> ChosenMarshal(p.value).Some? }

  /** The selected encoder succeeds and the selected size function reports its length. */
  predicate SoundChild(p: Ptr<Foreign>) {
    p.Ref? ==> ChosenMarshal(p.value).Some? && ChosenSize(p.value) == |ChosenMarshal(p.value).value|
  }

  /** The bytes between the child's length and the next field. */
  function ForeignPayload(p: Ptr<Foreign>): Ptr<bytes> {
    if p.Nil? then Nil else Ref(if ChosenMarshal(p.value).Some? then ChosenMarshal(p.value).value else [])
  }

  /** These payloads are the child's, told from its own fields: none for nil, else what the encoder that it
      is found to have returns. */
  predicate Carries(ps: seq<Payload>, p: Ptr<Foreign>) {
    match p
    case Nil => ps == []
    case Ref(f) =>
      if f.hasMarshalVT then f.marshalVT.Some? ==> ps == [Bytes(f.marshalVT.value)]
      else f.protoMarshal.Some? ==> ps == [Bytes(f.protoMarshal.value)]
  }

  lemma ForeignLayout(num: nat, p: Ptr<Foreign>)
    ensures Carries(ChildSeg(num, ForeignPayload(p)).payloads, p)
  {
  }

  // ---------------------------------------------------------------- children known by their bytes only

  /** A child that is nothing but its payload. */
  function Plain(payload: bytes): Foreign {
    Foreign(false, None, [], false, 0, Some(payload), |payload|)
  }

  function Whole(p: Ptr<bytes>): Ptr<Foreign> { if p.Nil? then Nil else Ref(Plain(p.value)) }

  lemma WholePayload(p: Ptr<bytes>)
    ensures ForeignPayload(Whole(p)) == p
  {
  }

  // ---------------------------------------------------------------- writing

  ghost predicate SameFrom(now: bytes, orig: bytes, k: nat) {
    k <= |now| == |orig| && now[k..] == orig[k..]
  }

  lemma SameFromFilled(now: bytes, start: bytes, orig: bytes, i: nat, done: bytes)
    requires Filled(start, orig, i, done) && SameFrom(now, start, i)
    ensures SameFrom(now, orig, i + |done|)
  {
    assert now[i + |done|..] == now[i..][|done|..] == start[i..][|done|..];
    assert start[i + |done|..] == orig[i + |done|..];
  }

  /** The child's own encoder: writes its payload so that it ends just before end and returns its length,
      or fails and leaves scratch behind. */
  method MarshalOwn(child: Foreign, buf: array<byte>, end: nat) returns (n: nat, ok: bool)
    requires end <= buf.Length && (child.marshalVT.Some? ==> |child.marshalVT.value| <= end)
    modifies buf
    ensures ok == child.marshalVT.Some?
    ensures ok ==> n == |child.marshalVT.value| && Filled(buf[..], old(buf[..]), end - n, child.marshalVT.value)
    ensures !ok ==> n == 0 && SameFrom(buf[..], old(buf[..]), end)
  {
    if child.marshalVT.Some? {
      FillNothing(buf[..], end);
      var i := PutRaw(buf, end, child.marshalVT.value, buf[..], []);
      assert child.marshalVT.value + [] == child.marshalVT.value;
      return end - i, true;
    }
    var i, k := end, |child.scratch|;
    while i > 0 && k > 0
      invariant i <= end && k <= |child.scratch|
      invariant buf[end..] == old(buf[end..])
    {
      i, k := i - 1, k - 1;
      buf[i] := child.scratch[k];
    }
    n, ok := 0, false;
  }

  /** Own encoder present: it writes in place, and its length and the tag go in front. */
  method PutOwn(buf: array<byte>, i: nat, tag: bytes, child: Foreign, ghost num: nat, ghost orig: bytes,
      ghost done: bytes)
    returns (at: nat, ok: bool)
    requires Filled(buf[..], orig, i, done) && tag == VarintBytes(num * 8 + 2)
    requires child.marshalVT.Some? ==> |RecordBytes(Key(num, 2), Bytes(child.marshalVT.value))| <= i
    modifies buf
    ensures ok == child.marshalVT.Some?
    ensures ok ==> at == i - |RecordBytes(Key(num, 2), Bytes(child.marshalVT.value))|
    ensures ok ==> Filled(buf[..], orig, at, RecordBytes(Key(num, 2), Bytes(child.marshalVT.value)) + done)
    ensures !ok ==> SameFrom(buf[..], orig, i + |done|)
  {
    hide Splice, Filled, SameFrom;
    ghost var start := buf[..];
    FilledBounds(start, orig, i, done);
    var size;
    size, ok := MarshalOwn(child, buf, i);
    if !ok {
      SameFromFilled(buf[..], start, orig, i, done);
      return i, false;
    }
    Fill(start, orig, i, done, child.marshalVT.value, buf[..]);
    at := PutLength(buf, i - size, tag, size, num, child.marshalVT.value, orig, done);
  }

  /** No own encoder: proto.Marshal returns a fresh slice, which is copied. */
  method PutCopied(buf: array<byte>, i: nat, tag: bytes, child: Foreign, ghost num: nat, ghost orig: bytes,
      ghost done: bytes)
    returns (at: nat, ok: bool)
    requires Filled(buf[..], orig, i, done) && tag == VarintBytes(num * 8 + 2)
    requires child.protoMarshal.Some? ==> |RecordBytes(Key(num, 2), Bytes(child.protoMarshal.value))| <= i
    modifies buf
    ensures ok == child.protoMarshal.Some?
    ensures ok ==> at == i - |RecordBytes(Key(num, 2), Bytes(child.protoMarshal.value))|
    ensures ok ==> Filled(buf[..], orig, at, RecordBytes(Key(num, 2), Bytes(child.protoMarshal.value)) + done)
    ensures !ok ==> SameFrom(buf[..], orig, i + |done|)
  {
    hide Splice, Filled, SameFrom;
    if child.protoMarshal.None? {
      FilledSame(buf[..], orig, i, done);
      return i, false;
    }
    var encoded := child.protoMarshal.value;
    at := PutRaw(buf, i, encoded, orig, done);
    at := PutLength(buf, at, tag, |encoded|, num, encoded, orig, done);
    ok := true;
  }

  method PutForeign(buf: array<byte>, i: nat, tag: bytes, child: Ptr<Foreign>, ghost num: nat, ghost t: Task,
      ghost j: nat)
    returns (at: nat, ok: bool)
    requires Reached(buf[..], t, i, j + 1) && j < |t.segs|
    requires tag == VarintBytes(num * 8 + 2) && t.segs[j] == ChildSeg(num, ForeignPayload(child))
    modifies buf
    ensures ok == CanEncode(child)
    ensures ok ==> Reached(buf[..], t, at, j)
    ensures !ok ==> SameFrom(buf[..], t.orig, t.end)
  {
    hide Splice, Filled, SegBytes, RecordBytes, SameFrom;
    BodyStep(t.segs, j, t.unknown);
    ChildBytes(num, ForeignPayload(child));
    ghost var done := Body(t.segs, j + 1, t.unknown);
    at, ok := i, true;
    NothingFirst(done);
    if child.Ref? {
      if child.value.hasMarshalVT {
        at, ok := PutOwn(buf, i, tag, child.value, num, t.orig, done);
      } else {
        at, ok := PutCopied(buf, i, tag, child.value, num, t.orig, done);
      }
    }
  }

  lemma FilledSame(now: bytes, orig: bytes, i: nat, done: bytes)
    requires Filled(now, orig, i, done)
    ensures SameFrom(now, orig, i + |done|)
  {
  }

  // ---------------------------------------------------------------- counting

  /** What the size functions see of a child: a payload of the length it reports. */
  function Reported(p: Ptr<Foreign>): Ptr<Foreign> {
    if p.Nil? then Nil else Ref(Plain(seq(ChosenSize(p.value), _ => 0)))
  }

  function ReportedPtr<M>(reported: M -> M, p: Ptr<M>): Ptr<M> {
    if p.Nil? then Nil else Ref(reported(p.value))
  }

  function ReportedItems<M>(reported: M -> M, items: seq<Ptr<M>>): seq<Ptr<M>> {
    seq(|items|, k requires 0 <= k < |items| => ReportedPtr(reported, items[k]))
  }

  method SizeForeign(n: nat, tagSize: nat, child: Ptr<Foreign>, ghost num: nat, ghost t: Task, ghost j: nat)
    returns (sum: nat)
    requires j < |t.segs| && tagSize == |VarintBytes(num * 8 + 2)|
    requires t.segs[j] == ChildSeg(num, ForeignPayload(Reported(child)))
    ensures Counted(t, n, j) ==> Counted(t, sum, j + 1)
  {
    BodyStep(t.segs, j, t.unknown);
    ChildBytes(num, ForeignPayload(Reported(child)));
    sum := n;
    if child.Ref? {
      var l := 0;
      if child.value.hasSizeVT {
        l := child.value.sizeVT;
      } else {
        l := child.value.protoSize;
      }
      var v := SizeOfVarint(l);
      sum := n + tagSize + l + v;
    }
  }

  /** A child that reports its size truly takes the room that it reports. */
  lemma ReportedLength(num: nat, child: Ptr<Foreign>)
    requires SoundChild(child)
    ensures |SegBytes(ChildSeg(num, ForeignPayload(Reported(child))))|
        == |SegBytes(ChildSeg(num, ForeignPayload(child)))|
  {
    hide SegBytes, ChildSeg;
    ChildBytes(num, ForeignPayload(Reported(child)));
    ChildBytes(num, ForeignPayload(child));
  }

  lemma {:induction false} ListLength(num: nat, a: seq<bytes>, b: seq<bytes>, k: nat)
    requires |a| == |b| && k <= |a| && forall i :: 0 <= i < |a| ==> |a[i]| == |b[i]|
    ensures |ListBytes(num, a, k)| == |ListBytes(num, b, k)|
    decreases |a| - k
  {
    hide RecordBytes, VarintBytes, SegBytes, ListSeg;
    if k < |a| {
      ListLength(num, a, b, k + 1);
      ListStep(num, a, k, []);
      ListStep(num, b, k, []);
    }
  }

  lemma ReportedListLength<M>(num: nat, enc: M -> bytes, reported: M -> M, items: seq<Ptr<M>>)
    requires forall p :: p in items && p.Ref? ==> |enc(reported(p.value))| == |enc(p.value)|
    ensures |SegBytes(ListSeg(num, EncodeItems(enc, ReportedItems(reported, items))))|
        == |SegBytes(ListSeg(num, EncodeItems(enc, items)))|
  {
    hide SegBytes, ListSeg;
    var a, b := EncodeItems(enc, ReportedItems(reported, items)), EncodeItems(enc, items);
    forall i | 0 <= i < |items| ensures |a[i]| == |b[i]| { assert items[i] in items; }
    ListLength(num, a, b, 0);
    ListBytesAll(num, a);
    ListBytesAll(num, b);
  }

  /** Field blocks of the same lengths make bodies of the same length. */
  lemma {:induction false} SameLength(a: seq<Segment>, b: seq<Segment>, j: nat, u: bytes)
    requires |a| == |b| && forall i :: 0 <= i < |a| ==> |SegBytes(a[i])| == |SegBytes(b[i])|
    ensures |Body(a, j, u)| == |Body(b, j, u)|
    decreases |a| - j
  {
    hide SegBytes;
    if j < |a| {
      SameLength(a, b, j + 1, u);
      BodyStep(a, j, u);
      BodyStep(b, j, u);
    }
  }

  // ---------------------------------------------------------------- pairing

  /** Each encoder's length is what its own size function reports, and the child has both of its own
      functions or neither. */
  predicate Paired(f: Foreign) {
    && f.hasMarshalVT == f.hasSizeVT
    && (f.marshalVT.Some? ==> f.sizeVT == |f.marshalVT.value|)
    && (f.protoMarshal.Some? ==> f.protoSize == |f.protoMarshal.value|)
  }

  predicate PairedPtr(p: Ptr<Foreign>) { p.Ref? ==> Paired(p.value) }

  /** The same child, found to have its own functions or not. */
  function Switch(p: Ptr<Foreign>, own: bool): Ptr<Foreign> {
    if p.Nil? then Nil else Ref(p.value.(hasMarshalVT := own, hasSizeVT := own))
  }

  /** Both encoders of the child do the same. */
  predicate OneEncoding(p: Ptr<Foreign>) { p.Ref? ==> p.value.marshalVT == p.value.protoMarshal }
}
