/** Properties that hold across the messages: entry points, field order, list concatenation,
    presence, signed varints, doubles and injectivity. */
module Properties {
  import opened Wire
  import opened Buffer
  import opened Message
  import opened AltName
  import opened Options
  import opened Scalars
  import opened InitDump
  import opened Listeners
  import New = CertsV3

  // ---------------------------------------------------------------- entry points

  /** Allocates exactly SizeVT bytes, fills them and returns the first n: a nil result for nil. */
  method MarshalVTStrict(p: Ptr<New.Certificates>) returns (out: Ptr<bytes>)
    ensures out == EncodeChild(New.EncodeCertificates, p)
  {
    hide Filled, New.EncodeCertificates;
    hide New.EncodeCertificates, Filled;
    if p.Nil? { return Nil; }
    var size := New.SizeCertificates(p);
    var data := new byte[size](_ => 0);
    ghost var zeros := data[..];
    var n := New.MarshalCertificates(p, data, size);
    FilledWhole(data[..], zeros, New.EncodeCertificates(p.value));
    assert data[..n] == data[..];
    out := Ref(data[..n]);
  }

  /** Fills the first SizeVT bytes of the caller's buffer. */
  method MarshalToVTStrict(p: Ptr<New.Certificates>, buf: array<byte>) returns (n: nat)
    requires |EncodePtr(New.EncodeCertificates, p)| <= buf.Length
    modifies buf
    ensures n == |EncodePtr(New.EncodeCertificates, p)|
    ensures buf[..] == EncodePtr(New.EncodeCertificates, p) + old(buf[n..])
  {
    hide Filled, EncodePtr;
    var size := New.SizeCertificates(p);
    n := New.MarshalCertificates(p, buf, size);
    FilledFront(buf[..], old(buf[..]), EncodePtr(New.EncodeCertificates, p));
    assert old(buf[..])[n..] == old(buf[n..]);
  }

  /** All three entry points produce one and the same byte string and touch nothing else: the slice, the
      front of one buffer and the tail of another. In one and the same buffer the tail is written over
      what the second call left. */
  method EntryPointsAgree(p: Ptr<New.Certificates>, front: array<byte>, back: array<byte>)
    returns (out: Ptr<bytes>, n: nat)
    requires |EncodePtr(New.EncodeCertificates, p)| <= front.Length
        && |EncodePtr(New.EncodeCertificates, p)| <= back.Length
    modifies front, back
    ensures (out.Nil? <==> p.Nil?) && n <= front.Length && n <= back.Length && n == |SliceOf(out)|
    ensures front != back ==> front[..] == SliceOf(out) + old(front[..])[n..]
    ensures front != back ==> back[..] == old(back[..])[..back.Length - n] + SliceOf(out)
    ensures front == back ==> front[..] == (SliceOf(out) + old(front[..])[n..])[..front.Length - n] + SliceOf(out)
  {
    hide New.EncodeCertificates, Filled;
    out := MarshalVTStrict(p);
    ghost var enc := EncodePtr(New.EncodeCertificates, p);
    assert SliceOf(out) == enc;
    n := MarshalToVTStrict(p, front);
    ghost var middle := back[..];
    var k := New.MarshalCertificates(p, back, back.Length);
    FilledTail(back[..], middle, enc);
  }

  /** A nil slice is an empty one to its readers. */
  function SliceOf(p: Ptr<bytes>): bytes { if p.Nil? then [] else p.value }

  lemma FilledTail(now: bytes, orig: bytes, done: bytes)
    requires |done| <= |orig| && Filled(now, orig, |orig| - |done|, done)
    ensures now == orig[..|orig| - |done|] + done
  {
  }

  // ---------------------------------------------------------------- field order

  function KnownFields(segs: seq<Segment>, j: nat): seq<Field> { BodyFields(segs, j, []) }

  /** The fields of a body come in ascending order of number; equal numbers only repeat one field. */
  predicate Ordered(fs: seq<Field>, repeated: set<nat>) {
    forall a, b :: 0 <= a < b < |fs| ==>
      fs[a].key.num < fs[b].key.num || (fs[a].key == fs[b].key && fs[a].key.num in repeated)
  }

  lemma OrderedConcat(here: seq<Field>, later: seq<Field>, k: Key, repeated: set<nat>)
    requires forall i :: 0 <= i < |here| ==> here[i].key == k
    requires |here| > 1 ==> k.num in repeated
    requires Ordered(later, repeated) && forall i :: 0 <= i < |later| ==> k.num < later[i].key.num
    ensures Ordered(here + later, repeated)
  {
    var all := here + later;
    forall a, b | 0 <= a < b < |all|
      ensures all[a].key.num < all[b].key.num || (all[a].key == all[b].key && all[a].key.num in repeated)
    {
      if a >= |here| {
        assert all[a] == later[a - |here|] && all[b] == later[b - |here|];
      } else if b >= |here| {
        assert all[b] == later[b - |here|];
      }
    }
  }

  lemma {:induction false} KnownFieldsOrdered(segs: seq<Segment>, schema: seq<Key>, j: nat, repeated: set<nat>)
    requires |segs| == |schema| && Ascending(schema)
    requires forall i :: 0 <= i < |segs| ==> segs[i].key == schema[i]
    requires forall i :: 0 <= i < |segs| && segs[i].key.num !in repeated ==> |segs[i].payloads| <= 1
    ensures Ordered(KnownFields(segs, j), repeated)
    ensures forall i :: 0 <= i < |KnownFields(segs, j)| ==>
        j < |segs| && KnownFields(segs, j)[i].key.num >= schema[j].num
    decreases |segs| - j
  {
    hide Ordered, SegmentFields;
    if j >= |segs| {
      NothingIsOrdered(repeated);
    } else {
      KnownFieldsOrdered(segs, schema, j + 1, repeated);
      var here, later := SegmentFields(segs[j].key, segs[j].payloads), KnownFields(segs, j + 1);
      OrderedConcat(here, later, schema[j], repeated);
      forall i | 0 <= i < |here + later| ensures (here + later)[i].key.num >= schema[j].num {
        if i >= |here| { assert (here + later)[i] == later[i - |here|]; }
      }
    }
  }

  lemma NothingIsOrdered(repeated: set<nat>)
    ensures Ordered([], repeated)
  {
  }

  lemma FieldsAssoc(a: seq<Field>, b: seq<Field>, c: seq<Field>)
    ensures (a + b) + c == a + (b + c)
  {
  }

  lemma {:induction false} BodyFieldsSplit(segs: seq<Segment>, j: nat, us: seq<Field>)
    ensures BodyFields(segs, j, us) == KnownFields(segs, j) + us
    decreases |segs| - j
  {
    hide SegmentFields;
    if j < |segs| {
      BodyFieldsSplit(segs, j + 1, us);
      FieldsAssoc(SegmentFields(segs[j].key, segs[j].payloads), KnownFields(segs, j + 1), us);
    }
  }

  /** Whatever subset of its 27 fields is set, the records of CommandLineOptions decode in strictly
      ascending order of field number, equal only among disabled_extensions, and the unknown fields
      follow. */
  lemma OptionsOrder(m: CommandLineOptions)
    requires Parse(m.unknown).Some? && |EncodeCommandLineOptions(m)| < TWO_63
    ensures var known := KnownFields(CommandLineOptionsSegs(m), 0);
            && Parse(EncodeCommandLineOptions(m)) == Some(known + Parse(m.unknown).value)
            && Ordered(known, {28})
  {
    hide ShapedSegment, CommandLineOptionsSegs, Parse, Body, Ordered;
    var segs := CommandLineOptionsSegs(m);
    CommandLineOptionsShape(m);
    ShapedConforms(segs, COMMAND_LINE_OPTIONS_SCHEMA, m.unknown);
    ParseBody(segs, 0, m.unknown);
    BodyFieldsSplit(segs, 0, Parse(m.unknown).value);
    OptionsSingular(m);
    KnownFieldsOrdered(segs, COMMAND_LINE_OPTIONS_SCHEMA, 0, {28});
  }

  /** Only disabled_extensions can occur more than once. */
  lemma OptionsSingular(m: CommandLineOptions)
    ensures forall i :: 0 <= i < |CommandLineOptionsSegs(m)| && CommandLineOptionsSegs(m)[i].key.num !in {28}
                   ==> |CommandLineOptionsSegs(m)[i].payloads| <= 1
  {
    hide CommandLineOptionsSegs, StringSeg, IntSeg, BoolSeg, ChildSeg, ListSeg;
    CommandLineOptionsLowAt(m);
    CommandLineOptionsMidAt(m);
    CommandLineOptionsHighAt(m);
    assert CommandLineOptionsSegs(m)[26].key.num == 28 by { CommandLineOptionsShape(m); }
  }

  // ---------------------------------------------------------------- list concatenation

  lemma {:induction false} SegmentConcat(k: Key, a: seq<Payload>, b: seq<Payload>)
    ensures SegmentBytes(k, a + b) == SegmentBytes(k, a) + SegmentBytes(k, b)
  {
    if a == [] {
      assert a + b == b;
    } else {
      assert (a + b)[1..] == a[1..] + b;
      SegmentConcat(k, a[1..], b);
    }
  }

  /** Encoding a concatenated list is concatenating the encodings, and sizes add up. */
  lemma DumpsHomomorphism(a: seq<Ptr<UnreadyTargetsDump>>, b: seq<Ptr<UnreadyTargetsDump>>)
    ensures EncodeUnreadyTargetsDumps(UnreadyTargetsDumps(a + b, []))
         == EncodeUnreadyTargetsDumps(UnreadyTargetsDumps(a, []))
             + EncodeUnreadyTargetsDumps(UnreadyTargetsDumps(b, []))
  {
    hide EncodeUnreadyTargetsDumps, EncodeUnreadyTargetsDump, SegmentBytes;
    var enc := EncodeUnreadyTargetsDump;
    DumpsAreOneSegment(a);
    DumpsAreOneSegment(b);
    DumpsAreOneSegment(a + b);
    assert ListSeg(1, EncodeItems(enc, a + b)).payloads
        == ListSeg(1, EncodeItems(enc, a)).payloads + ListSeg(1, EncodeItems(enc, b)).payloads;
    SegmentConcat(Key(1, 2), ListSeg(1, EncodeItems(enc, a)).payloads, ListSeg(1, EncodeItems(enc, b)).payloads);
  }

  lemma DumpsAreOneSegment(a: seq<Ptr<UnreadyTargetsDump>>)
    ensures EncodeUnreadyTargetsDumps(UnreadyTargetsDumps(a, []))
         == SegmentBytes(Key(1, 2), ListSeg(1, EncodeItems(EncodeUnreadyTargetsDump, a)).payloads)
  {
    var segs := UnreadyTargetsDumpsSegs(UnreadyTargetsDumps(a, []));
    BodyStep(segs, 0, []);
    BodyEnd(segs, []);
    assert SegBytes(segs[0]) + [] == SegBytes(segs[0]);
  }

  // ---------------------------------------------------------------- presence

  /** An arm that is set to the empty string takes two bytes and is still set after decoding. */
  lemma EmptyArmSurvives(n: Name, u: bytes)
    requires n in {Dns([]), Uri([]), IpAddress([])}
    requires WellFormedUnknown(u, SUBJECT_ALTERNATE_NAME_SCHEMA) && |u| < TWO_63 - 2
    ensures |EncodeSubjectAlternateName(SubjectAlternateName(n, u))| == 2 + |u|
    ensures DecodeSubjectAlternateName(EncodeSubjectAlternateName(SubjectAlternateName(n, u)))
        == Some(SubjectAlternateName(n, u))
  {
    var m := SubjectAlternateName(n, u);
    var segs := SubjectAlternateNameSegs(m);
    BodyStep(segs, 0, u);
    BodyStep(segs, 1, u);
    BodyStep(segs, 2, u);
    BodyEnd(segs, u);
    ChildBytes(1, DnsArm(n));
    ChildBytes(2, UriArm(n));
    ChildBytes(3, IpArm(n));
    SubjectAlternateNameRoundTrip(m);
  }

  // ---------------------------------------------------------------- signed varints

  /** A negative number takes ten bytes; a non-negative one takes the fewest bytes that can hold it. */
  lemma SignedVarintLength(x: int64)
    ensures var n := |VarintBytes(U64(x))|;
            && (x < 0 ==> n == 10)
            && (x >= 0 ==> n <= 9 && x < Pow(128, n) && (n > 1 ==> x >= Pow(128, n - 1)))
  {
    hide VarintBytes, Pow;
    PowConstants();
    VarintLength(U64(x), 10);
    VarintLength(U64(x), 9);
    var n := |VarintBytes(U64(x))|;
    VarintLength(U64(x), n);
    if n > 1 { VarintLength(U64(x), n - 1); }
  }

  /** Reading the varint and truncating gives the number back, for int64 and for int32 fields. */
  lemma SignedVarintRoundTrip(x: int64, after: bytes)
    ensures ReadVarint(VarintBytes(U64(x)) + after).Some?
    ensures var (v, n) := ReadVarint(VarintBytes(U64(x)) + after).value;
            && ToInt64(v) == x && n == |VarintBytes(U64(x))|
            && (-0x8000_0000 <= x < 0x8000_0000 ==> ToInt32(v) == x)
  {
    hide VarintBytes, ReadVarint;
    ReadVarintAfterWrite(U64(x), after);
  }

  /** No other encoding of the same number is shorter. */
  lemma SignedVarintMinimal(x: int64, s: bytes)
    requires ReadVarint(s).Some? && ReadVarint(s).value.0 == U64(x)
    ensures |VarintBytes(U64(x))| <= ReadVarint(s).value.1
  {
    VarintIsMinimal(s, 10);
  }

  /** The size of a range: nothing for zero, 11 bytes for a negative bound. */
  lemma RangeSize(m: Int64Range)
    ensures var part := (x: int64) => if x == 0 then 0 else if x < 0 then 11 else 1 + |VarintBytes(x)|;
            |EncodeInt64Range(m)| == part(m.start) + part(m.end) + |m.unknown|
  {
    var segs := Int64RangeSegs(m);
    BodyStep(segs, 0, m.unknown);
    BodyStep(segs, 1, m.unknown);
    BodyEnd(segs, m.unknown);
    SingleBytes(Key(1, 0), Varint(U64(m.start)));
    SingleBytes(Key(2, 0), Varint(U64(m.end)));
    SignedVarintLength(m.start);
    SignedVarintLength(m.end);
  }

  // ---------------------------------------------------------------- doubles

  /** Every bit pattern survives, except that negative zero comes back as positive zero. */
  lemma DoubleRangeExactly(m: DoubleRange)
    requires WellFormedDoubleRange(m) && |EncodeDoubleRange(m)| < TWO_63
    ensures DecodeDoubleRange(EncodeDoubleRange(m)) == Some(m) <==> m.start != TWO_63 && m.end != TWO_63
  {
    DoubleRangeRoundTrip(m);
  }

  lemma PercentExactly(m: Percent)
    requires WellFormedPercent(m) && |EncodePercent(m)| < TWO_63
    ensures DecodePercent(EncodePercent(m)) == Some(m) <==> m.value != TWO_63
  {
    PercentRoundTrip(m);
  }

  // ---------------------------------------------------------------- injectivity

  /** Two listener dumps have the same bytes exactly when they are equal up to nil against empty
      list elements; so active, warming and draining states are never confused. */
  lemma ListenersInjective(a: ListenersConfigDump, b: ListenersConfigDump)
    requires WellFormedListenersConfigDump(a) && |EncodeListenersConfigDump(a)| < TWO_63
    requires WellFormedListenersConfigDump(b) && |EncodeListenersConfigDump(b)| < TWO_63
    ensures EncodeListenersConfigDump(a) == EncodeListenersConfigDump(b)
       <==> NormalListenersConfigDump(a) == NormalListenersConfigDump(b)
  {
    ListenersConfigDumpRoundTrip(a);
    ListenersConfigDumpRoundTrip(b);
    ListenersConfigDumpSameBytes(a);
    ListenersConfigDumpSameBytes(b);
  }

  lemma CertificatesInjective(a: New.Certificates, b: New.Certificates)
    requires New.WellFormedCertificates(a) && |New.EncodeCertificates(a)| < TWO_63
    requires New.WellFormedCertificates(b) && |New.EncodeCertificates(b)| < TWO_63
    ensures New.EncodeCertificates(a) == New.EncodeCertificates(b)
        <==> New.NormalCertificates(a) == New.NormalCertificates(b)
  {
    New.CertificatesRoundTrip(a);
    New.CertificatesRoundTrip(b);
    New.CertificatesSameBytes(a);
    New.CertificatesSameBytes(b);
  }
}
