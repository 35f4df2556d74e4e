/** Leaf messages of envoy/type: integer and double ranges and percentages. */
module Scalars {
  import opened Wire
  import opened Buffer
  import opened Message

  // ---------------------------------------------------------------- Int64Range

  datatype Int64Range = Int64Range(start: int64, end: int64, unknown: bytes)

  const INT64_RANGE_SCHEMA: seq<Key> := [Key(1, 0), Key(2, 0)]

  function Int64RangeSegs(m: Int64Range): seq<Segment> {
    [ IntSeg(1, U64(m.start)),
      IntSeg(2, U64(m.end)) ]
  }

  function EncodeInt64Range(m: Int64Range): bytes {
    Body(Int64RangeSegs(m), 0, m.unknown)
  }

  method MarshalInt64Range(p: Ptr<Int64Range>, buf: array<byte>, end: nat) returns (n: nat)
    requires |EncodePtr(EncodeInt64Range, p)| <= end <= buf.Length
    modifies buf
    ensures n == |EncodePtr(EncodeInt64Range, p)|
    ensures Filled(buf[..], old(buf[..]), end - n, EncodePtr(EncodeInt64Range, p))
  {
    hide Reached, Counted, Body, VarintBytes, StringSeg, IntSeg, BoolSeg, ChildSeg, ListSeg, DoubleSeg;
    if p.Nil? {
      FillNothing(buf[..], end);
      return 0;
    }
    var m := p.value;
    ghost var t := Task(buf[..], end, Int64RangeSegs(m), m.unknown);
    OneByteTags();
    var i := PutUnknown(buf, m.unknown, end, t);
    i := PutInt(buf, i, [0x10], U64(m.end), 2, t, 1);
    i := PutInt(buf, i, [0x08], U64(m.start), 1, t, 0);
    Finished(buf[..], t, i);
    n := end - i;
  }

  method SizeInt64Range(p: Ptr<Int64Range>) returns (n: nat)
    ensures n == |EncodePtr(EncodeInt64Range, p)|
  {
    hide Reached, Counted, Body, VarintBytes, StringSeg, IntSeg, BoolSeg, ChildSeg, ListSeg, DoubleSeg;
    if p.Nil? { return 0; }
    var m := p.value;
    ghost var t := Task([], 0, Int64RangeSegs(m), m.unknown);
    OneByteTags();
    n := StartSize(t);
    n := SizeInt(n, 1, U64(m.start), 1, t, 0);
    n := SizeInt(n, 1, U64(m.end), 2, t, 1);
    n := SizeUnknown(n, m.unknown, t);
  }

  function DecodeInt64Range(s: bytes): Option<Int64Range> {
    var fs :- Parse(s);
    Some(Int64Range(
      ToInt64(LastInt(Payloads(fs, Key(1, 0)))),
      ToInt64(LastInt(Payloads(fs, Key(2, 0)))),
      Unrecognised(fs, INT64_RANGE_SCHEMA)))
  }

  function NormalInt64Range(m: Int64Range): Int64Range {
    m
  }

  predicate WellFormedInt64Range(m: Int64Range) {
    && WellFormedUnknown(m.unknown, INT64_RANGE_SCHEMA)
  }

  lemma Int64RangeShape(m: Int64Range)
    ensures Shaped(Int64RangeSegs(m), INT64_RANGE_SCHEMA) && Ascending(INT64_RANGE_SCHEMA)
  {
    hide ShapedSegment, StringSeg, IntSeg, BoolSeg, ChildSeg, ListSeg, DoubleSeg;
  }

  lemma Int64RangeRoundTrip(m: Int64Range)
    requires WellFormedInt64Range(m) && |EncodeInt64Range(m)| < TWO_63
    ensures DecodeInt64Range(EncodeInt64Range(m)) == Some(NormalInt64Range(m))
  {
    hide Parse, Body, Payloads, Unrecognised, ShapedSegment, Items, Merged, LastData, LastInt, U64;
    var segs := Int64RangeSegs(m);
    Int64RangeShape(m);
    ReadMessage(segs, INT64_RANGE_SCHEMA, m.unknown);
    var fs := Parse(EncodeInt64Range(m)).value;
    assert Payloads(fs, INT64_RANGE_SCHEMA[0]) == segs[0].payloads;
    IntBack(1, m.start);
    assert Payloads(fs, INT64_RANGE_SCHEMA[1]) == segs[1].payloads;
    IntBack(2, m.end);
  }

  /** Which record carries which field, and when it is there at all. */
  lemma Int64RangeLayout(m: Int64Range)
    requires WellFormedUnknown(m.unknown, INT64_RANGE_SCHEMA) && |EncodeInt64Range(m)| < TWO_63
    ensures Parse(EncodeInt64Range(m)).Some?
    ensures var fs := Parse(EncodeInt64Range(m)).value;
            && Payloads(fs, Key(1, 0)) == (if m.start == 0 then []
               else [Varint(if m.start < 0 then m.start + TWO_64 else m.start)])
            && Payloads(fs, Key(2, 0)) == (if m.end == 0 then []
               else [Varint(if m.end < 0 then m.end + TWO_64 else m.end)])
            && Unrecognised(fs, INT64_RANGE_SCHEMA) == m.unknown
  {
    hide Parse, Body, Payloads, Unrecognised, ShapedSegment, Items, WellFormedUnknown;
    var segs := Int64RangeSegs(m);
    Int64RangeShape(m);
    ReadMessage(segs, INT64_RANGE_SCHEMA, m.unknown);
    var fs := Parse(EncodeInt64Range(m)).value;
    assert Payloads(fs, INT64_RANGE_SCHEMA[0]) == segs[0].payloads;
    assert Payloads(fs, INT64_RANGE_SCHEMA[1]) == segs[1].payloads;
  }

  // ---------------------------------------------------------------- Int32Range

  datatype Int32Range = Int32Range(start: int32, end: int32, unknown: bytes)

  const INT32_RANGE_SCHEMA: seq<Key> := [Key(1, 0), Key(2, 0)]

  function Int32RangeSegs(m: Int32Range): seq<Segment> {
    [ IntSeg(1, U64(m.start)),
      IntSeg(2, U64(m.end)) ]
  }

  function EncodeInt32Range(m: Int32Range): bytes {
    Body(Int32RangeSegs(m), 0, m.unknown)
  }

  method MarshalInt32Range(p: Ptr<Int32Range>, buf: array<byte>, end: nat) returns (n: nat)
    requires |EncodePtr(EncodeInt32Range, p)| <= end <= buf.Length
    modifies buf
    ensures n == |EncodePtr(EncodeInt32Range, p)|
    ensures Filled(buf[..], old(buf[..]), end - n, EncodePtr(EncodeInt32Range, p))
  {
    hide Reached, Counted, Body, VarintBytes, StringSeg, IntSeg, BoolSeg, ChildSeg, ListSeg, DoubleSeg;
    if p.Nil? {
      FillNothing(buf[..], end);
      return 0;
    }
    var m := p.value;
    ghost var t := Task(buf[..], end, Int32RangeSegs(m), m.unknown);
    OneByteTags();
    var i := PutUnknown(buf, m.unknown, end, t);
    i := PutInt(buf, i, [0x10], U64(m.end), 2, t, 1);
    i := PutInt(buf, i, [0x08], U64(m.start), 1, t, 0);
    Finished(buf[..], t, i);
    n := end - i;
  }

  method SizeInt32Range(p: Ptr<Int32Range>) returns (n: nat)
    ensures n == |EncodePtr(EncodeInt32Range, p)|
  {
    hide Reached, Counted, Body, VarintBytes, StringSeg, IntSeg, BoolSeg, ChildSeg, ListSeg, DoubleSeg;
    if p.Nil? { return 0; }
    var m := p.value;
    ghost var t := Task([], 0, Int32RangeSegs(m), m.unknown);
    OneByteTags();
    n := StartSize(t);
    n := SizeInt(n, 1, U64(m.start), 1, t, 0);
    n := SizeInt(n, 1, U64(m.end), 2, t, 1);
    n := SizeUnknown(n, m.unknown, t);
  }

  function DecodeInt32Range(s: bytes): Option<Int32Range> {
    var fs :- Parse(s);
    Some(Int32Range(
      ToInt32(LastInt(Payloads(fs, Key(1, 0)))),
      ToInt32(LastInt(Payloads(fs, Key(2, 0)))),
      Unrecognised(fs, INT32_RANGE_SCHEMA)))
  }

  function NormalInt32Range(m: Int32Range): Int32Range {
    m
  }

  predicate WellFormedInt32Range(m: Int32Range) {
    && WellFormedUnknown(m.unknown, INT32_RANGE_SCHEMA)
  }

  lemma Int32RangeShape(m: Int32Range)
    ensures Shaped(Int32RangeSegs(m), INT32_RANGE_SCHEMA) && Ascending(INT32_RANGE_SCHEMA)
  {
    hide ShapedSegment, StringSeg, IntSeg, BoolSeg, ChildSeg, ListSeg, DoubleSeg;
  }

  lemma Int32RangeRoundTrip(m: Int32Range)
    requires WellFormedInt32Range(m) && |EncodeInt32Range(m)| < TWO_63
    ensures DecodeInt32Range(EncodeInt32Range(m)) == Some(NormalInt32Range(m))
  {
    hide Parse, Body, Payloads, Unrecognised, ShapedSegment, Items, Merged, LastData, LastInt, U64;
    var segs := Int32RangeSegs(m);
    Int32RangeShape(m);
    ReadMessage(segs, INT32_RANGE_SCHEMA, m.unknown);
    var fs := Parse(EncodeInt32Range(m)).value;
    assert Payloads(fs, INT32_RANGE_SCHEMA[0]) == segs[0].payloads;
    IntBack(1, m.start);
    assert Payloads(fs, INT32_RANGE_SCHEMA[1]) == segs[1].payloads;
    IntBack(2, m.end);
  }

  /** Which record carries which field, and when it is there at all. */
  lemma Int32RangeLayout(m: Int32Range)
    requires WellFormedUnknown(m.unknown, INT32_RANGE_SCHEMA) && |EncodeInt32Range(m)| < TWO_63
    ensures Parse(EncodeInt32Range(m)).Some?
    ensures var fs := Parse(EncodeInt32Range(m)).value;
            && Payloads(fs, Key(1, 0)) == (if m.start == 0 then []
               else [Varint(if m.start < 0 then m.start + TWO_64 else m.start)])
            && Payloads(fs, Key(2, 0)) == (if m.end == 0 then []
               else [Varint(if m.end < 0 then m.end + TWO_64 else m.end)])
            && Unrecognised(fs, INT32_RANGE_SCHEMA) == m.unknown
  {
    hide Parse, Body, Payloads, Unrecognised, ShapedSegment, Items, WellFormedUnknown;
    var segs := Int32RangeSegs(m);
    Int32RangeShape(m);
    ReadMessage(segs, INT32_RANGE_SCHEMA, m.unknown);
    var fs := Parse(EncodeInt32Range(m)).value;
    assert Payloads(fs, INT32_RANGE_SCHEMA[0]) == segs[0].payloads;
    assert Payloads(fs, INT32_RANGE_SCHEMA[1]) == segs[1].payloads;
  }

  // ---------------------------------------------------------------- DoubleRange

  datatype DoubleRange = DoubleRange(start: uint64, end: uint64, unknown: bytes)

  const DOUBLE_RANGE_SCHEMA: seq<Key> := [Key(1, 1), Key(2, 1)]

  function DoubleRangeSegs(m: DoubleRange): seq<Segment> {
    [ DoubleSeg(1, m.start),
      DoubleSeg(2, m.end) ]
  }

  function EncodeDoubleRange(m: DoubleRange): bytes {
    Body(DoubleRangeSegs(m), 0, m.unknown)
  }

  method MarshalDoubleRange(p: Ptr<DoubleRange>, buf: array<byte>, end: nat) returns (n: nat)
    requires |EncodePtr(EncodeDoubleRange, p)| <= end <= buf.Length
    modifies buf
    ensures n == |EncodePtr(EncodeDoubleRange, p)|
    ensures Filled(buf[..], old(buf[..]), end - n, EncodePtr(EncodeDoubleRange, p))
  {
    hide Reached, Counted, Body, VarintBytes, StringSeg, IntSeg, BoolSeg, ChildSeg, ListSeg, DoubleSeg;
    if p.Nil? {
      FillNothing(buf[..], end);
      return 0;
    }
    var m := p.value;
    ghost var t := Task(buf[..], end, DoubleRangeSegs(m), m.unknown);
    OneByteTags();
    var i := PutUnknown(buf, m.unknown, end, t);
    i := PutDouble(buf, i, [0x11], m.end, 2, t, 1);
    i := PutDouble(buf, i, [0x09], m.start, 1, t, 0);
    Finished(buf[..], t, i);
    n := end - i;
  }

  method SizeDoubleRange(p: Ptr<DoubleRange>) returns (n: nat)
    ensures n == |EncodePtr(EncodeDoubleRange, p)|
  {
    hide Reached, Counted, Body, VarintBytes, StringSeg, IntSeg, BoolSeg, ChildSeg, ListSeg, DoubleSeg;
    if p.Nil? { return 0; }
    var m := p.value;
    ghost var t := Task([], 0, DoubleRangeSegs(m), m.unknown);
    OneByteTags();
    n := StartSize(t);
    n := SizeDouble(n, 9, m.start, 1, t, 0);
    n := SizeDouble(n, 9, m.end, 2, t, 1);
    n := SizeUnknown(n, m.unknown, t);
  }

  function DecodeDoubleRange(s: bytes): Option<DoubleRange> {
    var fs :- Parse(s);
    Some(DoubleRange(
      ToUint64(LastBits(Payloads(fs, Key(1, 1)))),
      ToUint64(LastBits(Payloads(fs, Key(2, 1)))),
      Unrecognised(fs, DOUBLE_RANGE_SCHEMA)))
  }

  function NormalDoubleRange(m: DoubleRange): DoubleRange {
    m.(start := NormalDouble(m.start),
       end := NormalDouble(m.end))
  }

  predicate WellFormedDoubleRange(m: DoubleRange) {
    && WellFormedUnknown(m.unknown, DOUBLE_RANGE_SCHEMA)
  }

  lemma DoubleRangeShape(m: DoubleRange)
    ensures Shaped(DoubleRangeSegs(m), DOUBLE_RANGE_SCHEMA) && Ascending(DOUBLE_RANGE_SCHEMA)
  {
    hide ShapedSegment, StringSeg, IntSeg, BoolSeg, ChildSeg, ListSeg, DoubleSeg;
  }

  lemma DoubleRangeRoundTrip(m: DoubleRange)
    requires WellFormedDoubleRange(m) && |EncodeDoubleRange(m)| < TWO_63
    ensures DecodeDoubleRange(EncodeDoubleRange(m)) == Some(NormalDoubleRange(m))
  {
    hide Parse, Body, Payloads, Unrecognised, ShapedSegment, Items, Merged, LastData, LastInt, U64;
    var segs := DoubleRangeSegs(m);
    DoubleRangeShape(m);
    ReadMessage(segs, DOUBLE_RANGE_SCHEMA, m.unknown);
    var fs := Parse(EncodeDoubleRange(m)).value;
    assert Payloads(fs, DOUBLE_RANGE_SCHEMA[0]) == segs[0].payloads;
    DoubleBack(1, m.start);
    assert Payloads(fs, DOUBLE_RANGE_SCHEMA[1]) == segs[1].payloads;
    DoubleBack(2, m.end);
  }

  /** Which record carries which field, and when it is there at all. */
  lemma DoubleRangeLayout(m: DoubleRange)
    requires WellFormedUnknown(m.unknown, DOUBLE_RANGE_SCHEMA) && |EncodeDoubleRange(m)| < TWO_63
    ensures Parse(EncodeDoubleRange(m)).Some?
    ensures var fs := Parse(EncodeDoubleRange(m)).value;
            && Payloads(fs, Key(1, 1)) == (if m.start == 0 || m.start == TWO_63 then [] else [Fixed64(m.start)])
            && Payloads(fs, Key(2, 1)) == (if m.end == 0 || m.end == TWO_63 then [] else [Fixed64(m.end)])
            && Unrecognised(fs, DOUBLE_RANGE_SCHEMA) == m.unknown
  {
    hide Parse, Body, Payloads, Unrecognised, ShapedSegment, Items, WellFormedUnknown;
    var segs := DoubleRangeSegs(m);
    DoubleRangeShape(m);
    ReadMessage(segs, DOUBLE_RANGE_SCHEMA, m.unknown);
    var fs := Parse(EncodeDoubleRange(m)).value;
    assert Payloads(fs, DOUBLE_RANGE_SCHEMA[0]) == segs[0].payloads;
    assert Payloads(fs, DOUBLE_RANGE_SCHEMA[1]) == segs[1].payloads;
  }

  // ---------------------------------------------------------------- Percent

  datatype Percent = Percent(value: uint64, unknown: bytes)

  const PERCENT_SCHEMA: seq<Key> := [Key(1, 1)]

  function PercentSegs(m: Percent): seq<Segment> {
    [DoubleSeg(1, m.value)]
  }

  function EncodePercent(m: Percent): bytes {
    Body(PercentSegs(m), 0, m.unknown)
  }

  method MarshalPercent(p: Ptr<Percent>, buf: array<byte>, end: nat) returns (n: nat)
    requires |EncodePtr(EncodePercent, p)| <= end <= buf.Length
    modifies buf
    ensures n == |EncodePtr(EncodePercent, p)|
    ensures Filled(buf[..], old(buf[..]), end - n, EncodePtr(EncodePercent, p))
  {
    hide Reached, Counted, Body, VarintBytes, StringSeg, IntSeg, BoolSeg, ChildSeg, ListSeg, DoubleSeg;
    if p.Nil? {
      FillNothing(buf[..], end);
      return 0;
    }
    var m := p.value;
    ghost var t := Task(buf[..], end, PercentSegs(m), m.unknown);
    OneByteTags();
    var i := PutUnknown(buf, m.unknown, end, t);
    i := PutDouble(buf, i, [0x09], m.value, 1, t, 0);
    Finished(buf[..], t, i);
    n := end - i;
  }

  method SizePercent(p: Ptr<Percent>) returns (n: nat)
    ensures n == |EncodePtr(EncodePercent, p)|
  {
    hide Reached, Counted, Body, VarintBytes, StringSeg, IntSeg, BoolSeg, ChildSeg, ListSeg, DoubleSeg;
    if p.Nil? { return 0; }
    var m := p.value;
    ghost var t := Task([], 0, PercentSegs(m), m.unknown);
    OneByteTags();
    n := StartSize(t);
    n := SizeDouble(n, 9, m.value, 1, t, 0);
    n := SizeUnknown(n, m.unknown, t);
  }

  function DecodePercent(s: bytes): Option<Percent> {
    var fs :- Parse(s);
    Some(Percent(
      ToUint64(LastBits(Payloads(fs, Key(1, 1)))),
      Unrecognised(fs, PERCENT_SCHEMA)))
  }

  function NormalPercent(m: Percent): Percent {
    m.(value := NormalDouble(m.value))
  }

  predicate WellFormedPercent(m: Percent) {
    && WellFormedUnknown(m.unknown, PERCENT_SCHEMA)
  }

  lemma PercentShape(m: Percent)
    ensures Shaped(PercentSegs(m), PERCENT_SCHEMA) && Ascending(PERCENT_SCHEMA)
  {
    hide ShapedSegment, StringSeg, IntSeg, BoolSeg, ChildSeg, ListSeg, DoubleSeg;
  }

  lemma PercentRoundTrip(m: Percent)
    requires WellFormedPercent(m) && |EncodePercent(m)| < TWO_63
    ensures DecodePercent(EncodePercent(m)) == Some(NormalPercent(m))
  {
    hide Parse, Body, Payloads, Unrecognised, ShapedSegment, Items, Merged, LastData, LastInt, U64;
    var segs := PercentSegs(m);
    PercentShape(m);
    ReadMessage(segs, PERCENT_SCHEMA, m.unknown);
    var fs := Parse(EncodePercent(m)).value;
    assert Payloads(fs, PERCENT_SCHEMA[0]) == segs[0].payloads;
    DoubleBack(1, m.value);
  }

  /** Which record carries which field, and when it is there at all. */
  lemma PercentLayout(m: Percent)
    requires WellFormedUnknown(m.unknown, PERCENT_SCHEMA) && |EncodePercent(m)| < TWO_63
    ensures Parse(EncodePercent(m)).Some?
    ensures var fs := Parse(EncodePercent(m)).value;
            && Payloads(fs, Key(1, 1)) == (if m.value == 0 || m.value == TWO_63 then [] else [Fixed64(m.value)])
            && Unrecognised(fs, PERCENT_SCHEMA) == m.unknown
  {
    hide Parse, Body, Payloads, Unrecognised, ShapedSegment, Items, WellFormedUnknown;
    var segs := PercentSegs(m);
    PercentShape(m);
    ReadMessage(segs, PERCENT_SCHEMA, m.unknown);
    var fs := Parse(EncodePercent(m)).value;
    assert Payloads(fs, PERCENT_SCHEMA[0]) == segs[0].payloads;
  }

  // ---------------------------------------------------------------- FractionalPercent

  datatype FractionalPercent = FractionalPercent(numerator: uint32, denominator: int32, unknown: bytes)

  const FRACTIONAL_PERCENT_SCHEMA: seq<Key> := [Key(1, 0), Key(2, 0)]

  function FractionalPercentSegs(m: FractionalPercent): seq<Segment> {
    [ IntSeg(1, U64(m.numerator)),
      IntSeg(2, U64(m.denominator)) ]
  }

  function EncodeFractionalPercent(m: FractionalPercent): bytes {
    Body(FractionalPercentSegs(m), 0, m.unknown)
  }

  method MarshalFractionalPercent(p: Ptr<FractionalPercent>, buf: array<byte>, end: nat) returns (n: nat)
    requires |EncodePtr(EncodeFractionalPercent, p)| <= end <= buf.Length
    modifies buf
    ensures n == |EncodePtr(EncodeFractionalPercent, p)|
    ensures Filled(buf[..], old(buf[..]), end - n, EncodePtr(EncodeFractionalPercent, p))
  {
    hide Reached, Counted, Body, VarintBytes, StringSeg, IntSeg, BoolSeg, ChildSeg, ListSeg, DoubleSeg;
    if p.Nil? {
      FillNothing(buf[..], end);
      return 0;
    }
    var m := p.value;
    ghost var t := Task(buf[..], end, FractionalPercentSegs(m), m.unknown);
    OneByteTags();
    var i := PutUnknown(buf, m.unknown, end, t);
    i := PutInt(buf, i, [0x10], U64(m.denominator), 2, t, 1);
    i := PutInt(buf, i, [0x08], U64(m.numerator), 1, t, 0);
    Finished(buf[..], t, i);
    n := end - i;
  }

  method SizeFractionalPercent(p: Ptr<FractionalPercent>) returns (n: nat)
    ensures n == |EncodePtr(EncodeFractionalPercent, p)|
  {
    hide Reached, Counted, Body, VarintBytes, StringSeg, IntSeg, BoolSeg, ChildSeg, ListSeg, DoubleSeg;
    if p.Nil? { return 0; }
    var m := p.value;
    ghost var t := Task([], 0, FractionalPercentSegs(m), m.unknown);
    OneByteTags();
    n := StartSize(t);
    n := SizeInt(n, 1, U64(m.numerator), 1, t, 0);
    n := SizeInt(n, 1, U64(m.denominator), 2, t, 1);
    n := SizeUnknown(n, m.unknown, t);
  }

  function DecodeFractionalPercent(s: bytes): Option<FractionalPercent> {
    var fs :- Parse(s);
    Some(FractionalPercent(
      ToUint32(LastInt(Payloads(fs, Key(1, 0)))),
      ToInt32(LastInt(Payloads(fs, Key(2, 0)))),
      Unrecognised(fs, FRACTIONAL_PERCENT_SCHEMA)))
  }

  function NormalFractionalPercent(m: FractionalPercent): FractionalPercent {
    m
  }

  predicate WellFormedFractionalPercent(m: FractionalPercent) {
    && WellFormedUnknown(m.unknown, FRACTIONAL_PERCENT_SCHEMA)
  }

  lemma FractionalPercentShape(m: FractionalPercent)
    ensures Shaped(FractionalPercentSegs(m), FRACTIONAL_PERCENT_SCHEMA) && Ascending(FRACTIONAL_PERCENT_SCHEMA)
  {
    hide ShapedSegment, StringSeg, IntSeg, BoolSeg, ChildSeg, ListSeg, DoubleSeg;
  }

  lemma FractionalPercentRoundTrip(m: FractionalPercent)
    requires WellFormedFractionalPercent(m) && |EncodeFractionalPercent(m)| < TWO_63
    ensures DecodeFractionalPercent(EncodeFractionalPercent(m)) == Some(NormalFractionalPercent(m))
  {
    hide Parse, Body, Payloads, Unrecognised, ShapedSegment, Items, Merged, LastData, LastInt, U64;
    var segs := FractionalPercentSegs(m);
    FractionalPercentShape(m);
    ReadMessage(segs, FRACTIONAL_PERCENT_SCHEMA, m.unknown);
    var fs := Parse(EncodeFractionalPercent(m)).value;
    assert Payloads(fs, FRACTIONAL_PERCENT_SCHEMA[0]) == segs[0].payloads;
    IntBack(1, m.numerator);
    assert Payloads(fs, FRACTIONAL_PERCENT_SCHEMA[1]) == segs[1].payloads;
    IntBack(2, m.denominator);
  }

  /** Which record carries which field, and when it is there at all. */
  lemma FractionalPercentLayout(m: FractionalPercent)
    requires WellFormedUnknown(m.unknown, FRACTIONAL_PERCENT_SCHEMA) && |EncodeFractionalPercent(m)| < TWO_63
    ensures Parse(EncodeFractionalPercent(m)).Some?
    ensures var fs := Parse(EncodeFractionalPercent(m)).value;
            && Payloads(fs, Key(1, 0)) == (if m.numerator != 0 then [Varint(m.numerator)] else [])
            && Payloads(fs, Key(2, 0)) == (if m.denominator == 0 then []
               else [Varint(if m.denominator < 0 then m.denominator + TWO_64 else m.denominator)])
            && Unrecognised(fs, FRACTIONAL_PERCENT_SCHEMA) == m.unknown
  {
    hide Parse, Body, Payloads, Unrecognised, ShapedSegment, Items, WellFormedUnknown;
    var segs := FractionalPercentSegs(m);
    FractionalPercentShape(m);
    ReadMessage(segs, FRACTIONAL_PERCENT_SCHEMA, m.unknown);
    var fs := Parse(EncodeFractionalPercent(m)).value;
    assert Payloads(fs, FRACTIONAL_PERCENT_SCHEMA[0]) == segs[0].payloads;
    assert Payloads(fs, FRACTIONAL_PERCENT_SCHEMA[1]) == segs[1].payloads;
  }
}
