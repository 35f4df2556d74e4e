/** SimpleMetric, whose code is the same in envoy/admin/v2alpha and v3. */
module Metrics {
  import opened Wire
  import opened Buffer
  import opened Message

  // ---------------------------------------------------------------- SimpleMetric

  datatype SimpleMetric = SimpleMetric(kind: int32, value: uint64, name: bytes, unknown: bytes)

  const SIMPLE_METRIC_SCHEMA: seq<Key> := [Key(1, 0), Key(2, 0), Key(3, 2)]

  function SimpleMetricSegs(m: SimpleMetric): seq<Segment> {
    [ IntSeg(1, U64(m.kind)),
      IntSeg(2, U64(m.value)),
      StringSeg(3, m.name) ]
  }

  function EncodeSimpleMetric(m: SimpleMetric): bytes {
    Body(SimpleMetricSegs(m), 0, m.unknown)
  }

  method MarshalSimpleMetric(p: Ptr<SimpleMetric>, buf: array<byte>, end: nat) returns (n: nat)
    requires |EncodePtr(EncodeSimpleMetric, p)| <= end <= buf.Length
    modifies buf
    ensures n == |EncodePtr(EncodeSimpleMetric, p)|
    ensures Filled(buf[..], old(buf[..]), end - n, EncodePtr(EncodeSimpleMetric, p))
  {
    hide Reached, Counted, Body, VarintBytes, StringSeg, IntSeg, BoolSeg, ChildSeg, ListSeg, DoubleSeg;
    if p.Nil? {
      FillNothing(buf[..], end);
      return 0;
    }
    var m := p.value;
    ghost var t := Task(buf[..], end, SimpleMetricSegs(m), m.unknown);
    OneByteTags();
    var i := PutUnknown(buf, m.unknown, end, t);
    i := PutString(buf, i, [0x1a], m.name, 3, t, 2);
    i := PutInt(buf, i, [0x10], U64(m.value), 2, t, 1);
    i := PutInt(buf, i, [0x08], U64(m.kind), 1, t, 0);
    Finished(buf[..], t, i);
    n := end - i;
  }

  method SizeSimpleMetric(p: Ptr<SimpleMetric>) returns (n: nat)
    ensures n == |EncodePtr(EncodeSimpleMetric, p)|
  {
    hide Reached, Counted, Body, VarintBytes, StringSeg, IntSeg, BoolSeg, ChildSeg, ListSeg, DoubleSeg;
    if p.Nil? { return 0; }
    var m := p.value;
    ghost var t := Task([], 0, SimpleMetricSegs(m), m.unknown);
    OneByteTags();
    n := StartSize(t);
    n := SizeInt(n, 1, U64(m.kind), 1, t, 0);
    n := SizeInt(n, 1, U64(m.value), 2, t, 1);
    n := SizeString(n, 1, m.name, 3, t, 2);
    n := SizeUnknown(n, m.unknown, t);
  }

  /** Each element in turn, the last one first. */
  method PutSimpleMetricList(buf: array<byte>, i: nat, tag: bytes, items: seq<Ptr<SimpleMetric>>, ghost num: nat,
      ghost t: Task, ghost j: nat)
    returns (at: nat)
    requires Reached(buf[..], t, i, j + 1) && j < |t.segs|
    requires tag == VarintBytes(num * 8 + 2) && t.segs[j] == ListSeg(num, EncodeItems(EncodeSimpleMetric, items))
    modifies buf
    ensures Reached(buf[..], t, at, j)
  {
    hide Splice, Filled, SegBytes, RecordBytes, VarintBytes, ListSeg, ListBytes, EncodeSimpleMetric;
    BodyStep(t.segs, j, t.unknown);
    ghost var all, done := EncodeItems(EncodeSimpleMetric, items), Body(t.segs, j + 1, t.unknown);
    at := i;
    NothingFirst(done);
    ListBytesAll(num, all);
    for k := |items| downto 0
      invariant at == i - |ListBytes(num, all, k)|
      invariant Filled(buf[..], t.orig, at, ListBytes(num, all, k) + done)
    {
      ListStep(num, all, k, done);
      ghost var start, later := buf[..], ListBytes(num, all, k + 1) + done;
      FilledBounds(start, t.orig, at, later);
      var size := MarshalSimpleMetric(items[k], buf, at);
      Fill(start, t.orig, at, later, all[k], buf[..]);
      at := PutLength(buf, at - size, tag, size, num, all[k], t.orig, later);
    }
  }

  method SizeSimpleMetricList(n: nat, tagSize: nat, items: seq<Ptr<SimpleMetric>>, ghost num: nat, ghost t: Task,
      ghost j: nat) returns (sum: nat)
    requires j < |t.segs| && tagSize == |VarintBytes(num * 8 + 2)|
        && t.segs[j] == ListSeg(num, EncodeItems(EncodeSimpleMetric, items))
    ensures Counted(t, n, j) ==> Counted(t, sum, j + 1)
  {
    hide SegBytes, RecordBytes, VarintBytes, ListSeg, ListBytes, EncodeSimpleMetric;
    BodyStep(t.segs, j, t.unknown);
    ghost var all := EncodeItems(EncodeSimpleMetric, items);
    ListBytesAll(num, all);
    sum := n;
    for k := 0 to |items|
      invariant sum + |ListBytes(num, all, k)| == n + |SegBytes(ListSeg(num, all))|
    {
      ListStep(num, all, k, []);
      var l := SizeSimpleMetric(items[k]);
      l := SizeBytes(tagSize, l, num, all[k]);
      sum := sum + l;
    }
  }

  function DecodeSimpleMetric(s: bytes): Option<SimpleMetric> {
    var fs :- Parse(s);
    Some(SimpleMetric(
      ToInt32(LastInt(Payloads(fs, Key(1, 0)))),
      ToUint64(LastInt(Payloads(fs, Key(2, 0)))),
      LastData(Payloads(fs, Key(3, 2))),
      Unrecognised(fs, SIMPLE_METRIC_SCHEMA)))
  }

  const EMPTY_SIMPLE_METRIC: SimpleMetric := SimpleMetric(0, 0, [], [])

  function NormalSimpleMetric(m: SimpleMetric): SimpleMetric {
    m
  }

  predicate WellFormedSimpleMetric(m: SimpleMetric) {
    && WellFormedUnknown(m.unknown, SIMPLE_METRIC_SCHEMA)
  }

  lemma SimpleMetricShape(m: SimpleMetric)
    ensures Shaped(SimpleMetricSegs(m), SIMPLE_METRIC_SCHEMA) && Ascending(SIMPLE_METRIC_SCHEMA)
  {
    hide ShapedSegment, StringSeg, IntSeg, BoolSeg, ChildSeg, ListSeg, DoubleSeg;
  }

  lemma SimpleMetricRoundTrip(m: SimpleMetric)
    requires WellFormedSimpleMetric(m) && |EncodeSimpleMetric(m)| < TWO_63
    ensures DecodeSimpleMetric(EncodeSimpleMetric(m)) == Some(NormalSimpleMetric(m))
  {
    hide Parse, Body, Payloads, Unrecognised, ShapedSegment, Items, Merged, LastData, LastInt, U64;
    var segs := SimpleMetricSegs(m);
    SimpleMetricShape(m);
    ReadMessage(segs, SIMPLE_METRIC_SCHEMA, m.unknown);
    var fs := Parse(EncodeSimpleMetric(m)).value;
    assert Payloads(fs, SIMPLE_METRIC_SCHEMA[0]) == segs[0].payloads;
    IntBack(1, m.kind);
    assert Payloads(fs, SIMPLE_METRIC_SCHEMA[1]) == segs[1].payloads;
    IntBack(2, m.value);
    assert Payloads(fs, SIMPLE_METRIC_SCHEMA[2]) == segs[2].payloads;
    StringBack(3, m.name);
  }

  /** Which record carries which field, and when it is there at all. */
  lemma SimpleMetricLayout(m: SimpleMetric)
    requires WellFormedUnknown(m.unknown, SIMPLE_METRIC_SCHEMA) && |EncodeSimpleMetric(m)| < TWO_63
    ensures Parse(EncodeSimpleMetric(m)).Some?
    ensures var fs := Parse(EncodeSimpleMetric(m)).value;
            && Payloads(fs, Key(1, 0)) == (if m.kind == 0 then []
               else [Varint(if m.kind < 0 then m.kind + TWO_64 else m.kind)])
            && Payloads(fs, Key(2, 0)) == (if m.value != 0 then [Varint(m.value)] else [])
            && Payloads(fs, Key(3, 2)) == (if |m.name| > 0 then [Bytes(m.name)] else [])
            && Unrecognised(fs, SIMPLE_METRIC_SCHEMA) == m.unknown
  {
    hide Parse, Body, Payloads, Unrecognised, ShapedSegment, Items, WellFormedUnknown;
    var segs := SimpleMetricSegs(m);
    SimpleMetricShape(m);
    ReadMessage(segs, SIMPLE_METRIC_SCHEMA, m.unknown);
    var fs := Parse(EncodeSimpleMetric(m)).value;
    assert Payloads(fs, SIMPLE_METRIC_SCHEMA[0]) == segs[0].payloads;
    assert Payloads(fs, SIMPLE_METRIC_SCHEMA[1]) == segs[1].payloads;
    assert Payloads(fs, SIMPLE_METRIC_SCHEMA[2]) == segs[2].payloads;
  }

  lemma SimpleMetricSameBytes(m: SimpleMetric)
    ensures EncodeSimpleMetric(NormalSimpleMetric(m)) == EncodeSimpleMetric(m)
  {
  }

  lemma SimpleMetricEmpty()
    ensures EncodeSimpleMetric(EMPTY_SIMPLE_METRIC) == [] && DecodeSimpleMetric([]) == Some(EMPTY_SIMPLE_METRIC)
  {
    EmptyBody(SimpleMetricSegs(EMPTY_SIMPLE_METRIC), 0);
  }

  lemma SimpleMetricListRoundTrip(segs: seq<Segment>, j: nat, u: bytes, num: nat, items: seq<Ptr<SimpleMetric>>)
    requires j < |segs| && segs[j] == ListSeg(num, EncodeItems(EncodeSimpleMetric, items))
        && |Body(segs, 0, u)| < TWO_63
    requires forall p :: p in items && p.Ref? ==> WellFormedSimpleMetric(p.value)
    ensures DecodeItems(DecodeSimpleMetric, Items(segs[j].payloads))
        == Some(NormalItems(NormalSimpleMetric, EMPTY_SIMPLE_METRIC, items))
  {
    hide Body, Items, ListSeg, EncodeSimpleMetric, DecodeSimpleMetric, NormalSimpleMetric, WellFormedSimpleMetric;
    forall p | p in items && p.Ref? ensures DecodeSimpleMetric(EncodeSimpleMetric(p.value))
        == Some(NormalSimpleMetric(p.value)) {
      var k :| 0 <= k < |items| && items[k] == p;
      ItemFits(segs, j, u, num, EncodeItems(EncodeSimpleMetric, items), k);
      SimpleMetricRoundTrip(p.value);
    }
    SimpleMetricEmpty();
    ItemsOfList(num, EncodeItems(EncodeSimpleMetric, items));
    ItemsRoundTrip(EncodeSimpleMetric, DecodeSimpleMetric, NormalSimpleMetric, EMPTY_SIMPLE_METRIC, items);
  }
}
