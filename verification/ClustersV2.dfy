/** The cluster status tree of envoy/admin/v2alpha. */
module ClustersV2 {
  import opened Wire
  import opened Buffer
  import opened Message
  import opened Metrics
  import opened ForeignChild

  // ---------------------------------------------------------------- HostHealthStatus

  datatype HostHealthStatus = HostHealthStatus(
    failedActiveHealthCheck: bool, failedOutlierCheck: bool, edsHealthStatus: int32,
    failedActiveDegradedCheck: bool, pendingDynamicRemoval: bool, pendingActiveHc: bool, unknown: bytes)

  const HOST_HEALTH_STATUS_SCHEMA: seq<Key> := [Key(1, 0), Key(2, 0), Key(3, 0), Key(4, 0), Key(5, 0), Key(6, 0)]

  function HostHealthStatusSegs(m: HostHealthStatus): seq<Segment> {
    [ BoolSeg(1, m.failedActiveHealthCheck),
      BoolSeg(2, m.failedOutlierCheck),
      IntSeg(3, U64(m.edsHealthStatus)),
      BoolSeg(4, m.failedActiveDegradedCheck),
      BoolSeg(5, m.pendingDynamicRemoval),
      BoolSeg(6, m.pendingActiveHc) ]
  }

  function EncodeHostHealthStatus(m: HostHealthStatus): bytes {
    Body(HostHealthStatusSegs(m), 0, m.unknown)
  }

  lemma HostHealthStatusAt(m: HostHealthStatus)
    ensures |HostHealthStatusSegs(m)| == 6
    ensures HostHealthStatusSegs(m)[0] == BoolSeg(1, m.failedActiveHealthCheck)
    ensures HostHealthStatusSegs(m)[1] == BoolSeg(2, m.failedOutlierCheck)
    ensures HostHealthStatusSegs(m)[2] == IntSeg(3, U64(m.edsHealthStatus))
    ensures HostHealthStatusSegs(m)[3] == BoolSeg(4, m.failedActiveDegradedCheck)
    ensures HostHealthStatusSegs(m)[4] == BoolSeg(5, m.pendingDynamicRemoval)
    ensures HostHealthStatusSegs(m)[5] == BoolSeg(6, m.pendingActiveHc)
  {
    hide StringSeg, IntSeg, BoolSeg, ChildSeg, ListSeg;
  }

  method MarshalHostHealthStatus(p: Ptr<HostHealthStatus>, buf: array<byte>, end: nat) returns (n: nat)
    requires |EncodePtr(EncodeHostHealthStatus, p)| <= end <= buf.Length
    modifies buf
    ensures n == |EncodePtr(EncodeHostHealthStatus, p)|
    ensures Filled(buf[..], old(buf[..]), end - n, EncodePtr(EncodeHostHealthStatus, p))
  {
    hide Reached, Counted, Body, VarintBytes, HostHealthStatusSegs, StringSeg, IntSeg, BoolSeg, ChildSeg, ListSeg;
    if p.Nil? {
      FillNothing(buf[..], end);
      return 0;
    }
    var m := p.value;
    ghost var t := Task(buf[..], end, HostHealthStatusSegs(m), m.unknown);
    OneByteTags();
    HostHealthStatusAt(m);
    var i := PutUnknown(buf, m.unknown, end, t);
    i := PutBool(buf, i, [0x30], m.pendingActiveHc, 6, t, 5);
    i := PutBool(buf, i, [0x28], m.pendingDynamicRemoval, 5, t, 4);
    i := PutBool(buf, i, [0x20], m.failedActiveDegradedCheck, 4, t, 3);
    i := PutInt(buf, i, [0x18], U64(m.edsHealthStatus), 3, t, 2);
    i := PutBool(buf, i, [0x10], m.failedOutlierCheck, 2, t, 1);
    i := PutBool(buf, i, [0x08], m.failedActiveHealthCheck, 1, t, 0);
    Finished(buf[..], t, i);
    n := end - i;
  }

  method SizeHostHealthStatus(p: Ptr<HostHealthStatus>) returns (n: nat)
    ensures n == |EncodePtr(EncodeHostHealthStatus, p)|
  {
    hide Reached, Counted, Body, VarintBytes, HostHealthStatusSegs, StringSeg, IntSeg, BoolSeg, ChildSeg, ListSeg;
    if p.Nil? { return 0; }
    var m := p.value;
    ghost var t := Task([], 0, HostHealthStatusSegs(m), m.unknown);
    OneByteTags();
    HostHealthStatusAt(m);
    n := StartSize(t);
    n := SizeBool(n, 2, m.failedActiveHealthCheck, 1, t, 0);
    n := SizeBool(n, 2, m.failedOutlierCheck, 2, t, 1);
    n := SizeInt(n, 1, U64(m.edsHealthStatus), 3, t, 2);
    n := SizeBool(n, 2, m.failedActiveDegradedCheck, 4, t, 3);
    n := SizeBool(n, 2, m.pendingDynamicRemoval, 5, t, 4);
    n := SizeBool(n, 2, m.pendingActiveHc, 6, t, 5);
    n := SizeUnknown(n, m.unknown, t);
  }

  method PutHostHealthStatus(buf: array<byte>, i: nat, tag: bytes, child: Ptr<HostHealthStatus>, ghost num: nat,
      ghost t: Task, ghost j: nat)
    returns (at: nat)
    requires Reached(buf[..], t, i, j + 1) && j < |t.segs|
    requires tag == VarintBytes(num * 8 + 2) && t.segs[j] == ChildSeg(num, EncodeChild(EncodeHostHealthStatus, child))
    modifies buf
    ensures Reached(buf[..], t, at, j)
  {
    hide Splice, Filled, SegBytes, RecordBytes, VarintBytes, ChildSeg, EncodeHostHealthStatus;
    BodyStep(t.segs, j, t.unknown);
    ChildBytes(num, EncodeChild(EncodeHostHealthStatus, child));
    ghost var start, done := buf[..], Body(t.segs, j + 1, t.unknown);
    at := i;
    if child.Ref? {
      FilledBounds(start, t.orig, at, done);
      var size := MarshalHostHealthStatus(child, buf, at);
      Fill(start, t.orig, at, done, EncodeHostHealthStatus(child.value), buf[..]);
      at := PutLength(buf, at - size, tag, size, num, EncodeHostHealthStatus(child.value), t.orig, done);
    } else {
      NothingFirst(done);
    }
  }

  method SizeHostHealthStatusField(n: nat, tagSize: nat, child: Ptr<HostHealthStatus>, ghost num: nat, ghost t: Task,
      ghost j: nat) returns (sum: nat)
    requires j < |t.segs| && tagSize == |VarintBytes(num * 8 + 2)|
        && t.segs[j] == ChildSeg(num, EncodeChild(EncodeHostHealthStatus, child))
    ensures Counted(t, n, j) ==> Counted(t, sum, j + 1)
  {
    hide SegBytes, RecordBytes, VarintBytes, ChildSeg, EncodeHostHealthStatus;
    BodyStep(t.segs, j, t.unknown);
    ChildBytes(num, EncodeChild(EncodeHostHealthStatus, child));
    sum := n;
    if child.Ref? {
      var l := SizeHostHealthStatus(child);
      l := SizeBytes(tagSize, l, num, EncodeHostHealthStatus(child.value));
      sum := n + l;
    }
  }

  function DecodeHostHealthStatus(s: bytes): Option<HostHealthStatus> {
    var fs :- Parse(s);
    Some(HostHealthStatus(
      LastInt(Payloads(fs, Key(1, 0))) != 0,
      LastInt(Payloads(fs, Key(2, 0))) != 0,
      ToInt32(LastInt(Payloads(fs, Key(3, 0)))),
      LastInt(Payloads(fs, Key(4, 0))) != 0,
      LastInt(Payloads(fs, Key(5, 0))) != 0,
      LastInt(Payloads(fs, Key(6, 0))) != 0,
      Unrecognised(fs, HOST_HEALTH_STATUS_SCHEMA)))
  }

  function NormalHostHealthStatus(m: HostHealthStatus): HostHealthStatus {
    m
  }

  predicate WellFormedHostHealthStatus(m: HostHealthStatus) {
    && WellFormedUnknown(m.unknown, HOST_HEALTH_STATUS_SCHEMA)
  }

  lemma HostHealthStatusShape(m: HostHealthStatus)
    ensures Shaped(HostHealthStatusSegs(m), HOST_HEALTH_STATUS_SCHEMA) && Ascending(HOST_HEALTH_STATUS_SCHEMA)
  {
    hide ShapedSegment, StringSeg, IntSeg, BoolSeg, ChildSeg, ListSeg, DoubleSeg;
  }

  lemma HostHealthStatusRoundTrip(m: HostHealthStatus)
    requires WellFormedHostHealthStatus(m) && |EncodeHostHealthStatus(m)| < TWO_63
    ensures DecodeHostHealthStatus(EncodeHostHealthStatus(m)) == Some(NormalHostHealthStatus(m))
  {
    hide Parse, Body, Payloads, Unrecognised, ShapedSegment, Items, Merged, LastData, LastInt, U64;
    var segs := HostHealthStatusSegs(m);
    HostHealthStatusShape(m);
    ReadMessage(segs, HOST_HEALTH_STATUS_SCHEMA, m.unknown);
    var fs := Parse(EncodeHostHealthStatus(m)).value;
    assert Payloads(fs, HOST_HEALTH_STATUS_SCHEMA[0]) == segs[0].payloads;
    BoolBack(1, m.failedActiveHealthCheck);
    assert Payloads(fs, HOST_HEALTH_STATUS_SCHEMA[1]) == segs[1].payloads;
    BoolBack(2, m.failedOutlierCheck);
    assert Payloads(fs, HOST_HEALTH_STATUS_SCHEMA[2]) == segs[2].payloads;
    IntBack(3, m.edsHealthStatus);
    assert Payloads(fs, HOST_HEALTH_STATUS_SCHEMA[3]) == segs[3].payloads;
    BoolBack(4, m.failedActiveDegradedCheck);
    assert Payloads(fs, HOST_HEALTH_STATUS_SCHEMA[4]) == segs[4].payloads;
    BoolBack(5, m.pendingDynamicRemoval);
    assert Payloads(fs, HOST_HEALTH_STATUS_SCHEMA[5]) == segs[5].payloads;
    BoolBack(6, m.pendingActiveHc);
  }

  /** Which record carries which field, and when it is there at all. */
  lemma HostHealthStatusLayout(m: HostHealthStatus)
    requires WellFormedUnknown(m.unknown, HOST_HEALTH_STATUS_SCHEMA) && |EncodeHostHealthStatus(m)| < TWO_63
    ensures Parse(EncodeHostHealthStatus(m)).Some?
    ensures var fs := Parse(EncodeHostHealthStatus(m)).value;
            && Payloads(fs, Key(1, 0)) == (if m.failedActiveHealthCheck then [Varint(1)] else [])
            && Payloads(fs, Key(2, 0)) == (if m.failedOutlierCheck then [Varint(1)] else [])
            && Payloads(fs, Key(3, 0)) == (if m.edsHealthStatus == 0 then []
               else [Varint(if m.edsHealthStatus < 0 then m.edsHealthStatus + TWO_64 else m.edsHealthStatus)])
            && Payloads(fs, Key(4, 0)) == (if m.failedActiveDegradedCheck then [Varint(1)] else [])
            && Payloads(fs, Key(5, 0)) == (if m.pendingDynamicRemoval then [Varint(1)] else [])
            && Payloads(fs, Key(6, 0)) == (if m.pendingActiveHc then [Varint(1)] else [])
            && Unrecognised(fs, HOST_HEALTH_STATUS_SCHEMA) == m.unknown
  {
    hide Parse, Body, Payloads, Unrecognised, ShapedSegment, Items, WellFormedUnknown, HostHealthStatusSegs;
    var segs := HostHealthStatusSegs(m);
    HostHealthStatusAt(m);
    HostHealthStatusShape(m);
    ReadMessage(segs, HOST_HEALTH_STATUS_SCHEMA, m.unknown);
    var fs := Parse(EncodeHostHealthStatus(m)).value;
    assert Payloads(fs, HOST_HEALTH_STATUS_SCHEMA[0]) == segs[0].payloads;
    assert Payloads(fs, HOST_HEALTH_STATUS_SCHEMA[1]) == segs[1].payloads;
    assert Payloads(fs, HOST_HEALTH_STATUS_SCHEMA[2]) == segs[2].payloads;
    assert Payloads(fs, HOST_HEALTH_STATUS_SCHEMA[3]) == segs[3].payloads;
    assert Payloads(fs, HOST_HEALTH_STATUS_SCHEMA[4]) == segs[4].payloads;
    assert Payloads(fs, HOST_HEALTH_STATUS_SCHEMA[5]) == segs[5].payloads;
  }

  lemma HostHealthStatusFieldRoundTrip(segs: seq<Segment>, j: nat, u: bytes, num: nat, child: Ptr<HostHealthStatus>)
    requires j < |segs| && segs[j] == ChildSeg(num, EncodeChild(EncodeHostHealthStatus, child))
        && |Body(segs, 0, u)| < TWO_63
    requires child.Ref? ==> WellFormedHostHealthStatus(child.value)
    ensures DecodeChild(DecodeHostHealthStatus, Merged(segs[j].payloads))
        == Some(NormalChild(NormalHostHealthStatus, child))
  {
    MergedChild(num, EncodeChild(EncodeHostHealthStatus, child));
    if child.Ref? {
      ChildFits(segs, j, u, num, EncodeChild(EncodeHostHealthStatus, child));
      HostHealthStatusRoundTrip(child.value);
    }
  }

  // ---------------------------------------------------------------- HostStatus

  datatype HostStatus = HostStatus(
    address: Ptr<Foreign>, stats: seq<Ptr<SimpleMetric>>, healthStatus: Ptr<HostHealthStatus>,
    successRate: Ptr<Foreign>, weight: uint32, hostname: bytes, priority: uint32,
    localOriginSuccessRate: Ptr<Foreign>, locality: Ptr<Foreign>, unknown: bytes)

  const HOST_STATUS_SCHEMA: seq<Key> := [Key(1, 2), Key(2, 2), Key(3, 2), Key(4, 2), Key(5, 0), Key(6, 2), Key(7, 0),
      Key(8, 2), Key(9, 2)]

  function HostStatusSegs(m: HostStatus): seq<Segment> {
    [ ChildSeg(1, ForeignPayload(m.address)),
      ListSeg(2, EncodeItems(EncodeSimpleMetric, m.stats)),
      ChildSeg(3, EncodeChild(EncodeHostHealthStatus, m.healthStatus)),
      ChildSeg(4, ForeignPayload(m.successRate)),
      IntSeg(5, U64(m.weight)),
      StringSeg(6, m.hostname),
      IntSeg(7, U64(m.priority)),
      ChildSeg(8, ForeignPayload(m.localOriginSuccessRate)),
      ChildSeg(9, ForeignPayload(m.locality)) ]
  }

  function EncodeHostStatus(m: HostStatus): bytes {
    Body(HostStatusSegs(m), 0, m.unknown)
  }

  lemma HostStatusAt(m: HostStatus)
    ensures |HostStatusSegs(m)| == 9
    ensures HostStatusSegs(m)[0] == ChildSeg(1, ForeignPayload(m.address))
    ensures HostStatusSegs(m)[1] == ListSeg(2, EncodeItems(EncodeSimpleMetric, m.stats))
    ensures HostStatusSegs(m)[2] == ChildSeg(3, EncodeChild(EncodeHostHealthStatus, m.healthStatus))
    ensures HostStatusSegs(m)[3] == ChildSeg(4, ForeignPayload(m.successRate))
    ensures HostStatusSegs(m)[4] == IntSeg(5, U64(m.weight))
    ensures HostStatusSegs(m)[5] == StringSeg(6, m.hostname)
    ensures HostStatusSegs(m)[6] == IntSeg(7, U64(m.priority))
    ensures HostStatusSegs(m)[7] == ChildSeg(8, ForeignPayload(m.localOriginSuccessRate))
    ensures HostStatusSegs(m)[8] == ChildSeg(9, ForeignPayload(m.locality))
  {
    hide StringSeg, IntSeg, BoolSeg, ChildSeg, ListSeg, ForeignPayload;
  }

  /** The encoder selected for each foreign child succeeds. */
  predicate EncodableHostStatus(m: HostStatus) {
    && CanEncode(m.address)
    && CanEncode(m.successRate)
    && CanEncode(m.localOriginSuccessRate)
    && CanEncode(m.locality)
  }

  /** Moreover the size selected for each foreign child is the length of what its encoder writes. */
  predicate SoundHostStatus(m: HostStatus) {
    && SoundChild(m.address)
    && SoundChild(m.successRate)
    && SoundChild(m.localOriginSuccessRate)
    && SoundChild(m.locality)
  }

  /** The message as the size functions see it: each foreign child is as long as it reports. */
  function ReportedHostStatus(m: HostStatus): HostStatus {
    m.(address := Reported(m.address),
       successRate := Reported(m.successRate),
       localOriginSuccessRate := Reported(m.localOriginSuccessRate),
       locality := Reported(m.locality))
  }

  /** If every foreign child reports its size truly, the reported length is the real one. */
  lemma HostStatusReported(m: HostStatus)
    ensures ReportedHostStatus(m).unknown == m.unknown
    ensures ReportedHostStatus(m).address == Reported(m.address)
    ensures ReportedHostStatus(m).stats == m.stats
    ensures ReportedHostStatus(m).healthStatus == m.healthStatus
    ensures ReportedHostStatus(m).successRate == Reported(m.successRate)
    ensures ReportedHostStatus(m).weight == m.weight
    ensures ReportedHostStatus(m).hostname == m.hostname
    ensures ReportedHostStatus(m).priority == m.priority
    ensures ReportedHostStatus(m).localOriginSuccessRate == Reported(m.localOriginSuccessRate)
    ensures ReportedHostStatus(m).locality == Reported(m.locality)
    ensures SoundHostStatus(m) ==> |EncodeHostStatus(ReportedHostStatus(m))| == |EncodeHostStatus(m)|
  {
    hide Body, SegBytes, StringSeg, IntSeg, BoolSeg, ChildSeg, ListSeg, ForeignPayload, SoundChild, Reported,
         HostStatusSegs;
    var r := ReportedHostStatus(m);
    var segs, other := HostStatusSegs(m), HostStatusSegs(r);
    HostStatusAt(m);
    HostStatusAt(r);
    if SoundHostStatus(m) {
      ReportedLength(1, m.address);
      ReportedLength(4, m.successRate);
      ReportedLength(8, m.localOriginSuccessRate);
      ReportedLength(9, m.locality);
      SameLength(segs, other, 0, m.unknown);
    }
  }

  method MarshalHostStatus(p: Ptr<HostStatus>, buf: array<byte>, end: nat) returns (n: nat, ok: bool)
    requires |EncodePtr(EncodeHostStatus, p)| <= end <= buf.Length
    modifies buf
    ensures ok == (p.Ref? ==> EncodableHostStatus(p.value))
    ensures ok ==> n == |EncodePtr(EncodeHostStatus, p)|
    ensures ok ==> Filled(buf[..], old(buf[..]), end - n, EncodePtr(EncodeHostStatus, p))
    ensures !ok ==> n == 0 && SameFrom(buf[..], old(buf[..]), end)
  {
    hide Reached, Counted, Body, SameFrom, CanEncode, SoundChild, VarintBytes, HostStatusSegs, StringSeg, IntSeg,
         BoolSeg, ChildSeg, ListSeg, ForeignPayload;
    if p.Nil? {
      FillNothing(buf[..], end);
      return 0, true;
    }
    var m := p.value;
    ghost var t := Task(buf[..], end, HostStatusSegs(m), m.unknown);
    OneByteTags();
    HostStatusAt(m);
    var i := PutUnknown(buf, m.unknown, end, t);
    i, ok := PutForeign(buf, i, [0x4a], m.locality, 9, t, 8);
    if !ok { return 0, false; }
    i, ok := PutForeign(buf, i, [0x42], m.localOriginSuccessRate, 8, t, 7);
    if !ok { return 0, false; }
    i := PutInt(buf, i, [0x38], U64(m.priority), 7, t, 6);
    i := PutString(buf, i, [0x32], m.hostname, 6, t, 5);
    i := PutInt(buf, i, [0x28], U64(m.weight), 5, t, 4);
    i, ok := PutForeign(buf, i, [0x22], m.successRate, 4, t, 3);
    if !ok { return 0, false; }
    i := PutHostHealthStatus(buf, i, [0x1a], m.healthStatus, 3, t, 2);
    i := PutSimpleMetricList(buf, i, [0x12], m.stats, 2, t, 1);
    i, ok := PutForeign(buf, i, [0x0a], m.address, 1, t, 0);
    if !ok { return 0, false; }
    Finished(buf[..], t, i);
    n, ok := end - i, true;
  }

  method SizeHostStatus(p: Ptr<HostStatus>) returns (n: nat)
    ensures n == |EncodePtr(EncodeHostStatus, ReportedPtr(ReportedHostStatus, p))|
    ensures (p.Ref? ==> SoundHostStatus(p.value)) ==> n == |EncodePtr(EncodeHostStatus, p)|
  {
    hide Reached, Counted, Body, SameFrom, CanEncode, SoundChild, VarintBytes, HostStatusSegs, StringSeg, IntSeg,
         BoolSeg, ChildSeg, ListSeg, ForeignPayload, ReportedHostStatus, SoundHostStatus;
    if p.Nil? { return 0; }
    var m := p.value;
    ghost var r := ReportedHostStatus(m);
    HostStatusReported(m);
    ghost var t := Task([], 0, HostStatusSegs(r), m.unknown);
    OneByteTags();
    HostStatusAt(r);
    n := StartSize(t);
    n := SizeForeign(n, 1, m.address, 1, t, 0);
    n := SizeSimpleMetricList(n, 1, m.stats, 2, t, 1);
    n := SizeHostHealthStatusField(n, 1, m.healthStatus, 3, t, 2);
    n := SizeForeign(n, 1, m.successRate, 4, t, 3);
    n := SizeInt(n, 1, U64(m.weight), 5, t, 4);
    n := SizeString(n, 1, m.hostname, 6, t, 5);
    n := SizeInt(n, 1, U64(m.priority), 7, t, 6);
    n := SizeForeign(n, 1, m.localOriginSuccessRate, 8, t, 7);
    n := SizeForeign(n, 1, m.locality, 9, t, 8);
    n := SizeUnknown(n, m.unknown, t);
  }

  method PutHostStatusList(buf: array<byte>, i: nat, tag: bytes, items: seq<Ptr<HostStatus>>, ghost num: nat,
      ghost t: Task, ghost j: nat)
    returns (at: nat, ok: bool)
    requires Reached(buf[..], t, i, j + 1) && j < |t.segs|
    requires tag == VarintBytes(num * 8 + 2) && t.segs[j] == ListSeg(num, EncodeItems(EncodeHostStatus, items))
    modifies buf
    ensures ok == forall p :: p in items && p.Ref? ==> EncodableHostStatus(p.value)
    ensures ok ==> Reached(buf[..], t, at, j)
    ensures !ok ==> SameFrom(buf[..], t.orig, t.end)
  {
    hide Splice, Filled, SegBytes, RecordBytes, VarintBytes, ListSeg, ListBytes, EncodeHostStatus, SameFrom,
         EncodableHostStatus;
    BodyStep(t.segs, j, t.unknown);
    ghost var all, done := EncodeItems(EncodeHostStatus, items), Body(t.segs, j + 1, t.unknown);
    at := i;
    NothingFirst(done);
    ListBytesAll(num, all);
    for k := |items| downto 0
      invariant at == i - |ListBytes(num, all, k)|
      invariant Filled(buf[..], t.orig, at, ListBytes(num, all, k) + done)
      invariant forall e :: k <= e < |items| && items[e].Ref? ==> EncodableHostStatus(items[e].value)
    {
      ListStep(num, all, k, done);
      ghost var start, later := buf[..], ListBytes(num, all, k + 1) + done;
      FilledBounds(start, t.orig, at, later);
      var size;
      size, ok := MarshalHostStatus(items[k], buf, at);
      if !ok {
        SameFromFilled(buf[..], start, t.orig, at, later);
        assert items[k] in items;
        return 0, false;
      }
      Fill(start, t.orig, at, later, all[k], buf[..]);
      at := PutLength(buf, at - size, tag, size, num, all[k], t.orig, later);
    }
    ok := true;
  }

  method SizeHostStatusList(n: nat, tagSize: nat, items: seq<Ptr<HostStatus>>, ghost num: nat, ghost t: Task,
      ghost j: nat) returns (sum: nat)
    requires j < |t.segs| && tagSize == |VarintBytes(num * 8 + 2)|
    requires t.segs[j] == ListSeg(num, EncodeItems(EncodeHostStatus, ReportedItems(ReportedHostStatus, items)))
    ensures Counted(t, n, j) ==> Counted(t, sum, j + 1)
  {
    hide SegBytes, RecordBytes, VarintBytes, ListSeg, ListBytes, EncodeHostStatus, SoundHostStatus, ReportedHostStatus;
    BodyStep(t.segs, j, t.unknown);
    ghost var all := EncodeItems(EncodeHostStatus, ReportedItems(ReportedHostStatus, items));
    ListBytesAll(num, all);
    sum := n;
    for k := 0 to |items|
      invariant sum + |ListBytes(num, all, k)| == n + |SegBytes(ListSeg(num, all))|
    {
      ListStep(num, all, k, []);
      var l := SizeHostStatus(items[k]);
      l := SizeBytes(tagSize, l, num, all[k]);
      sum := sum + l;
    }
  }

  function DecodeHostStatus(s: bytes): Option<HostStatus> {
    var fs :- Parse(s);
    var stats :- DecodeItems(DecodeSimpleMetric, Items(Payloads(fs, Key(2, 2))));
    var healthStatus :- DecodeChild(DecodeHostHealthStatus, Merged(Payloads(fs, Key(3, 2))));
    Some(HostStatus(
      Whole(Merged(Payloads(fs, Key(1, 2)))),
      stats,
      healthStatus,
      Whole(Merged(Payloads(fs, Key(4, 2)))),
      ToUint32(LastInt(Payloads(fs, Key(5, 0)))),
      LastData(Payloads(fs, Key(6, 2))),
      ToUint32(LastInt(Payloads(fs, Key(7, 0)))),
      Whole(Merged(Payloads(fs, Key(8, 2)))),
      Whole(Merged(Payloads(fs, Key(9, 2)))),
      Unrecognised(fs, HOST_STATUS_SCHEMA)))
  }

  const EMPTY_HOST_STATUS: HostStatus := HostStatus(Nil, [], Nil, Nil, 0, [], 0, Nil, Nil, [])

  function NormalHostStatus(m: HostStatus): HostStatus {
    m.(address := Whole(ForeignPayload(m.address)),
       stats := NormalItems(NormalSimpleMetric, EMPTY_SIMPLE_METRIC, m.stats),
       healthStatus := NormalChild(NormalHostHealthStatus, m.healthStatus),
       successRate := Whole(ForeignPayload(m.successRate)),
       localOriginSuccessRate := Whole(ForeignPayload(m.localOriginSuccessRate)),
       locality := Whole(ForeignPayload(m.locality)))
  }

  predicate WellFormedHostStatus(m: HostStatus) {
    && WellFormedUnknown(m.unknown, HOST_STATUS_SCHEMA)
    && (forall p :: p in m.stats && p.Ref? ==> WellFormedSimpleMetric(p.value))
    && (m.healthStatus.Ref? ==> WellFormedHostHealthStatus(m.healthStatus.value))
  }

  lemma HostStatusShape(m: HostStatus)
    ensures Shaped(HostStatusSegs(m), HOST_STATUS_SCHEMA) && Ascending(HOST_STATUS_SCHEMA)
  {
    hide ShapedSegment, StringSeg, IntSeg, BoolSeg, ChildSeg, ListSeg, DoubleSeg, ForeignPayload;
  }

  lemma HostStatusRoundTrip(m: HostStatus)
    requires WellFormedHostStatus(m) && |EncodeHostStatus(m)| < TWO_63
    ensures DecodeHostStatus(EncodeHostStatus(m)) == Some(NormalHostStatus(m))
  {
    hide Parse, Body, Payloads, Unrecognised, ShapedSegment, Items, Merged, LastData, LastInt, U64, Whole,
         ForeignPayload, HostStatusSegs;
    var segs := HostStatusSegs(m);
    HostStatusAt(m);
    HostStatusShape(m);
    ReadMessage(segs, HOST_STATUS_SCHEMA, m.unknown);
    var fs := Parse(EncodeHostStatus(m)).value;
    assert Payloads(fs, HOST_STATUS_SCHEMA[0]) == segs[0].payloads;
    MergedChild(1, ForeignPayload(m.address));
    assert Payloads(fs, HOST_STATUS_SCHEMA[1]) == segs[1].payloads;
    SimpleMetricListRoundTrip(segs, 1, m.unknown, 2, m.stats);
    assert Payloads(fs, HOST_STATUS_SCHEMA[2]) == segs[2].payloads;
    HostHealthStatusFieldRoundTrip(segs, 2, m.unknown, 3, m.healthStatus);
    assert Payloads(fs, HOST_STATUS_SCHEMA[3]) == segs[3].payloads;
    MergedChild(4, ForeignPayload(m.successRate));
    assert Payloads(fs, HOST_STATUS_SCHEMA[4]) == segs[4].payloads;
    IntBack(5, m.weight);
    assert Payloads(fs, HOST_STATUS_SCHEMA[5]) == segs[5].payloads;
    StringBack(6, m.hostname);
    assert Payloads(fs, HOST_STATUS_SCHEMA[6]) == segs[6].payloads;
    IntBack(7, m.priority);
    assert Payloads(fs, HOST_STATUS_SCHEMA[7]) == segs[7].payloads;
    MergedChild(8, ForeignPayload(m.localOriginSuccessRate));
    assert Payloads(fs, HOST_STATUS_SCHEMA[8]) == segs[8].payloads;
    MergedChild(9, ForeignPayload(m.locality));
  }

  /** Which record carries which field, and when it is there at all. */
  lemma HostStatusLayout(m: HostStatus)
    requires WellFormedUnknown(m.unknown, HOST_STATUS_SCHEMA) && |EncodeHostStatus(m)| < TWO_63
    ensures Parse(EncodeHostStatus(m)).Some?
    ensures var fs := Parse(EncodeHostStatus(m)).value;
            && Carries(Payloads(fs, Key(1, 2)), m.address)
            && Items(Payloads(fs, Key(2, 2))) == EncodeItems(EncodeSimpleMetric, m.stats)
            && Payloads(fs, Key(3, 2)) == (if m.healthStatus.Nil? then []
               else [Bytes(EncodeHostHealthStatus(m.healthStatus.value))])
            && Carries(Payloads(fs, Key(4, 2)), m.successRate)
            && Payloads(fs, Key(5, 0)) == (if m.weight != 0 then [Varint(m.weight)] else [])
            && Payloads(fs, Key(6, 2)) == (if |m.hostname| > 0 then [Bytes(m.hostname)] else [])
            && Payloads(fs, Key(7, 0)) == (if m.priority != 0 then [Varint(m.priority)] else [])
            && Carries(Payloads(fs, Key(8, 2)), m.localOriginSuccessRate)
            && Carries(Payloads(fs, Key(9, 2)), m.locality)
            && Unrecognised(fs, HOST_STATUS_SCHEMA) == m.unknown
  {
    hide Parse, Body, Payloads, Unrecognised, ShapedSegment, Items, WellFormedUnknown, EncodeHostHealthStatus,
         EncodeSimpleMetric, ForeignPayload, HostStatusSegs;
    var segs := HostStatusSegs(m);
    HostStatusAt(m);
    HostStatusShape(m);
    ReadMessage(segs, HOST_STATUS_SCHEMA, m.unknown);
    var fs := Parse(EncodeHostStatus(m)).value;
    assert Payloads(fs, HOST_STATUS_SCHEMA[0]) == segs[0].payloads;
    ForeignLayout(1, m.address);
    assert Payloads(fs, HOST_STATUS_SCHEMA[1]) == segs[1].payloads;
    ItemsOfList(2, EncodeItems(EncodeSimpleMetric, m.stats));
    assert Payloads(fs, HOST_STATUS_SCHEMA[2]) == segs[2].payloads;
    assert Payloads(fs, HOST_STATUS_SCHEMA[3]) == segs[3].payloads;
    ForeignLayout(4, m.successRate);
    assert Payloads(fs, HOST_STATUS_SCHEMA[4]) == segs[4].payloads;
    assert Payloads(fs, HOST_STATUS_SCHEMA[5]) == segs[5].payloads;
    assert Payloads(fs, HOST_STATUS_SCHEMA[6]) == segs[6].payloads;
    assert Payloads(fs, HOST_STATUS_SCHEMA[7]) == segs[7].payloads;
    ForeignLayout(8, m.localOriginSuccessRate);
    assert Payloads(fs, HOST_STATUS_SCHEMA[8]) == segs[8].payloads;
    ForeignLayout(9, m.locality);
  }

  lemma HostStatusEmpty()
    ensures EncodeHostStatus(EMPTY_HOST_STATUS) == [] && DecodeHostStatus([]) == Some(EMPTY_HOST_STATUS)
  {
    hide HostStatusSegs, Body;
    assert EncodeItems(EncodeSimpleMetric, EMPTY_HOST_STATUS.stats) == [];
    HostStatusAt(EMPTY_HOST_STATUS);
    EmptyBody(HostStatusSegs(EMPTY_HOST_STATUS), 0);
  }

  lemma HostStatusListRoundTrip(segs: seq<Segment>, j: nat, u: bytes, num: nat, items: seq<Ptr<HostStatus>>)
    requires j < |segs| && segs[j] == ListSeg(num, EncodeItems(EncodeHostStatus, items)) && |Body(segs, 0, u)| < TWO_63
    requires forall p :: p in items && p.Ref? ==> WellFormedHostStatus(p.value)
    ensures DecodeItems(DecodeHostStatus, Items(segs[j].payloads))
        == Some(NormalItems(NormalHostStatus, EMPTY_HOST_STATUS, items))
  {
    hide Body, Items, ListSeg, EncodeHostStatus, DecodeHostStatus, NormalHostStatus, WellFormedHostStatus;
    forall p | p in items && p.Ref? ensures DecodeHostStatus(EncodeHostStatus(p.value))
        == Some(NormalHostStatus(p.value)) {
      var k :| 0 <= k < |items| && items[k] == p;
      ItemFits(segs, j, u, num, EncodeItems(EncodeHostStatus, items), k);
      HostStatusRoundTrip(p.value);
    }
    HostStatusEmpty();
    ItemsOfList(num, EncodeItems(EncodeHostStatus, items));
    ItemsRoundTrip(EncodeHostStatus, DecodeHostStatus, NormalHostStatus, EMPTY_HOST_STATUS, items);
  }

  // ---------------------------------------------------------------- ClusterStatus

  datatype ClusterStatus = ClusterStatus(
    name: bytes, addedViaApi: bool, successRateEjectionThreshold: Ptr<Foreign>, hostStatuses: seq<Ptr<HostStatus>>,
    localOriginSuccessRateEjectionThreshold: Ptr<Foreign>, unknown: bytes)

  const CLUSTER_STATUS_SCHEMA: seq<Key> := [Key(1, 2), Key(2, 0), Key(3, 2), Key(4, 2), Key(5, 2)]

  function ClusterStatusSegs(m: ClusterStatus): seq<Segment> {
    [ StringSeg(1, m.name),
      BoolSeg(2, m.addedViaApi),
      ChildSeg(3, ForeignPayload(m.successRateEjectionThreshold)),
      ListSeg(4, EncodeItems(EncodeHostStatus, m.hostStatuses)),
      ChildSeg(5, ForeignPayload(m.localOriginSuccessRateEjectionThreshold)) ]
  }

  function EncodeClusterStatus(m: ClusterStatus): bytes {
    Body(ClusterStatusSegs(m), 0, m.unknown)
  }

  lemma ClusterStatusAt(m: ClusterStatus)
    ensures |ClusterStatusSegs(m)| == 5
    ensures ClusterStatusSegs(m)[0] == StringSeg(1, m.name)
    ensures ClusterStatusSegs(m)[1] == BoolSeg(2, m.addedViaApi)
    ensures ClusterStatusSegs(m)[2] == ChildSeg(3, ForeignPayload(m.successRateEjectionThreshold))
    ensures ClusterStatusSegs(m)[3] == ListSeg(4, EncodeItems(EncodeHostStatus, m.hostStatuses))
    ensures ClusterStatusSegs(m)[4] == ChildSeg(5, ForeignPayload(m.localOriginSuccessRateEjectionThreshold))
  {
    hide StringSeg, IntSeg, BoolSeg, ChildSeg, ListSeg, ForeignPayload;
  }

  /** The encoder selected for each foreign child succeeds. */
  predicate EncodableClusterStatus(m: ClusterStatus) {
    && CanEncode(m.successRateEjectionThreshold)
    && (forall p :: p in m.hostStatuses && p.Ref? ==> EncodableHostStatus(p.value))
    && CanEncode(m.localOriginSuccessRateEjectionThreshold)
  }

  /** Moreover the size selected for each foreign child is the length of what its encoder writes. */
  predicate SoundClusterStatus(m: ClusterStatus) {
    && SoundChild(m.successRateEjectionThreshold)
    && (forall p :: p in m.hostStatuses && p.Ref? ==> SoundHostStatus(p.value))
    && SoundChild(m.localOriginSuccessRateEjectionThreshold)
  }

  /** The message as the size functions see it: each foreign child is as long as it reports. */
  function ReportedClusterStatus(m: ClusterStatus): ClusterStatus {
    m.(successRateEjectionThreshold := Reported(m.successRateEjectionThreshold),
       hostStatuses := ReportedItems(ReportedHostStatus, m.hostStatuses),
       localOriginSuccessRateEjectionThreshold := Reported(m.localOriginSuccessRateEjectionThreshold))
  }

  /** If every foreign child reports its size truly, the reported length is the real one. */
  lemma ClusterStatusReported(m: ClusterStatus)
    ensures ReportedClusterStatus(m).unknown == m.unknown
    ensures ReportedClusterStatus(m).name == m.name
    ensures ReportedClusterStatus(m).addedViaApi == m.addedViaApi
    ensures ReportedClusterStatus(m).successRateEjectionThreshold == Reported(m.successRateEjectionThreshold)
    ensures ReportedClusterStatus(m).hostStatuses == ReportedItems(ReportedHostStatus, m.hostStatuses)
    ensures ReportedClusterStatus(m).localOriginSuccessRateEjectionThreshold
        == Reported(m.localOriginSuccessRateEjectionThreshold)
    ensures SoundClusterStatus(m) ==> |EncodeClusterStatus(ReportedClusterStatus(m))| == |EncodeClusterStatus(m)|
  {
    hide Body, SegBytes, StringSeg, IntSeg, BoolSeg, ChildSeg, ListSeg, ForeignPayload, SoundChild, Reported,
         EncodeHostStatus, SoundHostStatus, ReportedHostStatus, ClusterStatusSegs;
    var r := ReportedClusterStatus(m);
    var segs, other := ClusterStatusSegs(m), ClusterStatusSegs(r);
    ClusterStatusAt(m);
    ClusterStatusAt(r);
    if SoundClusterStatus(m) {
      ReportedLength(3, m.successRateEjectionThreshold);
      forall p | p in m.hostStatuses && p.Ref?
        ensures |EncodeHostStatus(ReportedHostStatus(p.value))| == |EncodeHostStatus(p.value)|
      {
        HostStatusReported(p.value);
      }
      ReportedListLength(4, EncodeHostStatus, ReportedHostStatus, m.hostStatuses);
      ReportedLength(5, m.localOriginSuccessRateEjectionThreshold);
      SameLength(segs, other, 0, m.unknown);
    }
  }

  method MarshalClusterStatus(p: Ptr<ClusterStatus>, buf: array<byte>, end: nat) returns (n: nat, ok: bool)
    requires |EncodePtr(EncodeClusterStatus, p)| <= end <= buf.Length
    modifies buf
    ensures ok == (p.Ref? ==> EncodableClusterStatus(p.value))
    ensures ok ==> n == |EncodePtr(EncodeClusterStatus, p)|
    ensures ok ==> Filled(buf[..], old(buf[..]), end - n, EncodePtr(EncodeClusterStatus, p))
    ensures !ok ==> n == 0 && SameFrom(buf[..], old(buf[..]), end)
  {
    hide Reached, Counted, Body, SameFrom, CanEncode, SoundChild, VarintBytes, ClusterStatusSegs, StringSeg, IntSeg,
         BoolSeg, ChildSeg, ListSeg, ForeignPayload;
    if p.Nil? {
      FillNothing(buf[..], end);
      return 0, true;
    }
    var m := p.value;
    ghost var t := Task(buf[..], end, ClusterStatusSegs(m), m.unknown);
    OneByteTags();
    ClusterStatusAt(m);
    var i := PutUnknown(buf, m.unknown, end, t);
    i, ok := PutForeign(buf, i, [0x2a], m.localOriginSuccessRateEjectionThreshold, 5, t, 4);
    if !ok { return 0, false; }
    i, ok := PutHostStatusList(buf, i, [0x22], m.hostStatuses, 4, t, 3);
    if !ok { return 0, false; }
    i, ok := PutForeign(buf, i, [0x1a], m.successRateEjectionThreshold, 3, t, 2);
    if !ok { return 0, false; }
    i := PutBool(buf, i, [0x10], m.addedViaApi, 2, t, 1);
    i := PutString(buf, i, [0x0a], m.name, 1, t, 0);
    Finished(buf[..], t, i);
    n, ok := end - i, true;
  }

  method SizeClusterStatus(p: Ptr<ClusterStatus>) returns (n: nat)
    ensures n == |EncodePtr(EncodeClusterStatus, ReportedPtr(ReportedClusterStatus, p))|
    ensures (p.Ref? ==> SoundClusterStatus(p.value)) ==> n == |EncodePtr(EncodeClusterStatus, p)|
  {
    hide Reached, Counted, Body, SameFrom, CanEncode, SoundChild, VarintBytes, ClusterStatusSegs, StringSeg, IntSeg,
         BoolSeg, ChildSeg, ListSeg, ForeignPayload, ReportedClusterStatus, SoundClusterStatus;
    if p.Nil? { return 0; }
    var m := p.value;
    ghost var r := ReportedClusterStatus(m);
    ClusterStatusReported(m);
    ghost var t := Task([], 0, ClusterStatusSegs(r), m.unknown);
    OneByteTags();
    ClusterStatusAt(r);
    n := StartSize(t);
    n := SizeString(n, 1, m.name, 1, t, 0);
    n := SizeBool(n, 2, m.addedViaApi, 2, t, 1);
    n := SizeForeign(n, 1, m.successRateEjectionThreshold, 3, t, 2);
    n := SizeHostStatusList(n, 1, m.hostStatuses, 4, t, 3);
    n := SizeForeign(n, 1, m.localOriginSuccessRateEjectionThreshold, 5, t, 4);
    n := SizeUnknown(n, m.unknown, t);
  }

  method PutClusterStatusList(buf: array<byte>, i: nat, tag: bytes, items: seq<Ptr<ClusterStatus>>, ghost num: nat,
      ghost t: Task, ghost j: nat)
    returns (at: nat, ok: bool)
    requires Reached(buf[..], t, i, j + 1) && j < |t.segs|
    requires tag == VarintBytes(num * 8 + 2) && t.segs[j] == ListSeg(num, EncodeItems(EncodeClusterStatus, items))
    modifies buf
    ensures ok == forall p :: p in items && p.Ref? ==> EncodableClusterStatus(p.value)
    ensures ok ==> Reached(buf[..], t, at, j)
    ensures !ok ==> SameFrom(buf[..], t.orig, t.end)
  {
    hide Splice, Filled, SegBytes, RecordBytes, VarintBytes, ListSeg, ListBytes, EncodeClusterStatus, SameFrom,
         EncodableClusterStatus;
    BodyStep(t.segs, j, t.unknown);
    ghost var all, done := EncodeItems(EncodeClusterStatus, items), Body(t.segs, j + 1, t.unknown);
    at := i;
    NothingFirst(done);
    ListBytesAll(num, all);
    for k := |items| downto 0
      invariant at == i - |ListBytes(num, all, k)|
      invariant Filled(buf[..], t.orig, at, ListBytes(num, all, k) + done)
      invariant forall e :: k <= e < |items| && items[e].Ref? ==> EncodableClusterStatus(items[e].value)
    {
      ListStep(num, all, k, done);
      ghost var start, later := buf[..], ListBytes(num, all, k + 1) + done;
      FilledBounds(start, t.orig, at, later);
      var size;
      size, ok := MarshalClusterStatus(items[k], buf, at);
      if !ok {
        SameFromFilled(buf[..], start, t.orig, at, later);
        assert items[k] in items;
        return 0, false;
      }
      Fill(start, t.orig, at, later, all[k], buf[..]);
      at := PutLength(buf, at - size, tag, size, num, all[k], t.orig, later);
    }
    ok := true;
  }

  method SizeClusterStatusList(n: nat, tagSize: nat, items: seq<Ptr<ClusterStatus>>, ghost num: nat, ghost t: Task,
      ghost j: nat) returns (sum: nat)
    requires j < |t.segs| && tagSize == |VarintBytes(num * 8 + 2)|
    requires t.segs[j] == ListSeg(num, EncodeItems(EncodeClusterStatus, ReportedItems(ReportedClusterStatus, items)))
    ensures Counted(t, n, j) ==> Counted(t, sum, j + 1)
  {
    hide SegBytes, RecordBytes, VarintBytes, ListSeg, ListBytes, EncodeClusterStatus, SoundClusterStatus,
         ReportedClusterStatus;
    BodyStep(t.segs, j, t.unknown);
    ghost var all := EncodeItems(EncodeClusterStatus, ReportedItems(ReportedClusterStatus, items));
    ListBytesAll(num, all);
    sum := n;
    for k := 0 to |items|
      invariant sum + |ListBytes(num, all, k)| == n + |SegBytes(ListSeg(num, all))|
    {
      ListStep(num, all, k, []);
      var l := SizeClusterStatus(items[k]);
      l := SizeBytes(tagSize, l, num, all[k]);
      sum := sum + l;
    }
  }

  function DecodeClusterStatus(s: bytes): Option<ClusterStatus> {
    var fs :- Parse(s);
    var hostStatuses :- DecodeItems(DecodeHostStatus, Items(Payloads(fs, Key(4, 2))));
    Some(ClusterStatus(
      LastData(Payloads(fs, Key(1, 2))),
      LastInt(Payloads(fs, Key(2, 0))) != 0,
      Whole(Merged(Payloads(fs, Key(3, 2)))),
      hostStatuses,
      Whole(Merged(Payloads(fs, Key(5, 2)))),
      Unrecognised(fs, CLUSTER_STATUS_SCHEMA)))
  }

  const EMPTY_CLUSTER_STATUS: ClusterStatus := ClusterStatus([], false, Nil, [], Nil, [])

  function NormalClusterStatus(m: ClusterStatus): ClusterStatus {
    m.(successRateEjectionThreshold := Whole(ForeignPayload(m.successRateEjectionThreshold)),
       hostStatuses := NormalItems(NormalHostStatus, EMPTY_HOST_STATUS, m.hostStatuses),
       localOriginSuccessRateEjectionThreshold := Whole(ForeignPayload(m.localOriginSuccessRateEjectionThreshold)))
  }

  predicate WellFormedClusterStatus(m: ClusterStatus) {
    && WellFormedUnknown(m.unknown, CLUSTER_STATUS_SCHEMA)
    && (forall p :: p in m.hostStatuses && p.Ref? ==> WellFormedHostStatus(p.value))
  }

  lemma ClusterStatusShape(m: ClusterStatus)
    ensures Shaped(ClusterStatusSegs(m), CLUSTER_STATUS_SCHEMA) && Ascending(CLUSTER_STATUS_SCHEMA)
  {
    hide ShapedSegment, StringSeg, IntSeg, BoolSeg, ChildSeg, ListSeg, DoubleSeg, ForeignPayload;
  }

  lemma ClusterStatusRoundTrip(m: ClusterStatus)
    requires WellFormedClusterStatus(m) && |EncodeClusterStatus(m)| < TWO_63
    ensures DecodeClusterStatus(EncodeClusterStatus(m)) == Some(NormalClusterStatus(m))
  {
    hide Parse, Body, Payloads, Unrecognised, ShapedSegment, Items, Merged, LastData, LastInt, U64, Whole,
         ForeignPayload, ClusterStatusSegs;
    var segs := ClusterStatusSegs(m);
    ClusterStatusAt(m);
    ClusterStatusShape(m);
    ReadMessage(segs, CLUSTER_STATUS_SCHEMA, m.unknown);
    var fs := Parse(EncodeClusterStatus(m)).value;
    assert Payloads(fs, CLUSTER_STATUS_SCHEMA[0]) == segs[0].payloads;
    StringBack(1, m.name);
    assert Payloads(fs, CLUSTER_STATUS_SCHEMA[1]) == segs[1].payloads;
    BoolBack(2, m.addedViaApi);
    assert Payloads(fs, CLUSTER_STATUS_SCHEMA[2]) == segs[2].payloads;
    MergedChild(3, ForeignPayload(m.successRateEjectionThreshold));
    assert Payloads(fs, CLUSTER_STATUS_SCHEMA[3]) == segs[3].payloads;
    HostStatusListRoundTrip(segs, 3, m.unknown, 4, m.hostStatuses);
    assert Payloads(fs, CLUSTER_STATUS_SCHEMA[4]) == segs[4].payloads;
    MergedChild(5, ForeignPayload(m.localOriginSuccessRateEjectionThreshold));
  }

  /** Which record carries which field, and when it is there at all. */
  lemma ClusterStatusLayout(m: ClusterStatus)
    requires WellFormedUnknown(m.unknown, CLUSTER_STATUS_SCHEMA) && |EncodeClusterStatus(m)| < TWO_63
    ensures Parse(EncodeClusterStatus(m)).Some?
    ensures var fs := Parse(EncodeClusterStatus(m)).value;
            && Payloads(fs, Key(1, 2)) == (if |m.name| > 0 then [Bytes(m.name)] else [])
            && Payloads(fs, Key(2, 0)) == (if m.addedViaApi then [Varint(1)] else [])
            && Carries(Payloads(fs, Key(3, 2)), m.successRateEjectionThreshold)
            && Items(Payloads(fs, Key(4, 2))) == EncodeItems(EncodeHostStatus, m.hostStatuses)
            && Carries(Payloads(fs, Key(5, 2)), m.localOriginSuccessRateEjectionThreshold)
            && Unrecognised(fs, CLUSTER_STATUS_SCHEMA) == m.unknown
  {
    hide Parse, Body, Payloads, Unrecognised, ShapedSegment, Items, WellFormedUnknown, EncodeHostStatus,
         ForeignPayload, ClusterStatusSegs;
    var segs := ClusterStatusSegs(m);
    ClusterStatusAt(m);
    ClusterStatusShape(m);
    ReadMessage(segs, CLUSTER_STATUS_SCHEMA, m.unknown);
    var fs := Parse(EncodeClusterStatus(m)).value;
    assert Payloads(fs, CLUSTER_STATUS_SCHEMA[0]) == segs[0].payloads;
    assert Payloads(fs, CLUSTER_STATUS_SCHEMA[1]) == segs[1].payloads;
    assert Payloads(fs, CLUSTER_STATUS_SCHEMA[2]) == segs[2].payloads;
    ForeignLayout(3, m.successRateEjectionThreshold);
    assert Payloads(fs, CLUSTER_STATUS_SCHEMA[3]) == segs[3].payloads;
    ItemsOfList(4, EncodeItems(EncodeHostStatus, m.hostStatuses));
    assert Payloads(fs, CLUSTER_STATUS_SCHEMA[4]) == segs[4].payloads;
    ForeignLayout(5, m.localOriginSuccessRateEjectionThreshold);
  }

  lemma ClusterStatusEmpty()
    ensures EncodeClusterStatus(EMPTY_CLUSTER_STATUS) == [] && DecodeClusterStatus([]) == Some(EMPTY_CLUSTER_STATUS)
  {
    hide ClusterStatusSegs, Body;
    assert EncodeItems(EncodeHostStatus, EMPTY_CLUSTER_STATUS.hostStatuses) == [];
    ClusterStatusAt(EMPTY_CLUSTER_STATUS);
    EmptyBody(ClusterStatusSegs(EMPTY_CLUSTER_STATUS), 0);
  }

  lemma ClusterStatusListRoundTrip(segs: seq<Segment>, j: nat, u: bytes, num: nat, items: seq<Ptr<ClusterStatus>>)
    requires j < |segs| && segs[j] == ListSeg(num, EncodeItems(EncodeClusterStatus, items))
        && |Body(segs, 0, u)| < TWO_63
    requires forall p :: p in items && p.Ref? ==> WellFormedClusterStatus(p.value)
    ensures DecodeItems(DecodeClusterStatus, Items(segs[j].payloads))
        == Some(NormalItems(NormalClusterStatus, EMPTY_CLUSTER_STATUS, items))
  {
    hide Body, Items, ListSeg, EncodeClusterStatus, DecodeClusterStatus, NormalClusterStatus, WellFormedClusterStatus;
    forall p | p in items && p.Ref? ensures DecodeClusterStatus(EncodeClusterStatus(p.value))
        == Some(NormalClusterStatus(p.value)) {
      var k :| 0 <= k < |items| && items[k] == p;
      ItemFits(segs, j, u, num, EncodeItems(EncodeClusterStatus, items), k);
      ClusterStatusRoundTrip(p.value);
    }
    ClusterStatusEmpty();
    ItemsOfList(num, EncodeItems(EncodeClusterStatus, items));
    ItemsRoundTrip(EncodeClusterStatus, DecodeClusterStatus, NormalClusterStatus, EMPTY_CLUSTER_STATUS, items);
  }

  // ---------------------------------------------------------------- Clusters

  datatype Clusters = Clusters(
    clusterStatuses: seq<Ptr<ClusterStatus>>, unknown: bytes)

  const CLUSTERS_SCHEMA: seq<Key> := [Key(1, 2)]

  function ClustersSegs(m: Clusters): seq<Segment> {
    [ListSeg(1, EncodeItems(EncodeClusterStatus, m.clusterStatuses))]
  }

  function EncodeClusters(m: Clusters): bytes {
    Body(ClustersSegs(m), 0, m.unknown)
  }

  /** The encoder selected for each foreign child succeeds. */
  predicate EncodableClusters(m: Clusters) {
    && (forall p :: p in m.clusterStatuses && p.Ref? ==> EncodableClusterStatus(p.value))
  }

  /** Moreover the size selected for each foreign child is the length of what its encoder writes. */
  predicate SoundClusters(m: Clusters) {
    && (forall p :: p in m.clusterStatuses && p.Ref? ==> SoundClusterStatus(p.value))
  }

  /** The message as the size functions see it: each foreign child is as long as it reports. */
  function ReportedClusters(m: Clusters): Clusters {
    m.(clusterStatuses := ReportedItems(ReportedClusterStatus, m.clusterStatuses))
  }

  /** If every foreign child reports its size truly, the reported length is the real one. */
  lemma ClustersReported(m: Clusters)
    ensures ReportedClusters(m).unknown == m.unknown
    ensures ReportedClusters(m).clusterStatuses == ReportedItems(ReportedClusterStatus, m.clusterStatuses)
    ensures SoundClusters(m) ==> |EncodeClusters(ReportedClusters(m))| == |EncodeClusters(m)|
  {
    hide Body, SegBytes, StringSeg, IntSeg, BoolSeg, ChildSeg, ListSeg, ForeignPayload, SoundChild, Reported,
         EncodeClusterStatus, SoundClusterStatus, ReportedClusterStatus;
    var r := ReportedClusters(m);
    var segs, other := ClustersSegs(m), ClustersSegs(r);
    if SoundClusters(m) {
      forall p | p in m.clusterStatuses && p.Ref?
        ensures |EncodeClusterStatus(ReportedClusterStatus(p.value))| == |EncodeClusterStatus(p.value)|
      {
        ClusterStatusReported(p.value);
      }
      ReportedListLength(1, EncodeClusterStatus, ReportedClusterStatus, m.clusterStatuses);
      SameLength(segs, other, 0, m.unknown);
    }
  }

  method MarshalClusters(p: Ptr<Clusters>, buf: array<byte>, end: nat) returns (n: nat, ok: bool)
    requires |EncodePtr(EncodeClusters, p)| <= end <= buf.Length
    modifies buf
    ensures ok == (p.Ref? ==> EncodableClusters(p.value))
    ensures ok ==> n == |EncodePtr(EncodeClusters, p)|
    ensures ok ==> Filled(buf[..], old(buf[..]), end - n, EncodePtr(EncodeClusters, p))
    ensures !ok ==> n == 0 && SameFrom(buf[..], old(buf[..]), end)
  {
    hide Reached, Counted, Body, SameFrom, VarintBytes, StringSeg, IntSeg, BoolSeg, ChildSeg, ListSeg;
    if p.Nil? {
      FillNothing(buf[..], end);
      return 0, true;
    }
    var m := p.value;
    ghost var t := Task(buf[..], end, ClustersSegs(m), m.unknown);
    OneByteTags();
    var i := PutUnknown(buf, m.unknown, end, t);
    i, ok := PutClusterStatusList(buf, i, [0x0a], m.clusterStatuses, 1, t, 0);
    if !ok { return 0, false; }
    Finished(buf[..], t, i);
    n, ok := end - i, true;
  }

  method SizeClusters(p: Ptr<Clusters>) returns (n: nat)
    ensures n == |EncodePtr(EncodeClusters, ReportedPtr(ReportedClusters, p))|
    ensures (p.Ref? ==> SoundClusters(p.value)) ==> n == |EncodePtr(EncodeClusters, p)|
  {
    hide Reached, Counted, Body, SameFrom, VarintBytes, StringSeg, IntSeg, BoolSeg, ChildSeg, ListSeg, SoundClusters;
    if p.Nil? { return 0; }
    var m := p.value;
    ghost var r := ReportedClusters(m);
    ClustersReported(m);
    ghost var t := Task([], 0, ClustersSegs(r), m.unknown);
    OneByteTags();
    n := StartSize(t);
    n := SizeClusterStatusList(n, 1, m.clusterStatuses, 1, t, 0);
    n := SizeUnknown(n, m.unknown, t);
  }

  function DecodeClusters(s: bytes): Option<Clusters> {
    var fs :- Parse(s);
    var clusterStatuses :- DecodeItems(DecodeClusterStatus, Items(Payloads(fs, Key(1, 2))));
    Some(Clusters(
      clusterStatuses,
      Unrecognised(fs, CLUSTERS_SCHEMA)))
  }

  function NormalClusters(m: Clusters): Clusters {
    m.(clusterStatuses := NormalItems(NormalClusterStatus, EMPTY_CLUSTER_STATUS, m.clusterStatuses))
  }

  predicate WellFormedClusters(m: Clusters) {
    && WellFormedUnknown(m.unknown, CLUSTERS_SCHEMA)
    && (forall p :: p in m.clusterStatuses && p.Ref? ==> WellFormedClusterStatus(p.value))
  }

  lemma ClustersShape(m: Clusters)
    ensures Shaped(ClustersSegs(m), CLUSTERS_SCHEMA) && Ascending(CLUSTERS_SCHEMA)
  {
    hide ShapedSegment, StringSeg, IntSeg, BoolSeg, ChildSeg, ListSeg, DoubleSeg;
  }

  lemma ClustersRoundTrip(m: Clusters)
    requires WellFormedClusters(m) && |EncodeClusters(m)| < TWO_63
    ensures DecodeClusters(EncodeClusters(m)) == Some(NormalClusters(m))
  {
    hide Parse, Body, Payloads, Unrecognised, ShapedSegment, Items, Merged, LastData, LastInt, U64;
    var segs := ClustersSegs(m);
    ClustersShape(m);
    ReadMessage(segs, CLUSTERS_SCHEMA, m.unknown);
    var fs := Parse(EncodeClusters(m)).value;
    assert Payloads(fs, CLUSTERS_SCHEMA[0]) == segs[0].payloads;
    ClusterStatusListRoundTrip(segs, 0, m.unknown, 1, m.clusterStatuses);
  }

  /** Which record carries which field, and when it is there at all. */
  lemma ClustersLayout(m: Clusters)
    requires WellFormedUnknown(m.unknown, CLUSTERS_SCHEMA) && |EncodeClusters(m)| < TWO_63
    ensures Parse(EncodeClusters(m)).Some?
    ensures var fs := Parse(EncodeClusters(m)).value;
            && Items(Payloads(fs, Key(1, 2))) == EncodeItems(EncodeClusterStatus, m.clusterStatuses)
            && Unrecognised(fs, CLUSTERS_SCHEMA) == m.unknown
  {
    hide Parse, Body, Payloads, Unrecognised, ShapedSegment, Items, WellFormedUnknown, EncodeClusterStatus;
    var segs := ClustersSegs(m);
    ClustersShape(m);
    ReadMessage(segs, CLUSTERS_SCHEMA, m.unknown);
    var fs := Parse(EncodeClusters(m)).value;
    assert Payloads(fs, CLUSTERS_SCHEMA[0]) == segs[0].payloads;
    ItemsOfList(1, EncodeItems(EncodeClusterStatus, m.clusterStatuses));
  }
}
