/** The ListenersConfigDump family of envoy/admin/v3. Timestamp and Any are opaque children. */
module Listeners {
  import opened Wire
  import opened Buffer
  import opened Message

  // ---------------------------------------------------------------- UpdateFailureState

  datatype UpdateFailureState = UpdateFailureState(
    failedConfiguration: Ptr<bytes>, lastUpdateAttempt: Ptr<bytes>, details: bytes, versionInfo: bytes,
    unknown: bytes)

  const UPDATE_FAILURE_STATE_SCHEMA: seq<Key> := [Key(1, 2), Key(2, 2), Key(3, 2), Key(4, 2)]

  function UpdateFailureStateSegs(m: UpdateFailureState): seq<Segment> {
    [ ChildSeg(1, m.failedConfiguration),
      ChildSeg(2, m.lastUpdateAttempt),
      StringSeg(3, m.details),
      StringSeg(4, m.versionInfo) ]
  }

  function EncodeUpdateFailureState(m: UpdateFailureState): bytes {
    Body(UpdateFailureStateSegs(m), 0, m.unknown)
  }

  lemma UpdateFailureStateAt(m: UpdateFailureState)
    ensures |UpdateFailureStateSegs(m)| == 4
    ensures UpdateFailureStateSegs(m)[0] == ChildSeg(1, m.failedConfiguration)
    ensures UpdateFailureStateSegs(m)[1] == ChildSeg(2, m.lastUpdateAttempt)
    ensures UpdateFailureStateSegs(m)[2] == StringSeg(3, m.details)
    ensures UpdateFailureStateSegs(m)[3] == StringSeg(4, m.versionInfo)
  {
    hide StringSeg, IntSeg, BoolSeg, ChildSeg, ListSeg;
  }

  method MarshalUpdateFailureState(p: Ptr<UpdateFailureState>, buf: array<byte>, end: nat) returns (n: nat)
    requires |EncodePtr(EncodeUpdateFailureState, p)| <= end <= buf.Length
    modifies buf
    ensures n == |EncodePtr(EncodeUpdateFailureState, p)|
    ensures Filled(buf[..], old(buf[..]), end - n, EncodePtr(EncodeUpdateFailureState, p))
  {
    hide Reached, Counted, Body, VarintBytes, UpdateFailureStateSegs, StringSeg, IntSeg, BoolSeg, ChildSeg, ListSeg;
    if p.Nil? {
      FillNothing(buf[..], end);
      return 0;
    }
    var m := p.value;
    ghost var t := Task(buf[..], end, UpdateFailureStateSegs(m), m.unknown);
    OneByteTags();
    UpdateFailureStateAt(m);
    var i := PutUnknown(buf, m.unknown, end, t);
    i := PutString(buf, i, [0x22], m.versionInfo, 4, t, 3);
    i := PutString(buf, i, [0x1a], m.details, 3, t, 2);
    i := PutOpaque(buf, i, [0x12], m.lastUpdateAttempt, 2, t, 1);
    i := PutOpaque(buf, i, [0x0a], m.failedConfiguration, 1, t, 0);
    Finished(buf[..], t, i);
    n := end - i;
  }

  method SizeUpdateFailureState(p: Ptr<UpdateFailureState>) returns (n: nat)
    ensures n == |EncodePtr(EncodeUpdateFailureState, p)|
  {
    hide Reached, Counted, Body, VarintBytes, UpdateFailureStateSegs, StringSeg, IntSeg, BoolSeg, ChildSeg, ListSeg;
    if p.Nil? { return 0; }
    var m := p.value;
    ghost var t := Task([], 0, UpdateFailureStateSegs(m), m.unknown);
    OneByteTags();
    UpdateFailureStateAt(m);
    n := StartSize(t);
    n := SizeOpaque(n, 1, m.failedConfiguration, 1, t, 0);
    n := SizeOpaque(n, 1, m.lastUpdateAttempt, 2, t, 1);
    n := SizeString(n, 1, m.details, 3, t, 2);
    n := SizeString(n, 1, m.versionInfo, 4, t, 3);
    n := SizeUnknown(n, m.unknown, t);
  }

  method PutUpdateFailureState(buf: array<byte>, i: nat, tag: bytes, child: Ptr<UpdateFailureState>, ghost num: nat,
      ghost t: Task, ghost j: nat)
    returns (at: nat)
    requires Reached(buf[..], t, i, j + 1) && j < |t.segs|
    requires tag == VarintBytes(num * 8 + 2) && t.segs[j] == ChildSeg(num, EncodeChild(EncodeUpdateFailureState, child))
    modifies buf
    ensures Reached(buf[..], t, at, j)
  {
    hide Splice, Filled, SegBytes, RecordBytes, VarintBytes, ChildSeg, EncodeUpdateFailureState;
    BodyStep(t.segs, j, t.unknown);
    ChildBytes(num, EncodeChild(EncodeUpdateFailureState, child));
    ghost var start, done := buf[..], Body(t.segs, j + 1, t.unknown);
    at := i;
    if child.Ref? {
      FilledBounds(start, t.orig, at, done);
      var size := MarshalUpdateFailureState(child, buf, at);
      Fill(start, t.orig, at, done, EncodeUpdateFailureState(child.value), buf[..]);
      at := PutLength(buf, at - size, tag, size, num, EncodeUpdateFailureState(child.value), t.orig, done);
    } else {
      NothingFirst(done);
    }
  }

  method SizeUpdateFailureStateField(n: nat, tagSize: nat, child: Ptr<UpdateFailureState>, ghost num: nat,
      ghost t: Task, ghost j: nat) returns (sum: nat)
    requires j < |t.segs| && tagSize == |VarintBytes(num * 8 + 2)|
        && t.segs[j] == ChildSeg(num, EncodeChild(EncodeUpdateFailureState, child))
    ensures Counted(t, n, j) ==> Counted(t, sum, j + 1)
  {
    hide SegBytes, RecordBytes, VarintBytes, ChildSeg, EncodeUpdateFailureState;
    BodyStep(t.segs, j, t.unknown);
    ChildBytes(num, EncodeChild(EncodeUpdateFailureState, child));
    sum := n;
    if child.Ref? {
      var l := SizeUpdateFailureState(child);
      l := SizeBytes(tagSize, l, num, EncodeUpdateFailureState(child.value));
      sum := n + l;
    }
  }

  function DecodeUpdateFailureState(s: bytes): Option<UpdateFailureState> {
    var fs :- Parse(s);
    Some(UpdateFailureState(
      Merged(Payloads(fs, Key(1, 2))),
      Merged(Payloads(fs, Key(2, 2))),
      LastData(Payloads(fs, Key(3, 2))),
      LastData(Payloads(fs, Key(4, 2))),
      Unrecognised(fs, UPDATE_FAILURE_STATE_SCHEMA)))
  }

  function NormalUpdateFailureState(m: UpdateFailureState): UpdateFailureState {
    m
  }

  predicate WellFormedUpdateFailureState(m: UpdateFailureState) {
    && WellFormedUnknown(m.unknown, UPDATE_FAILURE_STATE_SCHEMA)
  }

  lemma UpdateFailureStateShape(m: UpdateFailureState)
    ensures Shaped(UpdateFailureStateSegs(m), UPDATE_FAILURE_STATE_SCHEMA) && Ascending(UPDATE_FAILURE_STATE_SCHEMA)
  {
    hide ShapedSegment, StringSeg, IntSeg, BoolSeg, ChildSeg, ListSeg, DoubleSeg;
  }

  lemma UpdateFailureStateRoundTrip(m: UpdateFailureState)
    requires WellFormedUpdateFailureState(m) && |EncodeUpdateFailureState(m)| < TWO_63
    ensures DecodeUpdateFailureState(EncodeUpdateFailureState(m)) == Some(NormalUpdateFailureState(m))
  {
    hide Parse, Body, Payloads, Unrecognised, ShapedSegment, Items, Merged, LastData, LastInt, U64;
    var segs := UpdateFailureStateSegs(m);
    UpdateFailureStateShape(m);
    ReadMessage(segs, UPDATE_FAILURE_STATE_SCHEMA, m.unknown);
    var fs := Parse(EncodeUpdateFailureState(m)).value;
    assert Payloads(fs, UPDATE_FAILURE_STATE_SCHEMA[0]) == segs[0].payloads;
    MergedChild(1, m.failedConfiguration);
    assert Payloads(fs, UPDATE_FAILURE_STATE_SCHEMA[1]) == segs[1].payloads;
    MergedChild(2, m.lastUpdateAttempt);
    assert Payloads(fs, UPDATE_FAILURE_STATE_SCHEMA[2]) == segs[2].payloads;
    StringBack(3, m.details);
    assert Payloads(fs, UPDATE_FAILURE_STATE_SCHEMA[3]) == segs[3].payloads;
    StringBack(4, m.versionInfo);
  }

  /** Which record carries which field, and when it is there at all. */
  lemma UpdateFailureStateLayout(m: UpdateFailureState)
    requires WellFormedUnknown(m.unknown, UPDATE_FAILURE_STATE_SCHEMA) && |EncodeUpdateFailureState(m)| < TWO_63
    ensures Parse(EncodeUpdateFailureState(m)).Some?
    ensures var fs := Parse(EncodeUpdateFailureState(m)).value;
            && Payloads(fs, Key(1, 2)) == (if m.failedConfiguration.Nil? then []
               else [Bytes(m.failedConfiguration.value)])
            && Payloads(fs, Key(2, 2)) == (if m.lastUpdateAttempt.Nil? then [] else [Bytes(m.lastUpdateAttempt.value)])
            && Payloads(fs, Key(3, 2)) == (if |m.details| > 0 then [Bytes(m.details)] else [])
            && Payloads(fs, Key(4, 2)) == (if |m.versionInfo| > 0 then [Bytes(m.versionInfo)] else [])
            && Unrecognised(fs, UPDATE_FAILURE_STATE_SCHEMA) == m.unknown
  {
    hide Parse, Body, Payloads, Unrecognised, ShapedSegment, Items, WellFormedUnknown, UpdateFailureStateSegs;
    var segs := UpdateFailureStateSegs(m);
    UpdateFailureStateAt(m);
    UpdateFailureStateShape(m);
    ReadMessage(segs, UPDATE_FAILURE_STATE_SCHEMA, m.unknown);
    var fs := Parse(EncodeUpdateFailureState(m)).value;
    assert Payloads(fs, UPDATE_FAILURE_STATE_SCHEMA[0]) == segs[0].payloads;
    assert Payloads(fs, UPDATE_FAILURE_STATE_SCHEMA[1]) == segs[1].payloads;
    assert Payloads(fs, UPDATE_FAILURE_STATE_SCHEMA[2]) == segs[2].payloads;
    assert Payloads(fs, UPDATE_FAILURE_STATE_SCHEMA[3]) == segs[3].payloads;
  }

  lemma UpdateFailureStateSameBytes(m: UpdateFailureState)
    ensures EncodeUpdateFailureState(NormalUpdateFailureState(m)) == EncodeUpdateFailureState(m)
  {
  }

  lemma UpdateFailureStateFieldRoundTrip(segs: seq<Segment>, j: nat, u: bytes, num: nat, child: Ptr<UpdateFailureState>)
    requires j < |segs| && segs[j] == ChildSeg(num, EncodeChild(EncodeUpdateFailureState, child))
        && |Body(segs, 0, u)| < TWO_63
    requires child.Ref? ==> WellFormedUpdateFailureState(child.value)
    ensures DecodeChild(DecodeUpdateFailureState, Merged(segs[j].payloads))
        == Some(NormalChild(NormalUpdateFailureState, child))
  {
    MergedChild(num, EncodeChild(EncodeUpdateFailureState, child));
    if child.Ref? {
      ChildFits(segs, j, u, num, EncodeChild(EncodeUpdateFailureState, child));
      UpdateFailureStateRoundTrip(child.value);
    }
  }

  // ---------------------------------------------------------------- StaticListener

  datatype StaticListener = StaticListener(listener: Ptr<bytes>, lastUpdated: Ptr<bytes>, unknown: bytes)

  const STATIC_LISTENER_SCHEMA: seq<Key> := [Key(1, 2), Key(2, 2)]

  function StaticListenerSegs(m: StaticListener): seq<Segment> {
    [ ChildSeg(1, m.listener),
      ChildSeg(2, m.lastUpdated) ]
  }

  function EncodeStaticListener(m: StaticListener): bytes {
    Body(StaticListenerSegs(m), 0, m.unknown)
  }

  method MarshalStaticListener(p: Ptr<StaticListener>, buf: array<byte>, end: nat) returns (n: nat)
    requires |EncodePtr(EncodeStaticListener, p)| <= end <= buf.Length
    modifies buf
    ensures n == |EncodePtr(EncodeStaticListener, p)|
    ensures Filled(buf[..], old(buf[..]), end - n, EncodePtr(EncodeStaticListener, p))
  {
    hide Reached, Counted, Body, VarintBytes, StringSeg, IntSeg, BoolSeg, ChildSeg, ListSeg, DoubleSeg;
    if p.Nil? {
      FillNothing(buf[..], end);
      return 0;
    }
    var m := p.value;
    ghost var t := Task(buf[..], end, StaticListenerSegs(m), m.unknown);
    OneByteTags();
    var i := PutUnknown(buf, m.unknown, end, t);
    i := PutOpaque(buf, i, [0x12], m.lastUpdated, 2, t, 1);
    i := PutOpaque(buf, i, [0x0a], m.listener, 1, t, 0);
    Finished(buf[..], t, i);
    n := end - i;
  }

  method SizeStaticListener(p: Ptr<StaticListener>) returns (n: nat)
    ensures n == |EncodePtr(EncodeStaticListener, p)|
  {
    hide Reached, Counted, Body, VarintBytes, StringSeg, IntSeg, BoolSeg, ChildSeg, ListSeg, DoubleSeg;
    if p.Nil? { return 0; }
    var m := p.value;
    ghost var t := Task([], 0, StaticListenerSegs(m), m.unknown);
    OneByteTags();
    n := StartSize(t);
    n := SizeOpaque(n, 1, m.listener, 1, t, 0);
    n := SizeOpaque(n, 1, m.lastUpdated, 2, t, 1);
    n := SizeUnknown(n, m.unknown, t);
  }

  /** Each element in turn, the last one first. */
  method PutStaticListenerList(buf: array<byte>, i: nat, tag: bytes, items: seq<Ptr<StaticListener>>, ghost num: nat,
      ghost t: Task, ghost j: nat)
    returns (at: nat)
    requires Reached(buf[..], t, i, j + 1) && j < |t.segs|
    requires tag == VarintBytes(num * 8 + 2) && t.segs[j] == ListSeg(num, EncodeItems(EncodeStaticListener, items))
    modifies buf
    ensures Reached(buf[..], t, at, j)
  {
    hide Splice, Filled, SegBytes, RecordBytes, VarintBytes, ListSeg, ListBytes, EncodeStaticListener;
    BodyStep(t.segs, j, t.unknown);
    ghost var all, done := EncodeItems(EncodeStaticListener, items), Body(t.segs, j + 1, t.unknown);
    at := i;
    NothingFirst(done);
    ListBytesAll(num, all);
    for k := |items| downto 0
      invariant at == i - |ListBytes(num, all, k)|
      invariant Filled(buf[..], t.orig, at, ListBytes(num, all, k) + done)
    {
      ListStep(num, all, k, done);
      ghost var start, later := buf[..], ListBytes(num, all, k + 1) + done;
      FilledBounds(start, t.orig, at, later);
      var size := MarshalStaticListener(items[k], buf, at);
      Fill(start, t.orig, at, later, all[k], buf[..]);
      at := PutLength(buf, at - size, tag, size, num, all[k], t.orig, later);
    }
  }

  method SizeStaticListenerList(n: nat, tagSize: nat, items: seq<Ptr<StaticListener>>, ghost num: nat, ghost t: Task,
      ghost j: nat) returns (sum: nat)
    requires j < |t.segs| && tagSize == |VarintBytes(num * 8 + 2)|
        && t.segs[j] == ListSeg(num, EncodeItems(EncodeStaticListener, items))
    ensures Counted(t, n, j) ==> Counted(t, sum, j + 1)
  {
    hide SegBytes, RecordBytes, VarintBytes, ListSeg, ListBytes, EncodeStaticListener;
    BodyStep(t.segs, j, t.unknown);
    ghost var all := EncodeItems(EncodeStaticListener, items);
    ListBytesAll(num, all);
    sum := n;
    for k := 0 to |items|
      invariant sum + |ListBytes(num, all, k)| == n + |SegBytes(ListSeg(num, all))|
    {
      ListStep(num, all, k, []);
      var l := SizeStaticListener(items[k]);
      l := SizeBytes(tagSize, l, num, all[k]);
      sum := sum + l;
    }
  }

  function DecodeStaticListener(s: bytes): Option<StaticListener> {
    var fs :- Parse(s);
    Some(StaticListener(
      Merged(Payloads(fs, Key(1, 2))),
      Merged(Payloads(fs, Key(2, 2))),
      Unrecognised(fs, STATIC_LISTENER_SCHEMA)))
  }

  const EMPTY_STATIC_LISTENER: StaticListener := StaticListener(Nil, Nil, [])

  function NormalStaticListener(m: StaticListener): StaticListener {
    m
  }

  predicate WellFormedStaticListener(m: StaticListener) {
    && WellFormedUnknown(m.unknown, STATIC_LISTENER_SCHEMA)
  }

  lemma StaticListenerShape(m: StaticListener)
    ensures Shaped(StaticListenerSegs(m), STATIC_LISTENER_SCHEMA) && Ascending(STATIC_LISTENER_SCHEMA)
  {
    hide ShapedSegment, StringSeg, IntSeg, BoolSeg, ChildSeg, ListSeg, DoubleSeg;
  }

  lemma StaticListenerRoundTrip(m: StaticListener)
    requires WellFormedStaticListener(m) && |EncodeStaticListener(m)| < TWO_63
    ensures DecodeStaticListener(EncodeStaticListener(m)) == Some(NormalStaticListener(m))
  {
    hide Parse, Body, Payloads, Unrecognised, ShapedSegment, Items, Merged, LastData, LastInt, U64;
    var segs := StaticListenerSegs(m);
    StaticListenerShape(m);
    ReadMessage(segs, STATIC_LISTENER_SCHEMA, m.unknown);
    var fs := Parse(EncodeStaticListener(m)).value;
    assert Payloads(fs, STATIC_LISTENER_SCHEMA[0]) == segs[0].payloads;
    MergedChild(1, m.listener);
    assert Payloads(fs, STATIC_LISTENER_SCHEMA[1]) == segs[1].payloads;
    MergedChild(2, m.lastUpdated);
  }

  /** Which record carries which field, and when it is there at all. */
  lemma StaticListenerLayout(m: StaticListener)
    requires WellFormedUnknown(m.unknown, STATIC_LISTENER_SCHEMA) && |EncodeStaticListener(m)| < TWO_63
    ensures Parse(EncodeStaticListener(m)).Some?
    ensures var fs := Parse(EncodeStaticListener(m)).value;
            && Payloads(fs, Key(1, 2)) == (if m.listener.Nil? then [] else [Bytes(m.listener.value)])
            && Payloads(fs, Key(2, 2)) == (if m.lastUpdated.Nil? then [] else [Bytes(m.lastUpdated.value)])
            && Unrecognised(fs, STATIC_LISTENER_SCHEMA) == m.unknown
  {
    hide Parse, Body, Payloads, Unrecognised, ShapedSegment, Items, WellFormedUnknown;
    var segs := StaticListenerSegs(m);
    StaticListenerShape(m);
    ReadMessage(segs, STATIC_LISTENER_SCHEMA, m.unknown);
    var fs := Parse(EncodeStaticListener(m)).value;
    assert Payloads(fs, STATIC_LISTENER_SCHEMA[0]) == segs[0].payloads;
    assert Payloads(fs, STATIC_LISTENER_SCHEMA[1]) == segs[1].payloads;
  }

  lemma StaticListenerSameBytes(m: StaticListener)
    ensures EncodeStaticListener(NormalStaticListener(m)) == EncodeStaticListener(m)
  {
  }

  lemma StaticListenerEmpty()
    ensures EncodeStaticListener(EMPTY_STATIC_LISTENER) == [] && DecodeStaticListener([]) == Some(EMPTY_STATIC_LISTENER)
  {
    EmptyBody(StaticListenerSegs(EMPTY_STATIC_LISTENER), 0);
  }

  lemma StaticListenerListRoundTrip(segs: seq<Segment>, j: nat, u: bytes, num: nat, items: seq<Ptr<StaticListener>>)
    requires j < |segs| && segs[j] == ListSeg(num, EncodeItems(EncodeStaticListener, items))
        && |Body(segs, 0, u)| < TWO_63
    requires forall p :: p in items && p.Ref? ==> WellFormedStaticListener(p.value)
    ensures DecodeItems(DecodeStaticListener, Items(segs[j].payloads))
        == Some(NormalItems(NormalStaticListener, EMPTY_STATIC_LISTENER, items))
  {
    hide Body, Items, ListSeg, EncodeStaticListener, DecodeStaticListener, NormalStaticListener,
         WellFormedStaticListener;
    forall p | p in items && p.Ref? ensures DecodeStaticListener(EncodeStaticListener(p.value))
        == Some(NormalStaticListener(p.value)) {
      var k :| 0 <= k < |items| && items[k] == p;
      ItemFits(segs, j, u, num, EncodeItems(EncodeStaticListener, items), k);
      StaticListenerRoundTrip(p.value);
    }
    StaticListenerEmpty();
    ItemsOfList(num, EncodeItems(EncodeStaticListener, items));
    ItemsRoundTrip(EncodeStaticListener, DecodeStaticListener, NormalStaticListener, EMPTY_STATIC_LISTENER, items);
  }

  // ---------------------------------------------------------------- DynamicListenerState

  datatype DynamicListenerState = DynamicListenerState(
    versionInfo: bytes, listener: Ptr<bytes>, lastUpdated: Ptr<bytes>, unknown: bytes)

  const DYNAMIC_LISTENER_STATE_SCHEMA: seq<Key> := [Key(1, 2), Key(2, 2), Key(3, 2)]

  function DynamicListenerStateSegs(m: DynamicListenerState): seq<Segment> {
    [ StringSeg(1, m.versionInfo),
      ChildSeg(2, m.listener),
      ChildSeg(3, m.lastUpdated) ]
  }

  function EncodeDynamicListenerState(m: DynamicListenerState): bytes {
    Body(DynamicListenerStateSegs(m), 0, m.unknown)
  }

  method MarshalDynamicListenerState(p: Ptr<DynamicListenerState>, buf: array<byte>, end: nat) returns (n: nat)
    requires |EncodePtr(EncodeDynamicListenerState, p)| <= end <= buf.Length
    modifies buf
    ensures n == |EncodePtr(EncodeDynamicListenerState, p)|
    ensures Filled(buf[..], old(buf[..]), end - n, EncodePtr(EncodeDynamicListenerState, p))
  {
    hide Reached, Counted, Body, VarintBytes, StringSeg, IntSeg, BoolSeg, ChildSeg, ListSeg, DoubleSeg;
    if p.Nil? {
      FillNothing(buf[..], end);
      return 0;
    }
    var m := p.value;
    ghost var t := Task(buf[..], end, DynamicListenerStateSegs(m), m.unknown);
    OneByteTags();
    var i := PutUnknown(buf, m.unknown, end, t);
    i := PutOpaque(buf, i, [0x1a], m.lastUpdated, 3, t, 2);
    i := PutOpaque(buf, i, [0x12], m.listener, 2, t, 1);
    i := PutString(buf, i, [0x0a], m.versionInfo, 1, t, 0);
    Finished(buf[..], t, i);
    n := end - i;
  }

  method SizeDynamicListenerState(p: Ptr<DynamicListenerState>) returns (n: nat)
    ensures n == |EncodePtr(EncodeDynamicListenerState, p)|
  {
    hide Reached, Counted, Body, VarintBytes, StringSeg, IntSeg, BoolSeg, ChildSeg, ListSeg, DoubleSeg;
    if p.Nil? { return 0; }
    var m := p.value;
    ghost var t := Task([], 0, DynamicListenerStateSegs(m), m.unknown);
    OneByteTags();
    n := StartSize(t);
    n := SizeString(n, 1, m.versionInfo, 1, t, 0);
    n := SizeOpaque(n, 1, m.listener, 2, t, 1);
    n := SizeOpaque(n, 1, m.lastUpdated, 3, t, 2);
    n := SizeUnknown(n, m.unknown, t);
  }

  method PutDynamicListenerState(buf: array<byte>, i: nat, tag: bytes, child: Ptr<DynamicListenerState>,
      ghost num: nat, ghost t: Task, ghost j: nat)
    returns (at: nat)
    requires Reached(buf[..], t, i, j + 1) && j < |t.segs|
    requires tag == VarintBytes(num * 8 + 2) && t.segs[j] == ChildSeg(num,
        EncodeChild(EncodeDynamicListenerState, child))
    modifies buf
    ensures Reached(buf[..], t, at, j)
  {
    hide Splice, Filled, SegBytes, RecordBytes, VarintBytes, ChildSeg, EncodeDynamicListenerState;
    BodyStep(t.segs, j, t.unknown);
    ChildBytes(num, EncodeChild(EncodeDynamicListenerState, child));
    ghost var start, done := buf[..], Body(t.segs, j + 1, t.unknown);
    at := i;
    if child.Ref? {
      FilledBounds(start, t.orig, at, done);
      var size := MarshalDynamicListenerState(child, buf, at);
      Fill(start, t.orig, at, done, EncodeDynamicListenerState(child.value), buf[..]);
      at := PutLength(buf, at - size, tag, size, num, EncodeDynamicListenerState(child.value), t.orig, done);
    } else {
      NothingFirst(done);
    }
  }

  method SizeDynamicListenerStateField(n: nat, tagSize: nat, child: Ptr<DynamicListenerState>, ghost num: nat,
      ghost t: Task, ghost j: nat) returns (sum: nat)
    requires j < |t.segs| && tagSize == |VarintBytes(num * 8 + 2)|
        && t.segs[j] == ChildSeg(num, EncodeChild(EncodeDynamicListenerState, child))
    ensures Counted(t, n, j) ==> Counted(t, sum, j + 1)
  {
    hide SegBytes, RecordBytes, VarintBytes, ChildSeg, EncodeDynamicListenerState;
    BodyStep(t.segs, j, t.unknown);
    ChildBytes(num, EncodeChild(EncodeDynamicListenerState, child));
    sum := n;
    if child.Ref? {
      var l := SizeDynamicListenerState(child);
      l := SizeBytes(tagSize, l, num, EncodeDynamicListenerState(child.value));
      sum := n + l;
    }
  }

  function DecodeDynamicListenerState(s: bytes): Option<DynamicListenerState> {
    var fs :- Parse(s);
    Some(DynamicListenerState(
      LastData(Payloads(fs, Key(1, 2))),
      Merged(Payloads(fs, Key(2, 2))),
      Merged(Payloads(fs, Key(3, 2))),
      Unrecognised(fs, DYNAMIC_LISTENER_STATE_SCHEMA)))
  }

  function NormalDynamicListenerState(m: DynamicListenerState): DynamicListenerState {
    m
  }

  predicate WellFormedDynamicListenerState(m: DynamicListenerState) {
    && WellFormedUnknown(m.unknown, DYNAMIC_LISTENER_STATE_SCHEMA)
  }

  lemma DynamicListenerStateShape(m: DynamicListenerState)
    ensures Shaped(DynamicListenerStateSegs(m), DYNAMIC_LISTENER_STATE_SCHEMA)
        && Ascending(DYNAMIC_LISTENER_STATE_SCHEMA)
  {
    hide ShapedSegment, StringSeg, IntSeg, BoolSeg, ChildSeg, ListSeg, DoubleSeg;
  }

  lemma DynamicListenerStateRoundTrip(m: DynamicListenerState)
    requires WellFormedDynamicListenerState(m) && |EncodeDynamicListenerState(m)| < TWO_63
    ensures DecodeDynamicListenerState(EncodeDynamicListenerState(m)) == Some(NormalDynamicListenerState(m))
  {
    hide Parse, Body, Payloads, Unrecognised, ShapedSegment, Items, Merged, LastData, LastInt, U64;
    var segs := DynamicListenerStateSegs(m);
    DynamicListenerStateShape(m);
    ReadMessage(segs, DYNAMIC_LISTENER_STATE_SCHEMA, m.unknown);
    var fs := Parse(EncodeDynamicListenerState(m)).value;
    assert Payloads(fs, DYNAMIC_LISTENER_STATE_SCHEMA[0]) == segs[0].payloads;
    StringBack(1, m.versionInfo);
    assert Payloads(fs, DYNAMIC_LISTENER_STATE_SCHEMA[1]) == segs[1].payloads;
    MergedChild(2, m.listener);
    assert Payloads(fs, DYNAMIC_LISTENER_STATE_SCHEMA[2]) == segs[2].payloads;
    MergedChild(3, m.lastUpdated);
  }

  /** Which record carries which field, and when it is there at all. */
  lemma DynamicListenerStateLayout(m: DynamicListenerState)
    requires WellFormedUnknown(m.unknown, DYNAMIC_LISTENER_STATE_SCHEMA) && |EncodeDynamicListenerState(m)| < TWO_63
    ensures Parse(EncodeDynamicListenerState(m)).Some?
    ensures var fs := Parse(EncodeDynamicListenerState(m)).value;
            && Payloads(fs, Key(1, 2)) == (if |m.versionInfo| > 0 then [Bytes(m.versionInfo)] else [])
            && Payloads(fs, Key(2, 2)) == (if m.listener.Nil? then [] else [Bytes(m.listener.value)])
            && Payloads(fs, Key(3, 2)) == (if m.lastUpdated.Nil? then [] else [Bytes(m.lastUpdated.value)])
            && Unrecognised(fs, DYNAMIC_LISTENER_STATE_SCHEMA) == m.unknown
  {
    hide Parse, Body, Payloads, Unrecognised, ShapedSegment, Items, WellFormedUnknown;
    var segs := DynamicListenerStateSegs(m);
    DynamicListenerStateShape(m);
    ReadMessage(segs, DYNAMIC_LISTENER_STATE_SCHEMA, m.unknown);
    var fs := Parse(EncodeDynamicListenerState(m)).value;
    assert Payloads(fs, DYNAMIC_LISTENER_STATE_SCHEMA[0]) == segs[0].payloads;
    assert Payloads(fs, DYNAMIC_LISTENER_STATE_SCHEMA[1]) == segs[1].payloads;
    assert Payloads(fs, DYNAMIC_LISTENER_STATE_SCHEMA[2]) == segs[2].payloads;
  }

  lemma DynamicListenerStateSameBytes(m: DynamicListenerState)
    ensures EncodeDynamicListenerState(NormalDynamicListenerState(m)) == EncodeDynamicListenerState(m)
  {
  }

  lemma DynamicListenerStateFieldRoundTrip(segs: seq<Segment>, j: nat, u: bytes, num: nat,
      child: Ptr<DynamicListenerState>)
    requires j < |segs| && segs[j] == ChildSeg(num, EncodeChild(EncodeDynamicListenerState, child))
        && |Body(segs, 0, u)| < TWO_63
    requires child.Ref? ==> WellFormedDynamicListenerState(child.value)
    ensures DecodeChild(DecodeDynamicListenerState, Merged(segs[j].payloads))
        == Some(NormalChild(NormalDynamicListenerState, child))
  {
    MergedChild(num, EncodeChild(EncodeDynamicListenerState, child));
    if child.Ref? {
      ChildFits(segs, j, u, num, EncodeChild(EncodeDynamicListenerState, child));
      DynamicListenerStateRoundTrip(child.value);
    }
  }

  // ---------------------------------------------------------------- DynamicListener

  datatype DynamicListener = DynamicListener(
    name: bytes, activeState: Ptr<DynamicListenerState>, warmingState: Ptr<DynamicListenerState>,
    drainingState: Ptr<DynamicListenerState>, errorState: Ptr<UpdateFailureState>, clientStatus: int32,
    unknown: bytes)

  const DYNAMIC_LISTENER_SCHEMA: seq<Key> := [Key(1, 2), Key(2, 2), Key(3, 2), Key(4, 2), Key(5, 2), Key(6, 0)]

  function DynamicListenerSegs(m: DynamicListener): seq<Segment> {
    [ StringSeg(1, m.name),
      ChildSeg(2, EncodeChild(EncodeDynamicListenerState, m.activeState)),
      ChildSeg(3, EncodeChild(EncodeDynamicListenerState, m.warmingState)),
      ChildSeg(4, EncodeChild(EncodeDynamicListenerState, m.drainingState)),
      ChildSeg(5, EncodeChild(EncodeUpdateFailureState, m.errorState)),
      IntSeg(6, U64(m.clientStatus)) ]
  }

  function EncodeDynamicListener(m: DynamicListener): bytes {
    Body(DynamicListenerSegs(m), 0, m.unknown)
  }

  lemma DynamicListenerAt(m: DynamicListener)
    ensures |DynamicListenerSegs(m)| == 6
    ensures DynamicListenerSegs(m)[0] == StringSeg(1, m.name)
    ensures DynamicListenerSegs(m)[1] == ChildSeg(2, EncodeChild(EncodeDynamicListenerState, m.activeState))
    ensures DynamicListenerSegs(m)[2] == ChildSeg(3, EncodeChild(EncodeDynamicListenerState, m.warmingState))
    ensures DynamicListenerSegs(m)[3] == ChildSeg(4, EncodeChild(EncodeDynamicListenerState, m.drainingState))
    ensures DynamicListenerSegs(m)[4] == ChildSeg(5, EncodeChild(EncodeUpdateFailureState, m.errorState))
    ensures DynamicListenerSegs(m)[5] == IntSeg(6, U64(m.clientStatus))
  {
    hide StringSeg, IntSeg, BoolSeg, ChildSeg, ListSeg;
  }

  method MarshalDynamicListener(p: Ptr<DynamicListener>, buf: array<byte>, end: nat) returns (n: nat)
    requires |EncodePtr(EncodeDynamicListener, p)| <= end <= buf.Length
    modifies buf
    ensures n == |EncodePtr(EncodeDynamicListener, p)|
    ensures Filled(buf[..], old(buf[..]), end - n, EncodePtr(EncodeDynamicListener, p))
  {
    hide Reached, Counted, Body, VarintBytes, DynamicListenerSegs, StringSeg, IntSeg, BoolSeg, ChildSeg, ListSeg;
    if p.Nil? {
      FillNothing(buf[..], end);
      return 0;
    }
    var m := p.value;
    ghost var t := Task(buf[..], end, DynamicListenerSegs(m), m.unknown);
    OneByteTags();
    DynamicListenerAt(m);
    var i := PutUnknown(buf, m.unknown, end, t);
    i := PutInt(buf, i, [0x30], U64(m.clientStatus), 6, t, 5);
    i := PutUpdateFailureState(buf, i, [0x2a], m.errorState, 5, t, 4);
    i := PutDynamicListenerState(buf, i, [0x22], m.drainingState, 4, t, 3);
    i := PutDynamicListenerState(buf, i, [0x1a], m.warmingState, 3, t, 2);
    i := PutDynamicListenerState(buf, i, [0x12], m.activeState, 2, t, 1);
    i := PutString(buf, i, [0x0a], m.name, 1, t, 0);
    Finished(buf[..], t, i);
    n := end - i;
  }

  method SizeDynamicListener(p: Ptr<DynamicListener>) returns (n: nat)
    ensures n == |EncodePtr(EncodeDynamicListener, p)|
  {
    hide Reached, Counted, Body, VarintBytes, DynamicListenerSegs, StringSeg, IntSeg, BoolSeg, ChildSeg, ListSeg;
    if p.Nil? { return 0; }
    var m := p.value;
    ghost var t := Task([], 0, DynamicListenerSegs(m), m.unknown);
    OneByteTags();
    DynamicListenerAt(m);
    n := StartSize(t);
    n := SizeString(n, 1, m.name, 1, t, 0);
    n := SizeDynamicListenerStateField(n, 1, m.activeState, 2, t, 1);
    n := SizeDynamicListenerStateField(n, 1, m.warmingState, 3, t, 2);
    n := SizeDynamicListenerStateField(n, 1, m.drainingState, 4, t, 3);
    n := SizeUpdateFailureStateField(n, 1, m.errorState, 5, t, 4);
    n := SizeInt(n, 1, U64(m.clientStatus), 6, t, 5);
    n := SizeUnknown(n, m.unknown, t);
  }

  /** Each element in turn, the last one first. */
  method PutDynamicListenerList(buf: array<byte>, i: nat, tag: bytes, items: seq<Ptr<DynamicListener>>, ghost num: nat,
      ghost t: Task, ghost j: nat)
    returns (at: nat)
    requires Reached(buf[..], t, i, j + 1) && j < |t.segs|
    requires tag == VarintBytes(num * 8 + 2) && t.segs[j] == ListSeg(num, EncodeItems(EncodeDynamicListener, items))
    modifies buf
    ensures Reached(buf[..], t, at, j)
  {
    hide Splice, Filled, SegBytes, RecordBytes, VarintBytes, ListSeg, ListBytes, EncodeDynamicListener;
    BodyStep(t.segs, j, t.unknown);
    ghost var all, done := EncodeItems(EncodeDynamicListener, items), Body(t.segs, j + 1, t.unknown);
    at := i;
    NothingFirst(done);
    ListBytesAll(num, all);
    for k := |items| downto 0
      invariant at == i - |ListBytes(num, all, k)|
      invariant Filled(buf[..], t.orig, at, ListBytes(num, all, k) + done)
    {
      ListStep(num, all, k, done);
      ghost var start, later := buf[..], ListBytes(num, all, k + 1) + done;
      FilledBounds(start, t.orig, at, later);
      var size := MarshalDynamicListener(items[k], buf, at);
      Fill(start, t.orig, at, later, all[k], buf[..]);
      at := PutLength(buf, at - size, tag, size, num, all[k], t.orig, later);
    }
  }

  method SizeDynamicListenerList(n: nat, tagSize: nat, items: seq<Ptr<DynamicListener>>, ghost num: nat, ghost t: Task,
      ghost j: nat) returns (sum: nat)
    requires j < |t.segs| && tagSize == |VarintBytes(num * 8 + 2)|
        && t.segs[j] == ListSeg(num, EncodeItems(EncodeDynamicListener, items))
    ensures Counted(t, n, j) ==> Counted(t, sum, j + 1)
  {
    hide SegBytes, RecordBytes, VarintBytes, ListSeg, ListBytes, EncodeDynamicListener;
    BodyStep(t.segs, j, t.unknown);
    ghost var all := EncodeItems(EncodeDynamicListener, items);
    ListBytesAll(num, all);
    sum := n;
    for k := 0 to |items|
      invariant sum + |ListBytes(num, all, k)| == n + |SegBytes(ListSeg(num, all))|
    {
      ListStep(num, all, k, []);
      var l := SizeDynamicListener(items[k]);
      l := SizeBytes(tagSize, l, num, all[k]);
      sum := sum + l;
    }
  }

  function DecodeDynamicListener(s: bytes): Option<DynamicListener> {
    var fs :- Parse(s);
    var activeState :- DecodeChild(DecodeDynamicListenerState, Merged(Payloads(fs, Key(2, 2))));
    var warmingState :- DecodeChild(DecodeDynamicListenerState, Merged(Payloads(fs, Key(3, 2))));
    var drainingState :- DecodeChild(DecodeDynamicListenerState, Merged(Payloads(fs, Key(4, 2))));
    var errorState :- DecodeChild(DecodeUpdateFailureState, Merged(Payloads(fs, Key(5, 2))));
    Some(DynamicListener(
      LastData(Payloads(fs, Key(1, 2))),
      activeState,
      warmingState,
      drainingState,
      errorState,
      ToInt32(LastInt(Payloads(fs, Key(6, 0)))),
      Unrecognised(fs, DYNAMIC_LISTENER_SCHEMA)))
  }

  const EMPTY_DYNAMIC_LISTENER: DynamicListener := DynamicListener([], Nil, Nil, Nil, Nil, 0, [])

  function NormalDynamicListener(m: DynamicListener): DynamicListener {
    m.(activeState := NormalChild(NormalDynamicListenerState, m.activeState),
       warmingState := NormalChild(NormalDynamicListenerState, m.warmingState),
       drainingState := NormalChild(NormalDynamicListenerState, m.drainingState),
       errorState := NormalChild(NormalUpdateFailureState, m.errorState))
  }

  predicate WellFormedDynamicListener(m: DynamicListener) {
    && WellFormedUnknown(m.unknown, DYNAMIC_LISTENER_SCHEMA)
    && (m.activeState.Ref? ==> WellFormedDynamicListenerState(m.activeState.value))
    && (m.warmingState.Ref? ==> WellFormedDynamicListenerState(m.warmingState.value))
    && (m.drainingState.Ref? ==> WellFormedDynamicListenerState(m.drainingState.value))
    && (m.errorState.Ref? ==> WellFormedUpdateFailureState(m.errorState.value))
  }

  lemma DynamicListenerShape(m: DynamicListener)
    ensures Shaped(DynamicListenerSegs(m), DYNAMIC_LISTENER_SCHEMA) && Ascending(DYNAMIC_LISTENER_SCHEMA)
  {
    hide ShapedSegment, StringSeg, IntSeg, BoolSeg, ChildSeg, ListSeg, DoubleSeg;
  }

  lemma DynamicListenerRoundTrip(m: DynamicListener)
    requires WellFormedDynamicListener(m) && |EncodeDynamicListener(m)| < TWO_63
    ensures DecodeDynamicListener(EncodeDynamicListener(m)) == Some(NormalDynamicListener(m))
  {
    hide Parse, Body, Payloads, Unrecognised, ShapedSegment, Items, Merged, LastData, LastInt, U64;
    var segs := DynamicListenerSegs(m);
    DynamicListenerShape(m);
    ReadMessage(segs, DYNAMIC_LISTENER_SCHEMA, m.unknown);
    var fs := Parse(EncodeDynamicListener(m)).value;
    assert Payloads(fs, DYNAMIC_LISTENER_SCHEMA[0]) == segs[0].payloads;
    StringBack(1, m.name);
    assert Payloads(fs, DYNAMIC_LISTENER_SCHEMA[1]) == segs[1].payloads;
    DynamicListenerStateFieldRoundTrip(segs, 1, m.unknown, 2, m.activeState);
    assert Payloads(fs, DYNAMIC_LISTENER_SCHEMA[2]) == segs[2].payloads;
    DynamicListenerStateFieldRoundTrip(segs, 2, m.unknown, 3, m.warmingState);
    assert Payloads(fs, DYNAMIC_LISTENER_SCHEMA[3]) == segs[3].payloads;
    DynamicListenerStateFieldRoundTrip(segs, 3, m.unknown, 4, m.drainingState);
    assert Payloads(fs, DYNAMIC_LISTENER_SCHEMA[4]) == segs[4].payloads;
    UpdateFailureStateFieldRoundTrip(segs, 4, m.unknown, 5, m.errorState);
    assert Payloads(fs, DYNAMIC_LISTENER_SCHEMA[5]) == segs[5].payloads;
    IntBack(6, m.clientStatus);
  }

  /** Which record carries which field, and when it is there at all. */
  lemma DynamicListenerLayout(m: DynamicListener)
    requires WellFormedUnknown(m.unknown, DYNAMIC_LISTENER_SCHEMA) && |EncodeDynamicListener(m)| < TWO_63
    ensures Parse(EncodeDynamicListener(m)).Some?
    ensures var fs := Parse(EncodeDynamicListener(m)).value;
            && Payloads(fs, Key(1, 2)) == (if |m.name| > 0 then [Bytes(m.name)] else [])
            && Payloads(fs, Key(2, 2)) == (if m.activeState.Nil? then []
               else [Bytes(EncodeDynamicListenerState(m.activeState.value))])
            && Payloads(fs, Key(3, 2)) == (if m.warmingState.Nil? then []
               else [Bytes(EncodeDynamicListenerState(m.warmingState.value))])
            && Payloads(fs, Key(4, 2)) == (if m.drainingState.Nil? then []
               else [Bytes(EncodeDynamicListenerState(m.drainingState.value))])
            && Payloads(fs, Key(5, 2)) == (if m.errorState.Nil? then []
               else [Bytes(EncodeUpdateFailureState(m.errorState.value))])
            && Payloads(fs, Key(6, 0)) == (if m.clientStatus == 0 then []
               else [Varint(if m.clientStatus < 0 then m.clientStatus + TWO_64 else m.clientStatus)])
            && Unrecognised(fs, DYNAMIC_LISTENER_SCHEMA) == m.unknown
  {
    hide Parse, Body, Payloads, Unrecognised, ShapedSegment, Items, WellFormedUnknown, EncodeDynamicListenerState,
         EncodeUpdateFailureState, DynamicListenerSegs;
    var segs := DynamicListenerSegs(m);
    DynamicListenerAt(m);
    DynamicListenerShape(m);
    ReadMessage(segs, DYNAMIC_LISTENER_SCHEMA, m.unknown);
    var fs := Parse(EncodeDynamicListener(m)).value;
    assert Payloads(fs, DYNAMIC_LISTENER_SCHEMA[0]) == segs[0].payloads;
    assert Payloads(fs, DYNAMIC_LISTENER_SCHEMA[1]) == segs[1].payloads;
    assert Payloads(fs, DYNAMIC_LISTENER_SCHEMA[2]) == segs[2].payloads;
    assert Payloads(fs, DYNAMIC_LISTENER_SCHEMA[3]) == segs[3].payloads;
    assert Payloads(fs, DYNAMIC_LISTENER_SCHEMA[4]) == segs[4].payloads;
    assert Payloads(fs, DYNAMIC_LISTENER_SCHEMA[5]) == segs[5].payloads;
  }

  lemma DynamicListenerSameBytes(m: DynamicListener)
    ensures EncodeDynamicListener(NormalDynamicListener(m)) == EncodeDynamicListener(m)
  {
    hide Body;
    if m.activeState.Ref? { DynamicListenerStateSameBytes(m.activeState.value); }
    if m.warmingState.Ref? { DynamicListenerStateSameBytes(m.warmingState.value); }
    if m.drainingState.Ref? { DynamicListenerStateSameBytes(m.drainingState.value); }
    if m.errorState.Ref? { UpdateFailureStateSameBytes(m.errorState.value); }
    assert DynamicListenerSegs(NormalDynamicListener(m)) == DynamicListenerSegs(m);
  }

  lemma DynamicListenerEmpty()
    ensures EncodeDynamicListener(EMPTY_DYNAMIC_LISTENER) == []
        && DecodeDynamicListener([]) == Some(EMPTY_DYNAMIC_LISTENER)
  {
    hide DynamicListenerSegs, Body;
    DynamicListenerAt(EMPTY_DYNAMIC_LISTENER);
    EmptyBody(DynamicListenerSegs(EMPTY_DYNAMIC_LISTENER), 0);
  }

  lemma DynamicListenerListRoundTrip(segs: seq<Segment>, j: nat, u: bytes, num: nat, items: seq<Ptr<DynamicListener>>)
    requires j < |segs| && segs[j] == ListSeg(num, EncodeItems(EncodeDynamicListener, items))
        && |Body(segs, 0, u)| < TWO_63
    requires forall p :: p in items && p.Ref? ==> WellFormedDynamicListener(p.value)
    ensures DecodeItems(DecodeDynamicListener, Items(segs[j].payloads))
        == Some(NormalItems(NormalDynamicListener, EMPTY_DYNAMIC_LISTENER, items))
  {
    hide Body, Items, ListSeg, EncodeDynamicListener, DecodeDynamicListener, NormalDynamicListener,
         WellFormedDynamicListener;
    forall p | p in items && p.Ref? ensures DecodeDynamicListener(EncodeDynamicListener(p.value))
        == Some(NormalDynamicListener(p.value)) {
      var k :| 0 <= k < |items| && items[k] == p;
      ItemFits(segs, j, u, num, EncodeItems(EncodeDynamicListener, items), k);
      DynamicListenerRoundTrip(p.value);
    }
    DynamicListenerEmpty();
    ItemsOfList(num, EncodeItems(EncodeDynamicListener, items));
    ItemsRoundTrip(EncodeDynamicListener, DecodeDynamicListener, NormalDynamicListener, EMPTY_DYNAMIC_LISTENER, items);
  }

  // ---------------------------------------------------------------- ListenersConfigDump

  datatype ListenersConfigDump = ListenersConfigDump(
    versionInfo: bytes, staticListeners: seq<Ptr<StaticListener>>, dynamicListeners: seq<Ptr<DynamicListener>>,
    unknown: bytes)

  const LISTENERS_CONFIG_DUMP_SCHEMA: seq<Key> := [Key(1, 2), Key(2, 2), Key(3, 2)]

  function ListenersConfigDumpSegs(m: ListenersConfigDump): seq<Segment> {
    [ StringSeg(1, m.versionInfo),
      ListSeg(2, EncodeItems(EncodeStaticListener, m.staticListeners)),
      ListSeg(3, EncodeItems(EncodeDynamicListener, m.dynamicListeners)) ]
  }

  function EncodeListenersConfigDump(m: ListenersConfigDump): bytes {
    Body(ListenersConfigDumpSegs(m), 0, m.unknown)
  }

  method MarshalListenersConfigDump(p: Ptr<ListenersConfigDump>, buf: array<byte>, end: nat) returns (n: nat)
    requires |EncodePtr(EncodeListenersConfigDump, p)| <= end <= buf.Length
    modifies buf
    ensures n == |EncodePtr(EncodeListenersConfigDump, p)|
    ensures Filled(buf[..], old(buf[..]), end - n, EncodePtr(EncodeListenersConfigDump, p))
  {
    hide Reached, Counted, Body, VarintBytes, StringSeg, IntSeg, BoolSeg, ChildSeg, ListSeg, DoubleSeg;
    if p.Nil? {
      FillNothing(buf[..], end);
      return 0;
    }
    var m := p.value;
    ghost var t := Task(buf[..], end, ListenersConfigDumpSegs(m), m.unknown);
    OneByteTags();
    var i := PutUnknown(buf, m.unknown, end, t);
    i := PutDynamicListenerList(buf, i, [0x1a], m.dynamicListeners, 3, t, 2);
    i := PutStaticListenerList(buf, i, [0x12], m.staticListeners, 2, t, 1);
    i := PutString(buf, i, [0x0a], m.versionInfo, 1, t, 0);
    Finished(buf[..], t, i);
    n := end - i;
  }

  method SizeListenersConfigDump(p: Ptr<ListenersConfigDump>) returns (n: nat)
    ensures n == |EncodePtr(EncodeListenersConfigDump, p)|
  {
    hide Reached, Counted, Body, VarintBytes, StringSeg, IntSeg, BoolSeg, ChildSeg, ListSeg, DoubleSeg;
    if p.Nil? { return 0; }
    var m := p.value;
    ghost var t := Task([], 0, ListenersConfigDumpSegs(m), m.unknown);
    OneByteTags();
    n := StartSize(t);
    n := SizeString(n, 1, m.versionInfo, 1, t, 0);
    n := SizeStaticListenerList(n, 1, m.staticListeners, 2, t, 1);
    n := SizeDynamicListenerList(n, 1, m.dynamicListeners, 3, t, 2);
    n := SizeUnknown(n, m.unknown, t);
  }

  function DecodeListenersConfigDump(s: bytes): Option<ListenersConfigDump> {
    var fs :- Parse(s);
    var staticListeners :- DecodeItems(DecodeStaticListener, Items(Payloads(fs, Key(2, 2))));
    var dynamicListeners :- DecodeItems(DecodeDynamicListener, Items(Payloads(fs, Key(3, 2))));
    Some(ListenersConfigDump(
      LastData(Payloads(fs, Key(1, 2))),
      staticListeners,
      dynamicListeners,
      Unrecognised(fs, LISTENERS_CONFIG_DUMP_SCHEMA)))
  }

  function NormalListenersConfigDump(m: ListenersConfigDump): ListenersConfigDump {
    m.(staticListeners := NormalItems(NormalStaticListener, EMPTY_STATIC_LISTENER, m.staticListeners),
       dynamicListeners := NormalItems(NormalDynamicListener, EMPTY_DYNAMIC_LISTENER, m.dynamicListeners))
  }

  predicate WellFormedListenersConfigDump(m: ListenersConfigDump) {
    && WellFormedUnknown(m.unknown, LISTENERS_CONFIG_DUMP_SCHEMA)
    && (forall p :: p in m.staticListeners && p.Ref? ==> WellFormedStaticListener(p.value))
    && (forall p :: p in m.dynamicListeners && p.Ref? ==> WellFormedDynamicListener(p.value))
  }

  lemma ListenersConfigDumpShape(m: ListenersConfigDump)
    ensures Shaped(ListenersConfigDumpSegs(m), LISTENERS_CONFIG_DUMP_SCHEMA) && Ascending(LISTENERS_CONFIG_DUMP_SCHEMA)
  {
    hide ShapedSegment, StringSeg, IntSeg, BoolSeg, ChildSeg, ListSeg, DoubleSeg;
  }

  lemma ListenersConfigDumpRoundTrip(m: ListenersConfigDump)
    requires WellFormedListenersConfigDump(m) && |EncodeListenersConfigDump(m)| < TWO_63
    ensures DecodeListenersConfigDump(EncodeListenersConfigDump(m)) == Some(NormalListenersConfigDump(m))
  {
    hide Parse, Body, Payloads, Unrecognised, ShapedSegment, Items, Merged, LastData, LastInt, U64;
    var segs := ListenersConfigDumpSegs(m);
    ListenersConfigDumpShape(m);
    ReadMessage(segs, LISTENERS_CONFIG_DUMP_SCHEMA, m.unknown);
    var fs := Parse(EncodeListenersConfigDump(m)).value;
    assert Payloads(fs, LISTENERS_CONFIG_DUMP_SCHEMA[0]) == segs[0].payloads;
    StringBack(1, m.versionInfo);
    assert Payloads(fs, LISTENERS_CONFIG_DUMP_SCHEMA[1]) == segs[1].payloads;
    StaticListenerListRoundTrip(segs, 1, m.unknown, 2, m.staticListeners);
    assert Payloads(fs, LISTENERS_CONFIG_DUMP_SCHEMA[2]) == segs[2].payloads;
    DynamicListenerListRoundTrip(segs, 2, m.unknown, 3, m.dynamicListeners);
  }

  /** Which record carries which field, and when it is there at all. */
  lemma ListenersConfigDumpLayout(m: ListenersConfigDump)
    requires WellFormedUnknown(m.unknown, LISTENERS_CONFIG_DUMP_SCHEMA) && |EncodeListenersConfigDump(m)| < TWO_63
    ensures Parse(EncodeListenersConfigDump(m)).Some?
    ensures var fs := Parse(EncodeListenersConfigDump(m)).value;
            && Payloads(fs, Key(1, 2)) == (if |m.versionInfo| > 0 then [Bytes(m.versionInfo)] else [])
            && Items(Payloads(fs, Key(2, 2))) == EncodeItems(EncodeStaticListener, m.staticListeners)
            && Items(Payloads(fs, Key(3, 2))) == EncodeItems(EncodeDynamicListener, m.dynamicListeners)
            && Unrecognised(fs, LISTENERS_CONFIG_DUMP_SCHEMA) == m.unknown
  {
    hide Parse, Body, Payloads, Unrecognised, ShapedSegment, Items, WellFormedUnknown, EncodeDynamicListener,
         EncodeStaticListener;
    var segs := ListenersConfigDumpSegs(m);
    ListenersConfigDumpShape(m);
    ReadMessage(segs, LISTENERS_CONFIG_DUMP_SCHEMA, m.unknown);
    var fs := Parse(EncodeListenersConfigDump(m)).value;
    assert Payloads(fs, LISTENERS_CONFIG_DUMP_SCHEMA[0]) == segs[0].payloads;
    assert Payloads(fs, LISTENERS_CONFIG_DUMP_SCHEMA[1]) == segs[1].payloads;
    ItemsOfList(2, EncodeItems(EncodeStaticListener, m.staticListeners));
    assert Payloads(fs, LISTENERS_CONFIG_DUMP_SCHEMA[2]) == segs[2].payloads;
    ItemsOfList(3, EncodeItems(EncodeDynamicListener, m.dynamicListeners));
  }

  lemma ListenersConfigDumpSameBytes(m: ListenersConfigDump)
    ensures EncodeListenersConfigDump(NormalListenersConfigDump(m)) == EncodeListenersConfigDump(m)
  {
    hide Body;
    forall p | p in m.staticListeners && p.Ref? ensures EncodeStaticListener(NormalStaticListener(p.value))
        == EncodeStaticListener(p.value) {
      StaticListenerSameBytes(p.value);
    }
    StaticListenerEmpty();
    ItemsSameBytes(EncodeStaticListener, NormalStaticListener, EMPTY_STATIC_LISTENER, m.staticListeners);
    forall p | p in m.dynamicListeners && p.Ref? ensures EncodeDynamicListener(NormalDynamicListener(p.value))
        == EncodeDynamicListener(p.value) {
      DynamicListenerSameBytes(p.value);
    }
    DynamicListenerEmpty();
    ItemsSameBytes(EncodeDynamicListener, NormalDynamicListener, EMPTY_DYNAMIC_LISTENER, m.dynamicListeners);
    assert ListenersConfigDumpSegs(NormalListenersConfigDump(m)) == ListenersConfigDumpSegs(m);
  }
}
