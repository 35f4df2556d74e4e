/** UnreadyTargetsDumps of envoy/admin/v3. */
module InitDump {
  import opened Wire
  import opened Buffer
  import opened Message

  // ---------------------------------------------------------------- UnreadyTargetsDump

  datatype UnreadyTargetsDump = UnreadyTargetsDump(name: bytes, targetNames: seq<bytes>, unknown: bytes)

  const UNREADY_TARGETS_DUMP_SCHEMA: seq<Key> := [Key(1, 2), Key(2, 2)]

  function UnreadyTargetsDumpSegs(m: UnreadyTargetsDump): seq<Segment> {
    [ StringSeg(1, m.name),
      ListSeg(2, m.targetNames) ]
  }

  function EncodeUnreadyTargetsDump(m: UnreadyTargetsDump): bytes {
    Body(UnreadyTargetsDumpSegs(m), 0, m.unknown)
  }

  method MarshalUnreadyTargetsDump(p: Ptr<UnreadyTargetsDump>, buf: array<byte>, end: nat) returns (n: nat)
    requires |EncodePtr(EncodeUnreadyTargetsDump, p)| <= end <= buf.Length
    modifies buf
    ensures n == |EncodePtr(EncodeUnreadyTargetsDump, p)|
    ensures Filled(buf[..], old(buf[..]), end - n, EncodePtr(EncodeUnreadyTargetsDump, p))
  {
    hide Reached, Counted, Body, VarintBytes, StringSeg, IntSeg, BoolSeg, ChildSeg, ListSeg, DoubleSeg;
    if p.Nil? {
      FillNothing(buf[..], end);
      return 0;
    }
    var m := p.value;
    ghost var t := Task(buf[..], end, UnreadyTargetsDumpSegs(m), m.unknown);
    OneByteTags();
    var i := PutUnknown(buf, m.unknown, end, t);
    i := PutStrings(buf, i, [0x12], m.targetNames, 2, t, 1);
    i := PutString(buf, i, [0x0a], m.name, 1, t, 0);
    Finished(buf[..], t, i);
    n := end - i;
  }

  method SizeUnreadyTargetsDump(p: Ptr<UnreadyTargetsDump>) returns (n: nat)
    ensures n == |EncodePtr(EncodeUnreadyTargetsDump, p)|
  {
    hide Reached, Counted, Body, VarintBytes, StringSeg, IntSeg, BoolSeg, ChildSeg, ListSeg, DoubleSeg;
    if p.Nil? { return 0; }
    var m := p.value;
    ghost var t := Task([], 0, UnreadyTargetsDumpSegs(m), m.unknown);
    OneByteTags();
    n := StartSize(t);
    n := SizeString(n, 1, m.name, 1, t, 0);
    n := SizeStrings(n, 1, m.targetNames, 2, t, 1);
    n := SizeUnknown(n, m.unknown, t);
  }

  /** Each element in turn, the last one first. */
  method PutUnreadyTargetsDumpList(buf: array<byte>, i: nat, tag: bytes, items: seq<Ptr<UnreadyTargetsDump>>,
      ghost num: nat, ghost t: Task, ghost j: nat)
    returns (at: nat)
    requires Reached(buf[..], t, i, j + 1) && j < |t.segs|
    requires tag == VarintBytes(num * 8 + 2) && t.segs[j] == ListSeg(num, EncodeItems(EncodeUnreadyTargetsDump, items))
    modifies buf
    ensures Reached(buf[..], t, at, j)
  {
    hide Splice, Filled, SegBytes, RecordBytes, VarintBytes, ListSeg, ListBytes, EncodeUnreadyTargetsDump;
    BodyStep(t.segs, j, t.unknown);
    ghost var all, done := EncodeItems(EncodeUnreadyTargetsDump, items), Body(t.segs, j + 1, t.unknown);
    at := i;
    NothingFirst(done);
    ListBytesAll(num, all);
    for k := |items| downto 0
      invariant at == i - |ListBytes(num, all, k)|
      invariant Filled(buf[..], t.orig, at, ListBytes(num, all, k) + done)
    {
      ListStep(num, all, k, done);
      ghost var start, later := buf[..], ListBytes(num, all, k + 1) + done;
      FilledBounds(start, t.orig, at, later);
      var size := MarshalUnreadyTargetsDump(items[k], buf, at);
      Fill(start, t.orig, at, later, all[k], buf[..]);
      at := PutLength(buf, at - size, tag, size, num, all[k], t.orig, later);
    }
  }

  method SizeUnreadyTargetsDumpList(n: nat, tagSize: nat, items: seq<Ptr<UnreadyTargetsDump>>, ghost num: nat,
      ghost t: Task, ghost j: nat) returns (sum: nat)
    requires j < |t.segs| && tagSize == |VarintBytes(num * 8 + 2)|
        && t.segs[j] == ListSeg(num, EncodeItems(EncodeUnreadyTargetsDump, items))
    ensures Counted(t, n, j) ==> Counted(t, sum, j + 1)
  {
    hide SegBytes, RecordBytes, VarintBytes, ListSeg, ListBytes, EncodeUnreadyTargetsDump;
    BodyStep(t.segs, j, t.unknown);
    ghost var all := EncodeItems(EncodeUnreadyTargetsDump, items);
    ListBytesAll(num, all);
    sum := n;
    for k := 0 to |items|
      invariant sum + |ListBytes(num, all, k)| == n + |SegBytes(ListSeg(num, all))|
    {
      ListStep(num, all, k, []);
      var l := SizeUnreadyTargetsDump(items[k]);
      l := SizeBytes(tagSize, l, num, all[k]);
      sum := sum + l;
    }
  }

  function DecodeUnreadyTargetsDump(s: bytes): Option<UnreadyTargetsDump> {
    var fs :- Parse(s);
    Some(UnreadyTargetsDump(
      LastData(Payloads(fs, Key(1, 2))),
      Items(Payloads(fs, Key(2, 2))),
      Unrecognised(fs, UNREADY_TARGETS_DUMP_SCHEMA)))
  }

  const EMPTY_UNREADY_TARGETS_DUMP: UnreadyTargetsDump := UnreadyTargetsDump([], [], [])

  function NormalUnreadyTargetsDump(m: UnreadyTargetsDump): UnreadyTargetsDump {
    m
  }

  predicate WellFormedUnreadyTargetsDump(m: UnreadyTargetsDump) {
    && WellFormedUnknown(m.unknown, UNREADY_TARGETS_DUMP_SCHEMA)
  }

  lemma UnreadyTargetsDumpShape(m: UnreadyTargetsDump)
    ensures Shaped(UnreadyTargetsDumpSegs(m), UNREADY_TARGETS_DUMP_SCHEMA) && Ascending(UNREADY_TARGETS_DUMP_SCHEMA)
  {
    hide ShapedSegment, StringSeg, IntSeg, BoolSeg, ChildSeg, ListSeg, DoubleSeg;
  }

  lemma UnreadyTargetsDumpRoundTrip(m: UnreadyTargetsDump)
    requires WellFormedUnreadyTargetsDump(m) && |EncodeUnreadyTargetsDump(m)| < TWO_63
    ensures DecodeUnreadyTargetsDump(EncodeUnreadyTargetsDump(m)) == Some(NormalUnreadyTargetsDump(m))
  {
    hide Parse, Body, Payloads, Unrecognised, ShapedSegment, Items, Merged, LastData, LastInt, U64;
    var segs := UnreadyTargetsDumpSegs(m);
    UnreadyTargetsDumpShape(m);
    ReadMessage(segs, UNREADY_TARGETS_DUMP_SCHEMA, m.unknown);
    var fs := Parse(EncodeUnreadyTargetsDump(m)).value;
    assert Payloads(fs, UNREADY_TARGETS_DUMP_SCHEMA[0]) == segs[0].payloads;
    StringBack(1, m.name);
    assert Payloads(fs, UNREADY_TARGETS_DUMP_SCHEMA[1]) == segs[1].payloads;
    ItemsOfList(2, m.targetNames);
  }

  /** Which record carries which field, and when it is there at all. */
  lemma UnreadyTargetsDumpLayout(m: UnreadyTargetsDump)
    requires WellFormedUnknown(m.unknown, UNREADY_TARGETS_DUMP_SCHEMA) && |EncodeUnreadyTargetsDump(m)| < TWO_63
    ensures Parse(EncodeUnreadyTargetsDump(m)).Some?
    ensures var fs := Parse(EncodeUnreadyTargetsDump(m)).value;
            && Payloads(fs, Key(1, 2)) == (if |m.name| > 0 then [Bytes(m.name)] else [])
            && Items(Payloads(fs, Key(2, 2))) == m.targetNames
            && Unrecognised(fs, UNREADY_TARGETS_DUMP_SCHEMA) == m.unknown
  {
    hide Parse, Body, Payloads, Unrecognised, ShapedSegment, Items, WellFormedUnknown;
    var segs := UnreadyTargetsDumpSegs(m);
    UnreadyTargetsDumpShape(m);
    ReadMessage(segs, UNREADY_TARGETS_DUMP_SCHEMA, m.unknown);
    var fs := Parse(EncodeUnreadyTargetsDump(m)).value;
    assert Payloads(fs, UNREADY_TARGETS_DUMP_SCHEMA[0]) == segs[0].payloads;
    assert Payloads(fs, UNREADY_TARGETS_DUMP_SCHEMA[1]) == segs[1].payloads;
    ItemsOfList(2, m.targetNames);
  }

  lemma UnreadyTargetsDumpEmpty()
    ensures EncodeUnreadyTargetsDump(EMPTY_UNREADY_TARGETS_DUMP) == []
        && DecodeUnreadyTargetsDump([]) == Some(EMPTY_UNREADY_TARGETS_DUMP)
  {
    assert Items([]) == [];
    EmptyBody(UnreadyTargetsDumpSegs(EMPTY_UNREADY_TARGETS_DUMP), 0);
  }

  lemma UnreadyTargetsDumpListRoundTrip(segs: seq<Segment>, j: nat, u: bytes, num: nat,
      items: seq<Ptr<UnreadyTargetsDump>>)
    requires j < |segs| && segs[j] == ListSeg(num, EncodeItems(EncodeUnreadyTargetsDump, items))
        && |Body(segs, 0, u)| < TWO_63
    requires forall p :: p in items && p.Ref? ==> WellFormedUnreadyTargetsDump(p.value)
    ensures DecodeItems(DecodeUnreadyTargetsDump, Items(segs[j].payloads))
        == Some(NormalItems(NormalUnreadyTargetsDump, EMPTY_UNREADY_TARGETS_DUMP, items))
  {
    hide Body, Items, ListSeg, EncodeUnreadyTargetsDump, DecodeUnreadyTargetsDump, NormalUnreadyTargetsDump,
         WellFormedUnreadyTargetsDump;
    forall p | p in items && p.Ref? ensures DecodeUnreadyTargetsDump(EncodeUnreadyTargetsDump(p.value))
        == Some(NormalUnreadyTargetsDump(p.value)) {
      var k :| 0 <= k < |items| && items[k] == p;
      ItemFits(segs, j, u, num, EncodeItems(EncodeUnreadyTargetsDump, items), k);
      UnreadyTargetsDumpRoundTrip(p.value);
    }
    UnreadyTargetsDumpEmpty();
    ItemsOfList(num, EncodeItems(EncodeUnreadyTargetsDump, items));
    ItemsRoundTrip(EncodeUnreadyTargetsDump, DecodeUnreadyTargetsDump, NormalUnreadyTargetsDump,
        EMPTY_UNREADY_TARGETS_DUMP, items);
  }

  // ---------------------------------------------------------------- UnreadyTargetsDumps

  datatype UnreadyTargetsDumps = UnreadyTargetsDumps(dumps: seq<Ptr<UnreadyTargetsDump>>, unknown: bytes)

  const UNREADY_TARGETS_DUMPS_SCHEMA: seq<Key> := [Key(1, 2)]

  function UnreadyTargetsDumpsSegs(m: UnreadyTargetsDumps): seq<Segment> {
    [ListSeg(1, EncodeItems(EncodeUnreadyTargetsDump, m.dumps))]
  }

  function EncodeUnreadyTargetsDumps(m: UnreadyTargetsDumps): bytes {
    Body(UnreadyTargetsDumpsSegs(m), 0, m.unknown)
  }

  method MarshalUnreadyTargetsDumps(p: Ptr<UnreadyTargetsDumps>, buf: array<byte>, end: nat) returns (n: nat)
    requires |EncodePtr(EncodeUnreadyTargetsDumps, p)| <= end <= buf.Length
    modifies buf
    ensures n == |EncodePtr(EncodeUnreadyTargetsDumps, p)|
    ensures Filled(buf[..], old(buf[..]), end - n, EncodePtr(EncodeUnreadyTargetsDumps, p))
  {
    hide Reached, Counted, Body, VarintBytes, StringSeg, IntSeg, BoolSeg, ChildSeg, ListSeg, DoubleSeg;
    if p.Nil? {
      FillNothing(buf[..], end);
      return 0;
    }
    var m := p.value;
    ghost var t := Task(buf[..], end, UnreadyTargetsDumpsSegs(m), m.unknown);
    OneByteTags();
    var i := PutUnknown(buf, m.unknown, end, t);
    i := PutUnreadyTargetsDumpList(buf, i, [0x0a], m.dumps, 1, t, 0);
    Finished(buf[..], t, i);
    n := end - i;
  }

  method SizeUnreadyTargetsDumps(p: Ptr<UnreadyTargetsDumps>) returns (n: nat)
    ensures n == |EncodePtr(EncodeUnreadyTargetsDumps, p)|
  {
    hide Reached, Counted, Body, VarintBytes, StringSeg, IntSeg, BoolSeg, ChildSeg, ListSeg, DoubleSeg;
    if p.Nil? { return 0; }
    var m := p.value;
    ghost var t := Task([], 0, UnreadyTargetsDumpsSegs(m), m.unknown);
    OneByteTags();
    n := StartSize(t);
    n := SizeUnreadyTargetsDumpList(n, 1, m.dumps, 1, t, 0);
    n := SizeUnknown(n, m.unknown, t);
  }

  function DecodeUnreadyTargetsDumps(s: bytes): Option<UnreadyTargetsDumps> {
    var fs :- Parse(s);
    var dumps :- DecodeItems(DecodeUnreadyTargetsDump, Items(Payloads(fs, Key(1, 2))));
    Some(UnreadyTargetsDumps(
      dumps,
      Unrecognised(fs, UNREADY_TARGETS_DUMPS_SCHEMA)))
  }

  function NormalUnreadyTargetsDumps(m: UnreadyTargetsDumps): UnreadyTargetsDumps {
    m.(dumps := NormalItems(NormalUnreadyTargetsDump, EMPTY_UNREADY_TARGETS_DUMP, m.dumps))
  }

  predicate WellFormedUnreadyTargetsDumps(m: UnreadyTargetsDumps) {
    && WellFormedUnknown(m.unknown, UNREADY_TARGETS_DUMPS_SCHEMA)
    && (forall p :: p in m.dumps && p.Ref? ==> WellFormedUnreadyTargetsDump(p.value))
  }

  lemma UnreadyTargetsDumpsShape(m: UnreadyTargetsDumps)
    ensures Shaped(UnreadyTargetsDumpsSegs(m), UNREADY_TARGETS_DUMPS_SCHEMA) && Ascending(UNREADY_TARGETS_DUMPS_SCHEMA)
  {
    hide ShapedSegment, StringSeg, IntSeg, BoolSeg, ChildSeg, ListSeg, DoubleSeg;
  }

  lemma UnreadyTargetsDumpsRoundTrip(m: UnreadyTargetsDumps)
    requires WellFormedUnreadyTargetsDumps(m) && |EncodeUnreadyTargetsDumps(m)| < TWO_63
    ensures DecodeUnreadyTargetsDumps(EncodeUnreadyTargetsDumps(m)) == Some(NormalUnreadyTargetsDumps(m))
  {
    hide Parse, Body, Payloads, Unrecognised, ShapedSegment, Items, Merged, LastData, LastInt, U64;
    var segs := UnreadyTargetsDumpsSegs(m);
    UnreadyTargetsDumpsShape(m);
    ReadMessage(segs, UNREADY_TARGETS_DUMPS_SCHEMA, m.unknown);
    var fs := Parse(EncodeUnreadyTargetsDumps(m)).value;
    assert Payloads(fs, UNREADY_TARGETS_DUMPS_SCHEMA[0]) == segs[0].payloads;
    UnreadyTargetsDumpListRoundTrip(segs, 0, m.unknown, 1, m.dumps);
  }

  /** Which record carries which field, and when it is there at all. */
  lemma UnreadyTargetsDumpsLayout(m: UnreadyTargetsDumps)
    requires WellFormedUnknown(m.unknown, UNREADY_TARGETS_DUMPS_SCHEMA) && |EncodeUnreadyTargetsDumps(m)| < TWO_63
    ensures Parse(EncodeUnreadyTargetsDumps(m)).Some?
    ensures var fs := Parse(EncodeUnreadyTargetsDumps(m)).value;
            && Items(Payloads(fs, Key(1, 2))) == EncodeItems(EncodeUnreadyTargetsDump, m.dumps)
            && Unrecognised(fs, UNREADY_TARGETS_DUMPS_SCHEMA) == m.unknown
  {
    hide Parse, Body, Payloads, Unrecognised, ShapedSegment, Items, WellFormedUnknown, EncodeUnreadyTargetsDump;
    var segs := UnreadyTargetsDumpsSegs(m);
    UnreadyTargetsDumpsShape(m);
    ReadMessage(segs, UNREADY_TARGETS_DUMPS_SCHEMA, m.unknown);
    var fs := Parse(EncodeUnreadyTargetsDumps(m)).value;
    assert Payloads(fs, UNREADY_TARGETS_DUMPS_SCHEMA[0]) == segs[0].payloads;
    ItemsOfList(1, EncodeItems(EncodeUnreadyTargetsDump, m.dumps));
  }
}
