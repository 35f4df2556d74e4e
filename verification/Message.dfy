/** What every message type shares: machine integers, children and lists of children behind
    pointers, and the decoder specification's view of the records of one field. */
module Message {
  import opened Wire
  import opened Buffer

  // ---------------------------------------------------------------- machine integers

  type uint32 = x: int | 0 <= x < TWO_32
  type uint64 = x: int | 0 <= x < TWO_64
  /** int32 fields and enums. */
  type int32 = x: int | -0x8000_0000 <= x < 0x8000_0000
  type int64 = x: int | -TWO_63 <= x < TWO_63

  /** The conversion uint64(x): sign extension of a negative number. */
  function U64(x: int): (r: uint64)
    requires -TWO_63 <= x < TWO_64
  {
    if x < 0 then x + TWO_64 else x
  }

  function ToUint32(v: nat): (r: uint32) { v % TWO_32 }

  function ToUint64(v: nat): (r: uint64) { v % TWO_64 }

  function ToInt32(v: nat): (r: int32) {
    if v % TWO_32 < 0x8000_0000 then v % TWO_32 else v % TWO_32 - TWO_32
  }

  function ToInt64(v: nat): (r: int64) {
    if v % TWO_64 < TWO_63 then v % TWO_64 else v % TWO_64 - TWO_64
  }

  // ---------------------------------------------------------------- children

  /** A nil message encodes like an empty one: no bytes. */
  function EncodePtr<M>(enc: M -> bytes, p: Ptr<M>): bytes {
    if p.Nil? then [] else enc(p.value)
  }

  function EncodeChild<M>(enc: M -> bytes, p: Ptr<M>): Ptr<bytes> {
    if p.Nil? then Nil else Ref(enc(p.value))
  }

  function EncodeItems<M>(enc: M -> bytes, items: seq<Ptr<M>>): seq<bytes> {
    seq(|items|, k requires 0 <= k < |items| => EncodePtr(enc, items[k]))
  }

  /** Decoding always yields a message, so a nil list element comes back as an empty message. */
  function NormalItems<M>(norm: M -> M, empty: M, items: seq<Ptr<M>>): seq<Ptr<M>> {
    seq(|items|, k requires 0 <= k < |items| => Ref(if items[k].Nil? then empty else norm(items[k].value)))
  }

  function NormalChild<M>(norm: M -> M, p: Ptr<M>): Ptr<M> {
    if p.Nil? then Nil else Ref(norm(p.value))
  }

  function DecodeItems<M>(dec: bytes -> Option<M>, items: seq<bytes>): Option<seq<Ptr<M>>> {
    if items == [] then Some([])
    else
      var m :- dec(items[0]);
      var rest :- DecodeItems(dec, items[1..]);
      Some([Ref(m)] + rest)
  }

  function DecodeChild<M>(dec: bytes -> Option<M>, child: Ptr<bytes>): Option<Ptr<M>> {
    if child.Nil? then Some(Nil)
    else
      var m :- dec(child.value);
      Some(Ref(m))
  }

  lemma {:induction false} DecodeItemsIs<M>(dec: bytes -> Option<M>, items: seq<bytes>, ms: seq<Ptr<M>>)
    requires |items| == |ms|
    requires forall k :: 0 <= k < |ms| ==> ms[k].Ref? && dec(items[k]) == Some(ms[k].value)
    ensures DecodeItems(dec, items) == Some(ms)
  {
    if items != [] {
      DecodeItemsIs(dec, items[1..], ms[1..]);
      assert [ms[0]] + ms[1..] == ms;
    }
  }

  lemma ItemsRoundTrip<M>(enc: M -> bytes, dec: bytes -> Option<M>, norm: M -> M, empty: M, items: seq<Ptr<M>>)
    requires forall p :: p in items && p.Ref? ==> dec(enc(p.value)) == Some(norm(p.value))
    requires dec([]) == Some(empty)
    ensures DecodeItems(dec, EncodeItems(enc, items)) == Some(NormalItems(norm, empty, items))
  {
    forall k | 0 <= k < |items|
      ensures dec(EncodeItems(enc, items)[k]) == Some(NormalItems(norm, empty, items)[k].value)
    {
      assert items[k] in items;
    }
    DecodeItemsIs(dec, EncodeItems(enc, items), NormalItems(norm, empty, items));
  }

  /** Normal elements have the same bytes, so the normal list has the same bytes. */
  lemma ItemsSameBytes<M>(enc: M -> bytes, norm: M -> M, empty: M, items: seq<Ptr<M>>)
    requires enc(empty) == [] && forall p :: p in items && p.Ref? ==> enc(norm(p.value)) == enc(p.value)
    ensures EncodeItems(enc, NormalItems(norm, empty, items)) == EncodeItems(enc, items)
  {
    forall k | 0 <= k < |items|
      ensures EncodeItems(enc, NormalItems(norm, empty, items))[k] == EncodeItems(enc, items)[k]
    {
      assert items[k] in items;
    }
  }

  /** A message with no field set and no unknown bytes has no bytes. */
  lemma {:induction false} EmptyBody(segs: seq<Segment>, j: nat)
    requires forall i :: 0 <= i < |segs| ==> segs[i].payloads == []
    ensures Body(segs, j, []) == []
    decreases |segs| - j
  {
    if j < |segs| { EmptyBody(segs, j + 1); }
  }

  // ---------------------------------------------------------------- records of one field

  function DataOf(p: Payload): bytes { if p.Bytes? then p.data else [] }

  /** Repeated field: every occurrence. */
  function Items(ps: seq<Payload>): seq<bytes> {
    seq(|ps|, k requires 0 <= k < |ps| => DataOf(ps[k]))
  }

  function Joined(ps: seq<Payload>): bytes {
    if ps == [] then [] else DataOf(ps[0]) + Joined(ps[1..])
  }

  /** Singular message field: occurrences merge, which is decoding their concatenation. */
  function Merged(ps: seq<Payload>): Ptr<bytes> {
    if ps == [] then Nil else Ref(Joined(ps))
  }

  /** Singular scalar field: the last occurrence wins, and the default is used when there is none. */
  function LastData(ps: seq<Payload>): bytes {
    if ps == [] then [] else DataOf(ps[|ps| - 1])
  }

  function LastInt(ps: seq<Payload>): nat {
    if ps != [] && ps[|ps| - 1].Varint? then ps[|ps| - 1].v else 0
  }

  function LastBits(ps: seq<Payload>): nat {
    if ps != [] && ps[|ps| - 1].Fixed64? then ps[|ps| - 1].bits else 0
  }

  lemma StringBack(num: nat, s: bytes)
    ensures LastData(StringSeg(num, s).payloads) == s
  {
  }

  lemma IntBack(num: nat, x: int)
    requires -TWO_63 <= x < TWO_64
    ensures var v := LastInt(IntSeg(num, U64(x)).payloads);
            && (0 <= x < TWO_32 ==> ToUint32(v) == x)
            && (0 <= x ==> ToUint64(v) == x)
            && (-0x8000_0000 <= x < 0x8000_0000 ==> ToInt32(v) == x)
            && (x < TWO_63 ==> ToInt64(v) == x)
  {
  }

  lemma BoolBack(num: nat, b: bool)
    ensures LastInt(BoolSeg(num, b).payloads) != 0 <==> b
  {
  }

  /** A double that compares equal to zero comes back as positive zero. */
  function NormalDouble(bits: uint64): (r: uint64) { if IsZeroDouble(bits) then 0 else bits }

  lemma DoubleBack(num: nat, bits: uint64)
    ensures ToUint64(LastBits(DoubleSeg(num, bits).payloads)) == NormalDouble(bits)
  {
  }

  lemma ItemsOfList(num: nat, items: seq<bytes>)
    ensures Items(ListSeg(num, items).payloads) == items
  {
  }

  lemma MergedChild(num: nat, child: Ptr<bytes>)
    ensures Merged(ChildSeg(num, child).payloads) == child
  {
    if child.Ref? {
      var ps := [Bytes(child.value)];
      assert ps[1..] == [];
      assert Joined(ps) == child.value + [] == child.value;
    }
  }

  // ---------------------------------------------------------------- conformance

  /** Like Conforms, without the bound on the length of byte strings. */
  predicate Shaped(segs: seq<Segment>, schema: seq<Key>) {
    |segs| == |schema| && forall j :: 0 <= j < |segs| ==> segs[j].key == schema[j] && ShapedSegment(segs[j])
  }

  lemma {:induction false} PayloadFitsSegment(k: Key, ps: seq<Payload>, i: nat)
    requires i < |ps| && ps[i].Bytes?
    ensures |ps[i].data| <= |SegmentBytes(k, ps)|
  {
    if i > 0 { PayloadFitsSegment(k, ps[1..], i - 1); }
  }

  /** Every length-delimited payload is no longer than the message that holds it. */
  lemma PayloadFits(segs: seq<Segment>, j: nat, u: bytes, i: nat)
    requires j < |segs| && i < |segs[j].payloads| && segs[j].payloads[i].Bytes?
    ensures |segs[j].payloads[i].data| <= |Body(segs, 0, u)|
  {
    PayloadFitsSegment(segs[j].key, segs[j].payloads, i);
    BodyStep(segs, j, u);
  }

  lemma ItemFits(segs: seq<Segment>, j: nat, u: bytes, num: nat, items: seq<bytes>, i: nat)
    requires j < |segs| && segs[j] == ListSeg(num, items) && i < |items|
    ensures |items[i]| <= |Body(segs, 0, u)|
  {
    PayloadFits(segs, j, u, i);
  }

  lemma ChildFits(segs: seq<Segment>, j: nat, u: bytes, num: nat, child: Ptr<bytes>)
    requires j < |segs| && segs[j] == ChildSeg(num, child) && child.Ref?
    ensures |child.value| <= |Body(segs, 0, u)|
  {
    PayloadFits(segs, j, u, 0);
  }

  lemma ShapedConforms(segs: seq<Segment>, schema: seq<Key>, u: bytes)
    requires Shaped(segs, schema) && |Body(segs, 0, u)| < TWO_63
    ensures Conforms(segs, schema)
  {
    forall j | 0 <= j < |segs| ensures segs[j].key == schema[j] && ValidSegment(segs[j]) {
      forall p | p in segs[j].payloads ensures ValidPayload(p) && WireOf(p) == segs[j].key.wire {
        var i :| 0 <= i < |segs[j].payloads| && segs[j].payloads[i] == p;
        if p.Bytes? { PayloadFits(segs, j, u, i); }
      }
    }
  }

  /** The records hold the payloads of every segment. */
  predicate Finds(fs: seq<Field>, segs: seq<Segment>, schema: seq<Key>) {
    |segs| == |schema| && forall j :: 0 <= j < |segs| ==> Payloads(fs, schema[j]) == segs[j].payloads
  }

  /** Reading a message of bounded size recovers its segments and its unrecognised bytes. */
  lemma ReadMessage(segs: seq<Segment>, schema: seq<Key>, u: bytes)
    requires Shaped(segs, schema) && Ascending(schema) && WellFormedUnknown(u, schema)
    requires |Body(segs, 0, u)| < TWO_63
    ensures Parse(Body(segs, 0, u)).Some?
    ensures var fs := Parse(Body(segs, 0, u)).value;
            && (forall j :: 0 <= j < |segs| ==> Payloads(fs, schema[j]) == segs[j].payloads)
            && Unrecognised(fs, schema) == u
  {
    ShapedConforms(segs, schema, u);
    ReadBody(segs, schema, u);
  }

  /** The bytes of a singular message field, and the room they take. */
  lemma ChildBytes(num: nat, child: Ptr<bytes>)
    ensures child.Nil? ==> SegBytes(ChildSeg(num, child)) == []
    ensures child.Ref? ==> SegBytes(ChildSeg(num, child)) == RecordBytes(Key(num, 2), Bytes(child.value))
    ensures child.Ref? ==>
        |SegBytes(ChildSeg(num, child))| == |VarintBytes(num * 8 + 2)| + |VarintBytes(|child.value|)| + |child.value|
  {
    if child.Ref? { SingleBytes(Key(num, 2), Bytes(child.value)); }
  }
}
