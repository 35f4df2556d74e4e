/** The Protocol Buffers wire format: base 128 varints, little-endian fixed-width integers,
    length-delimited records, and messages as sequences of records.

    The writing half describes the bytes that the encoders of the repository must produce.
    The reading half is a decoder specification taken from the Protocol Buffers "Encoding"
    document; the repository itself has no decoder in these files. */
module Wire {
  type byte = x: int | 0 <= x < 256
  type bytes = seq<byte>

  const TWO_32: int := 0x1_0000_0000
  const TWO_63: int := 0x8000_0000_0000_0000
  const TWO_64: int := 0x1_0000_0000_0000_0000
  const MAX_FIELD: int := 0x2000_0000

  datatype Option<+T> = None | Some(value: T) {
    predicate IsFailure() { None? }
    function PropagateFailure<U>(): Option<U> requires None? { None }
    function Extract(): T requires Some? { value }
  }

  /** A Go pointer to a message: nil, or the message it points to. */
  datatype Ptr<+T> = Nil | Ref(value: T)

  // ---------------------------------------------------------------- powers

  function Pow(b: nat, k: nat): (r: nat)
    ensures b > 0 ==> r > 0
  {
    if k == 0 then 1 else b * Pow(b, k - 1)
  }

  lemma PowConstants()
    ensures Pow(128, 9) == 0x8000_0000_0000_0000
    ensures Pow(128, 10) == 0x40_0000_0000_0000_0000
    ensures Pow(256, 4) == TWO_32
    ensures Pow(256, 8) == TWO_64
  {
    assert Pow(128, 5) == 0x8_0000_0000;
    assert Pow(128, 9) == 128 * 128 * 128 * 128 * Pow(128, 5);
    assert Pow(256, 4) == TWO_32;
    assert Pow(256, 8) == 256 * 256 * 256 * 256 * Pow(256, 4);
  }

  // ---------------------------------------------------------------- base 128 varints

  /** The shortest base 128 encoding of v, least significant group first. */
  function VarintBytes(v: nat): (r: bytes)
    ensures |r| >= 1
  {
    if v < 128 then [v] else [128 + v % 128] + VarintBytes(v / 128)
  }

  /** Reads at most k groups; the result is the value and the number of bytes it took. */
  function ReadGroups(s: bytes, k: nat): (r: Option<(nat, nat)>)
    ensures r.Some? ==> 1 <= r.value.1 <= |s| && r.value.1 <= k
  {
    if k == 0 || s == [] then None
    else if s[0] < 128 then Some((s[0], 1))
    else
      var (v, n) :- ReadGroups(s[1..], k - 1);
      Some((s[0] - 128 + 128 * v, n + 1))
  }

  /** A varint has at most ten bytes and its value fits 64 bits. */
  function ReadVarint(s: bytes): (r: Option<(nat, nat)>)
    ensures r.Some? ==> 1 <= r.value.1 <= |s| && r.value.1 <= 10 && r.value.0 < TWO_64
  {
    var (v, n) :- ReadGroups(s, 10);
    if v < TWO_64 then Some((v, n)) else None
  }

  /** A varint of k bytes holds exactly the values from 128^(k-1) up to 128^k. */
  lemma {:induction false} VarintLength(v: nat, k: nat)
    requires k >= 1
    ensures |VarintBytes(v)| <= k <==> v < Pow(128, k)
  {
    if v < 128 {
      assert Pow(128, k) == 128 * Pow(128, k - 1);
    } else if k > 1 {
      VarintLength(v / 128, k - 1);
      assert Pow(128, k) == 128 * Pow(128, k - 1);
    } else {
      assert Pow(128, 1) == 128 * Pow(128, 0);
    }
  }

  lemma {:induction false} ReadGroupsAfterWrite(v: nat, t: bytes, k: nat)
    requires |VarintBytes(v)| <= k
    ensures ReadGroups(VarintBytes(v) + t, k) == Some((v, |VarintBytes(v)|))
  {
    var s := VarintBytes(v) + t;
    if v >= 128 {
      assert s[1..] == VarintBytes(v / 128) + t;
      ReadGroupsAfterWrite(v / 128, t, k - 1);
    }
  }

  /** Decode after encode, whatever follows. */
  lemma ReadVarintAfterWrite(v: nat, t: bytes)
    requires v < TWO_64
    ensures ReadVarint(VarintBytes(v) + t) == Some((v, |VarintBytes(v)|))
  {
    PowConstants();
    VarintLength(v, 10);
    ReadGroupsAfterWrite(v, t, 10);
  }

  /** No byte string that reads as v is shorter than the one the encoder writes. */
  lemma {:induction false} VarintIsMinimal(s: bytes, k: nat)
    requires ReadGroups(s, k).Some?
    ensures |VarintBytes(ReadGroups(s, k).value.0)| <= ReadGroups(s, k).value.1
  {
    if s[0] >= 128 {
      var v := ReadGroups(s, k).value.0;
      VarintIsMinimal(s[1..], k - 1);
      assert v / 128 == ReadGroups(s[1..], k - 1).value.0;
    }
  }

  /** v without its lowest i groups of seven bits. */
  function AboveGroups(v: nat, i: nat): nat { if i == 0 then v else AboveGroups(v / 128, i - 1) }

  /** Each byte is a group of seven bits, the least significant first, with the top bit set on all but the
      last. */
  lemma {:induction false} VarintGroups(v: nat, i: nat)
    requires i < |VarintBytes(v)|
    ensures VarintBytes(v)[i] == AboveGroups(v, i) % 128 + (if i < |VarintBytes(v)| - 1 then 128 else 0)
  {
    if i > 0 { VarintGroups(v / 128, i - 1); }
  }

  lemma {:induction false} ReadGroupsPrefix(s: bytes, t: bytes, k: nat)
    requires ReadGroups(s, k).Some?
    ensures ReadGroups(s + t, k) == ReadGroups(s, k)
  {
    if s[0] >= 128 {
      assert (s + t)[1..] == s[1..] + t;
      ReadGroupsPrefix(s[1..], t, k - 1);
    }
  }

  // ---------------------------------------------------------------- little-endian integers

  function LittleEndian(n: nat, v: nat): (r: bytes)
    ensures |r| == n
  {
    if n == 0 then [] else [v % 256] + LittleEndian(n - 1, v / 256)
  }

  function FromLittleEndian(s: bytes): nat {
    if s == [] then 0 else s[0] + 256 * FromLittleEndian(s[1..])
  }

  /** v without its lowest i bytes. */
  function AboveBytes(v: nat, i: nat): nat { if i == 0 then v else AboveBytes(v / 256, i - 1) }

  /** The least significant byte comes first. */
  lemma {:induction false} LittleEndianDigits(n: nat, v: nat, i: nat)
    requires i < n
    ensures |LittleEndian(n, v)| == n && LittleEndian(n, v)[i] == AboveBytes(v, i) % 256
  {
    if i > 0 { LittleEndianDigits(n - 1, v / 256, i - 1); }
  }

  lemma {:induction false} LittleEndianRoundTrip(n: nat, v: nat)
    requires v < Pow(256, n)
    ensures FromLittleEndian(LittleEndian(n, v)) == v
  {
    if n > 0 {
      assert Pow(256, n) == 256 * Pow(256, n - 1);
      LittleEndianRoundTrip(n - 1, v / 256);
      assert LittleEndian(n, v)[1..] == LittleEndian(n - 1, v / 256);
    }
  }

  // ---------------------------------------------------------------- records

  /** A field number with a wire type: 0 varint, 1 fixed 64-bit, 2 length-delimited, 5 fixed 32-bit. */
  datatype Key = Key(num: nat, wire: nat)

  datatype Payload =
    | Varint(v: nat)
    | Fixed64(bits: nat)
    | Bytes(data: bytes)
    | Fixed32(word: nat)

  function WireOf(p: Payload): nat {
    match p
    case Varint(_) => 0
    case Fixed64(_) => 1
    case Bytes(_) => 2
    case Fixed32(_) => 5
  }

  predicate ValidPayload(p: Payload) {
    match p
    case Varint(v) => v < TWO_64
    case Fixed64(b) => b < TWO_64
    case Bytes(d) => |d| < TWO_64
    case Fixed32(w) => w < TWO_32
  }

  function TagValue(k: Key): nat { k.num * 8 + k.wire }

  function PayloadBytes(p: Payload): bytes {
    match p
    case Varint(v) => VarintBytes(v)
    case Fixed64(b) => LittleEndian(8, b)
    case Bytes(d) => VarintBytes(|d|) + d
    case Fixed32(w) => LittleEndian(4, w)
  }

  function RecordBytes(k: Key, p: Payload): bytes {
    VarintBytes(TagValue(k)) + PayloadBytes(p)
  }

  /** One record as read: what it says and the exact bytes it occupied. */
  datatype Field = Field(key: Key, payload: Payload, raw: bytes)

  function ReadPayload(wire: nat, s: bytes): (r: Option<(Payload, nat)>)
    ensures r.Some? ==> r.value.1 <= |s| && WireOf(r.value.0) == wire
  {
    if wire == 0 then
      var (v, n) :- ReadVarint(s);
      Some((Varint(v), n))
    else if wire == 1 then
      if |s| < 8 then None else Some((Fixed64(FromLittleEndian(s[..8])), 8))
    else if wire == 2 then
      var (l, n) :- ReadVarint(s);
      if |s| - n < l then None else Some((Bytes(s[n..n + l]), n + l))
    else if wire == 5 then
      if |s| < 4 then None else Some((Fixed32(FromLittleEndian(s[..4])), 4))
    else None
  }

  function ReadField(s: bytes): (r: Option<(Field, nat)>)
    ensures r.Some? ==> 1 <= r.value.1 <= |s| && r.value.0.raw == s[..r.value.1]
    ensures r.Some? ==> r.value.0.key.wire == WireOf(r.value.0.payload)
  {
    var (tag, n) :- ReadVarint(s);
    var key := Key(tag / 8, tag % 8);
    if key.num == 0 || key.num >= MAX_FIELD then None
    else
      var (p, l) :- ReadPayload(key.wire, s[n..]);
      Some((Field(key, p, s[..n + l]), n + l))
  }

  /** A message body is a sequence of records; None when the bytes are malformed. */
  function Parse(s: bytes): (r: Option<seq<Field>>)
    decreases |s|
  {
    if s == [] then Some([])
    else
      var (f, n) :- ReadField(s);
      var rest :- Parse(s[n..]);
      Some([f] + rest)
  }

  lemma ReadPayloadPrefix(wire: nat, s: bytes, t: bytes)
    requires ReadPayload(wire, s).Some?
    ensures ReadPayload(wire, s + t) == ReadPayload(wire, s)
  {
    if wire == 0 || wire == 2 {
      ReadGroupsPrefix(s, t, 10);
      if wire == 2 {
        var (l, n) := ReadVarint(s).value;
        assert (s + t)[n..n + l] == s[n..n + l];
      }
    } else if wire == 1 {
      assert (s + t)[..8] == s[..8];
    } else {
      assert (s + t)[..4] == s[..4];
    }
  }

  lemma ReadFieldPrefix(s: bytes, t: bytes)
    requires ReadField(s).Some?
    ensures ReadField(s + t) == ReadField(s)
  {
    hide ReadPayload, ReadGroups;
    ReadGroupsPrefix(s, t, 10);
    var (tag, n) := ReadVarint(s).value;
    var (p, l) := ReadPayload(tag % 8, s[n..]).value;
    assert (s + t)[n..] == s[n..] + t;
    ReadPayloadPrefix(tag % 8, s[n..], t);
    assert (s + t)[..n + l] == s[..n + l];
  }

  lemma ParseCons(s: bytes)
    requires ReadField(s).Some?
    ensures var (f, n) := ReadField(s).value;
            Parse(s) == if Parse(s[n..]).Some? then Some([f] + Parse(s[n..]).value) else None
  {
    hide ReadField;
  }

  lemma ParseConcatCons(a: bytes, b: bytes, f: Field, n: nat, x: seq<Field>, y: seq<Field>)
    requires ReadField(a) == Some((f, n))
    requires Parse(a[n..] + b) == Some(x + y)
    ensures Parse(a + b) == Some(([f] + x) + y)
  {
    hide Parse, ReadField;
    ReadFieldPrefix(a, b);
    ParseCons(a + b);
    assert (a + b)[n..] == a[n..] + b;
    assert [f] + (x + y) == ([f] + x) + y;
  }

  /** Concatenating messages concatenates their records. */
  lemma {:induction false} ParseConcat(a: bytes, b: bytes)
    requires Parse(a).Some? && Parse(b).Some?
    ensures Parse(a + b) == Some(Parse(a).value + Parse(b).value)
    decreases |a|
  {
    hide ReadField;
    if a == [] {
      assert a + b == b;
      assert [] + Parse(b).value == Parse(b).value;
    } else {
      var (f, n) := ReadField(a).value;
      ParseConcat(a[n..], b);
      ParseConcatCons(a, b, f, n, Parse(a[n..]).value, Parse(b).value);
    }
  }

  predicate ValidKey(k: Key) {
    1 <= k.num < MAX_FIELD && k.wire in {0, 1, 2, 5}
  }

  lemma ReadPayloadAfterWrite(p: Payload)
    requires ValidPayload(p)
    ensures ReadPayload(WireOf(p), PayloadBytes(p)) == Some((p, |PayloadBytes(p)|))
  {
    hide ReadVarint, VarintBytes, FromLittleEndian, LittleEndian, Pow;
    var s := PayloadBytes(p);
    match p
    case Varint(v) =>
      assert s == VarintBytes(v) + [];
      ReadVarintAfterWrite(v, []);
    case Bytes(d) =>
      ReadVarintAfterWrite(|d|, d);
      var n := |VarintBytes(|d|)|;
      assert s[n..n + |d|] == d;
    case Fixed64(b) =>
      PowConstants();
      LittleEndianRoundTrip(8, b);
      assert s[..8] == s;
    case Fixed32(w) =>
      PowConstants();
      LittleEndianRoundTrip(4, w);
      assert s[..4] == s;
  }

  lemma ReadRecord(k: Key, p: Payload)
    requires ValidKey(k) && ValidPayload(p) && k.wire == WireOf(p)
    ensures ReadField(RecordBytes(k, p)) == Some((Field(k, p, RecordBytes(k, p)), |RecordBytes(k, p)|))
  {
    hide ReadVarint, ReadPayload, VarintBytes, PayloadBytes, ValidPayload, WireOf;
    var s := RecordBytes(k, p);
    var tag := VarintBytes(TagValue(k));
    ReadVarintAfterWrite(TagValue(k), PayloadBytes(p));
    assert s[|tag|..] == PayloadBytes(p);
    ReadPayloadAfterWrite(p);
    assert s[..|s|] == s;
  }

  lemma ParseRecord(k: Key, p: Payload)
    requires ValidKey(k) && ValidPayload(p) && k.wire == WireOf(p)
    ensures Parse(RecordBytes(k, p)) == Some([Field(k, p, RecordBytes(k, p))])
  {
    hide ReadField, RecordBytes, ValidPayload, WireOf;
    var s := RecordBytes(k, p);
    ReadRecord(k, p);
    ParseCons(s);
    assert s[|s|..] == [];
    assert [Field(k, p, s)] + [] == [Field(k, p, s)];
  }

  // ---------------------------------------------------------------- messages as segments

  /** All occurrences of one field, in order: none or one for a singular field. */
  datatype Segment = Segment(key: Key, payloads: seq<Payload>)

  function SegmentBytes(k: Key, ps: seq<Payload>): bytes {
    if ps == [] then [] else RecordBytes(k, ps[0]) + SegmentBytes(k, ps[1..])
  }

  /** The body of a message from its j-th segment on; unrecognised fields come last. */
  function Body(segs: seq<Segment>, j: nat, unknown: bytes): bytes
    decreases |segs| - j
  {
    if j >= |segs| then unknown
    else SegmentBytes(segs[j].key, segs[j].payloads) + Body(segs, j + 1, unknown)
  }

  function SegmentFields(k: Key, ps: seq<Payload>): (r: seq<Field>)
    ensures |r| == |ps|
    ensures forall i :: 0 <= i < |r| ==> r[i].key == k && r[i].payload == ps[i]
  {
    if ps == [] then [] else [Field(k, ps[0], RecordBytes(k, ps[0]))] + SegmentFields(k, ps[1..])
  }

  function BodyFields(segs: seq<Segment>, j: nat, us: seq<Field>): seq<Field>
    decreases |segs| - j
  {
    if j >= |segs| then us
    else SegmentFields(segs[j].key, segs[j].payloads) + BodyFields(segs, j + 1, us)
  }

  predicate ValidSegment(s: Segment) {
    ValidKey(s.key) && forall p :: p in s.payloads ==> ValidPayload(p) && WireOf(p) == s.key.wire
  }

  /** The segments of a message follow its schema: one segment per field, in field order. */
  predicate Conforms(segs: seq<Segment>, schema: seq<Key>) {
    |segs| == |schema| && forall j :: 0 <= j < |segs| ==> segs[j].key == schema[j] && ValidSegment(segs[j])
  }

  /** Field numbers strictly ascend. */
  predicate Ascending(schema: seq<Key>) {
    forall i, j :: 0 <= i < j < |schema| ==> schema[i].num < schema[j].num
  }

  /** Every payload of one field, in the order of its occurrences. */
  function Payloads(fs: seq<Field>, k: Key): seq<Payload> {
    if fs == [] then []
    else (if fs[0].key == k then [fs[0].payload] else []) + Payloads(fs[1..], k)
  }

  /** The bytes of the fields the schema does not know, in order. A known number with
      another wire type counts as unknown. */
  function Unrecognised(fs: seq<Field>, schema: seq<Key>): bytes {
    if fs == [] then []
    else (if fs[0].key in schema then [] else fs[0].raw) + Unrecognised(fs[1..], schema)
  }

  /** Bytes that hold well-formed fields, none of them in the schema. */
  predicate WellFormedUnknown(u: bytes, schema: seq<Key>) {
    Parse(u).Some? && forall f :: f in Parse(u).value ==> f.key !in schema
  }

  lemma {:induction false} ParseSegment(k: Key, ps: seq<Payload>)
    requires ValidSegment(Segment(k, ps))
    ensures Parse(SegmentBytes(k, ps)) == Some(SegmentFields(k, ps))
  {
    if ps != [] {
      ParseRecord(k, ps[0]);
      ParseSegment(k, ps[1..]);
      ParseConcat(RecordBytes(k, ps[0]), SegmentBytes(k, ps[1..]));
    }
  }

  lemma {:induction false} ParseBody(segs: seq<Segment>, j: nat, u: bytes)
    requires forall i :: 0 <= i < |segs| ==> ValidSegment(segs[i])
    requires Parse(u).Some?
    ensures Parse(Body(segs, j, u)) == Some(BodyFields(segs, j, Parse(u).value))
    decreases |segs| - j
  {
    if j < |segs| {
      ParseSegment(segs[j].key, segs[j].payloads);
      ParseBody(segs, j + 1, u);
      ParseConcat(SegmentBytes(segs[j].key, segs[j].payloads), Body(segs, j + 1, u));
    }
  }

  lemma {:induction false} PayloadsConcat(a: seq<Field>, b: seq<Field>, k: Key)
    ensures Payloads(a + b, k) == Payloads(a, k) + Payloads(b, k)
  {
    if a == [] {
      assert a + b == b;
    } else {
      assert (a + b)[1..] == a[1..] + b;
      PayloadsConcat(a[1..], b, k);
    }
  }

  lemma {:induction false} PayloadsAbsent(fs: seq<Field>, k: Key)
    requires forall f :: f in fs ==> f.key != k
    ensures Payloads(fs, k) == []
  {
    if fs != [] { PayloadsAbsent(fs[1..], k); }
  }

  lemma {:induction false} PayloadsOfSegment(k: Key, ps: seq<Payload>)
    ensures Payloads(SegmentFields(k, ps), k) == ps
  {
    if ps != [] {
      assert SegmentFields(k, ps)[1..] == SegmentFields(k, ps[1..]);
      PayloadsOfSegment(k, ps[1..]);
    }
  }

  lemma PayloadsOfSegmentThen(k: Key, ps: seq<Payload>, rest: seq<Field>, wanted: Key)
    ensures Payloads(SegmentFields(k, ps) + rest, wanted) == (if k == wanted then ps else []) + Payloads(rest, wanted)
  {
    PayloadsConcat(SegmentFields(k, ps), rest, wanted);
    if k == wanted {
      PayloadsOfSegment(k, ps);
    } else {
      PayloadsAbsent(SegmentFields(k, ps), wanted);
    }
  }

  lemma {:induction false} PayloadsOfBody(segs: seq<Segment>, j: nat, us: seq<Field>, i: nat)
    requires i < |segs|
    requires forall a :: 0 <= a < |segs| && a != i ==> segs[a].key != segs[i].key
    requires forall f :: f in us ==> f.key != segs[i].key
    ensures Payloads(BodyFields(segs, j, us), segs[i].key) == if j <= i then segs[i].payloads else []
    decreases |segs| - j
  {
    if j >= |segs| {
      PayloadsAbsent(us, segs[i].key);
    } else {
      PayloadsOfBody(segs, j + 1, us, i);
      PayloadsOfSegmentThen(segs[j].key, segs[j].payloads, BodyFields(segs, j + 1, us), segs[i].key);
    }
  }

  lemma {:induction false} UnrecognisedConcat(a: seq<Field>, b: seq<Field>, schema: seq<Key>)
    ensures Unrecognised(a + b, schema) == Unrecognised(a, schema) + Unrecognised(b, schema)
  {
    if a == [] {
      assert a + b == b;
    } else {
      assert (a + b)[1..] == a[1..] + b;
      UnrecognisedConcat(a[1..], b, schema);
    }
  }

  lemma {:induction false} UnrecognisedOfKnown(fs: seq<Field>, schema: seq<Key>)
    requires forall f :: f in fs ==> f.key in schema
    ensures Unrecognised(fs, schema) == []
  {
    if fs != [] { UnrecognisedOfKnown(fs[1..], schema); }
  }

  lemma UnrecognisedCons(f: Field, fs: seq<Field>, schema: seq<Key>)
    ensures Unrecognised([f] + fs, schema) == (if f.key in schema then [] else f.raw) + Unrecognised(fs, schema)
  {
    assert ([f] + fs)[1..] == fs;
  }

  lemma WellFormedUnknownCons(u: bytes, f: Field, n: nat, schema: seq<Key>)
    requires WellFormedUnknown(u, schema) && ReadField(u) == Some((f, n))
    ensures f.key !in schema && WellFormedUnknown(u[n..], schema)
    ensures Parse(u).value == [f] + Parse(u[n..]).value
    ensures f.raw + u[n..] == u
  {
    hide Parse, ReadField;
    ParseCons(u);
    var rest := Parse(u[n..]).value;
    assert f in [f] + rest;
    forall g | g in rest ensures g.key !in schema { assert g in [f] + rest; }
  }

  lemma {:induction false} UnrecognisedOfUnknown(u: bytes, schema: seq<Key>)
    requires WellFormedUnknown(u, schema)
    ensures Unrecognised(Parse(u).value, schema) == u
    decreases |u|
  {
    hide ReadField;
    if u != [] {
      var (f, n) := ReadField(u).value;
      WellFormedUnknownCons(u, f, n, schema);
      UnrecognisedOfUnknown(u[n..], schema);
      UnrecognisedCons(f, Parse(u[n..]).value, schema);
    }
  }

  lemma {:induction false} UnrecognisedOfBody(segs: seq<Segment>, schema: seq<Key>, j: nat, u: bytes)
    requires Conforms(segs, schema) && WellFormedUnknown(u, schema)
    ensures Unrecognised(BodyFields(segs, j, Parse(u).value), schema) == u
    decreases |segs| - j
  {
    if j >= |segs| {
      UnrecognisedOfUnknown(u, schema);
    } else {
      var here := SegmentFields(segs[j].key, segs[j].payloads);
      assert schema[j] in schema;
      UnrecognisedOfKnown(here, schema);
      UnrecognisedConcat(here, BodyFields(segs, j + 1, Parse(u).value), schema);
      UnrecognisedOfBody(segs, schema, j + 1, u);
    }
  }

  /** Reading a message body recovers every segment and the unrecognised bytes. */
  lemma ReadBody(segs: seq<Segment>, schema: seq<Key>, u: bytes)
    requires Conforms(segs, schema) && Ascending(schema) && WellFormedUnknown(u, schema)
    ensures Parse(Body(segs, 0, u)).Some?
    ensures var fs := Parse(Body(segs, 0, u)).value;
            && (forall j :: 0 <= j < |segs| ==> Payloads(fs, schema[j]) == segs[j].payloads)
            && Unrecognised(fs, schema) == u
  {
    ParseBody(segs, 0, u);
    var us := Parse(u).value;
    forall j | 0 <= j < |segs|
      ensures Payloads(BodyFields(segs, 0, us), schema[j]) == segs[j].payloads
    {
      assert schema[j] in schema;
      PayloadsOfBody(segs, 0, us, j);
    }
    UnrecognisedOfBody(segs, schema, 0, u);
  }

  /** Cutting the schema after k fields turns the rest of the body into unrecognised bytes. */
  lemma {:induction false} SplitBody(segs: seq<Segment>, k: nat, j: nat, u: bytes)
    requires j <= k <= |segs|
    ensures Body(segs, j, u) == Body(segs[..k], j, Body(segs, k, u))
    decreases k - j
  {
    if j < k { SplitBody(segs, k, j + 1, u); }
  }
}
