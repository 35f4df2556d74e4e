/** SubjectAlternateName, whose code and field numbers are the same in v2alpha and v3. */
module AltName {
  import opened Wire
  import opened Buffer
  import opened Message

  /** The oneof: at most one arm is set, and an arm may hold the empty string. */
  datatype Name = Unset | Dns(dns: bytes) | Uri(uri: bytes) | IpAddress(ip: bytes)

  function DnsArm(n: Name): Ptr<bytes> { if n.Dns? then Ref(n.dns) else Nil }
  function UriArm(n: Name): Ptr<bytes> { if n.Uri? then Ref(n.uri) else Nil }
  function IpArm(n: Name): Ptr<bytes> { if n.IpAddress? then Ref(n.ip) else Nil }

  // ---------------------------------------------------------------- SubjectAlternateName

  datatype SubjectAlternateName = SubjectAlternateName(name: Name, unknown: bytes)

  const SUBJECT_ALTERNATE_NAME_SCHEMA: seq<Key> := [Key(1, 2), Key(2, 2), Key(3, 2)]

  function SubjectAlternateNameSegs(m: SubjectAlternateName): seq<Segment> {
    [ ChildSeg(1, DnsArm(m.name)),
      ChildSeg(2, UriArm(m.name)),
      ChildSeg(3, IpArm(m.name)) ]
  }

  function EncodeSubjectAlternateName(m: SubjectAlternateName): bytes {
    Body(SubjectAlternateNameSegs(m), 0, m.unknown)
  }

  method MarshalSubjectAlternateName(p: Ptr<SubjectAlternateName>, buf: array<byte>, end: nat) returns (n: nat)
    requires |EncodePtr(EncodeSubjectAlternateName, p)| <= end <= buf.Length
    modifies buf
    ensures n == |EncodePtr(EncodeSubjectAlternateName, p)|
    ensures Filled(buf[..], old(buf[..]), end - n, EncodePtr(EncodeSubjectAlternateName, p))
  {
    hide Reached, Counted, Body, VarintBytes, StringSeg, IntSeg, BoolSeg, ChildSeg, ListSeg, DoubleSeg;
    if p.Nil? {
      FillNothing(buf[..], end);
      return 0;
    }
    var m := p.value;
    ghost var t := Task(buf[..], end, SubjectAlternateNameSegs(m), m.unknown);
    OneByteTags();
    var i := PutUnknown(buf, m.unknown, end, t);
    i := PutOpaque(buf, i, [0x1a], IpArm(m.name), 3, t, 2);
    i := PutOpaque(buf, i, [0x12], UriArm(m.name), 2, t, 1);
    i := PutOpaque(buf, i, [0x0a], DnsArm(m.name), 1, t, 0);
    Finished(buf[..], t, i);
    n := end - i;
  }

  method SizeSubjectAlternateName(p: Ptr<SubjectAlternateName>) returns (n: nat)
    ensures n == |EncodePtr(EncodeSubjectAlternateName, p)|
  {
    hide Reached, Counted, Body, VarintBytes, StringSeg, IntSeg, BoolSeg, ChildSeg, ListSeg, DoubleSeg;
    if p.Nil? { return 0; }
    var m := p.value;
    ghost var t := Task([], 0, SubjectAlternateNameSegs(m), m.unknown);
    OneByteTags();
    n := StartSize(t);
    n := SizeOpaque(n, 1, DnsArm(m.name), 1, t, 0);
    n := SizeOpaque(n, 1, UriArm(m.name), 2, t, 1);
    n := SizeOpaque(n, 1, IpArm(m.name), 3, t, 2);
    n := SizeUnknown(n, m.unknown, t);
  }

  /** Each element in turn, the last one first. */
  method PutSubjectAlternateNameList(buf: array<byte>, i: nat, tag: bytes, items: seq<Ptr<SubjectAlternateName>>,
      ghost num: nat, ghost t: Task, ghost j: nat)
    returns (at: nat)
    requires Reached(buf[..], t, i, j + 1) && j < |t.segs|
    requires tag == VarintBytes(num * 8 + 2) && t.segs[j] == ListSeg(num,
        EncodeItems(EncodeSubjectAlternateName, items))
    modifies buf
    ensures Reached(buf[..], t, at, j)
  {
    hide Splice, Filled, SegBytes, RecordBytes, VarintBytes, ListSeg, ListBytes, EncodeSubjectAlternateName;
    BodyStep(t.segs, j, t.unknown);
    ghost var all, done := EncodeItems(EncodeSubjectAlternateName, items), Body(t.segs, j + 1, t.unknown);
    at := i;
    NothingFirst(done);
    ListBytesAll(num, all);
    for k := |items| downto 0
      invariant at == i - |ListBytes(num, all, k)|
      invariant Filled(buf[..], t.orig, at, ListBytes(num, all, k) + done)
    {
      ListStep(num, all, k, done);
      ghost var start, later := buf[..], ListBytes(num, all, k + 1) + done;
      FilledBounds(start, t.orig, at, later);
      var size := MarshalSubjectAlternateName(items[k], buf, at);
      Fill(start, t.orig, at, later, all[k], buf[..]);
      at := PutLength(buf, at - size, tag, size, num, all[k], t.orig, later);
    }
  }

  method SizeSubjectAlternateNameList(n: nat, tagSize: nat, items: seq<Ptr<SubjectAlternateName>>, ghost num: nat,
      ghost t: Task, ghost j: nat) returns (sum: nat)
    requires j < |t.segs| && tagSize == |VarintBytes(num * 8 + 2)|
        && t.segs[j] == ListSeg(num, EncodeItems(EncodeSubjectAlternateName, items))
    ensures Counted(t, n, j) ==> Counted(t, sum, j + 1)
  {
    hide SegBytes, RecordBytes, VarintBytes, ListSeg, ListBytes, EncodeSubjectAlternateName;
    BodyStep(t.segs, j, t.unknown);
    ghost var all := EncodeItems(EncodeSubjectAlternateName, items);
    ListBytesAll(num, all);
    sum := n;
    for k := 0 to |items|
      invariant sum + |ListBytes(num, all, k)| == n + |SegBytes(ListSeg(num, all))|
    {
      ListStep(num, all, k, []);
      var l := SizeSubjectAlternateName(items[k]);
      l := SizeBytes(tagSize, l, num, all[k]);
      sum := sum + l;
    }
  }

  predicate IsArm(k: Key) { k == Key(1, 2) || k == Key(2, 2) || k == Key(3, 2) }

  function Arm(k: Key, d: bytes): Name {
    if k == Key(1, 2) then Dns(d) else if k == Key(2, 2) then Uri(d) else IpAddress(d)
  }

  /** Of all records of the oneof, the last one decides which arm is set. */
  function LastName(sofar: Name, fs: seq<Field>): Name
    decreases fs
  {
    if fs == [] then sofar
    else LastName(if IsArm(fs[0].key) then Arm(fs[0].key, DataOf(fs[0].payload)) else sofar, fs[1..])
  }

  lemma {:induction false} LastNameUnset(sofar: Name, fs: seq<Field>)
    requires forall k :: IsArm(k) ==> Payloads(fs, k) == []
    ensures LastName(sofar, fs) == sofar
    decreases fs
  {
    if fs != [] {
      forall k | IsArm(k) ensures Payloads(fs[1..], k) == [] && fs[0].key != k {
        assert Payloads(fs, k) == [];
      }
      LastNameUnset(sofar, fs[1..]);
    }
  }

  /** With records of one arm only, the last of them is the value. */
  lemma {:induction false} LastNameSet(sofar: Name, fs: seq<Field>, arm: Key)
    requires IsArm(arm) && Payloads(fs, arm) != []
    requires forall k :: IsArm(k) && k != arm ==> Payloads(fs, k) == []
    ensures LastName(sofar, fs) == Arm(arm, LastData(Payloads(fs, arm)))
    decreases fs
  {
    var rest := Payloads(fs[1..], arm);
    forall k | IsArm(k) && k != arm ensures Payloads(fs[1..], k) == [] && fs[0].key != k {
      assert Payloads(fs, k) == [];
    }
    var next := if fs[0].key == arm then Arm(arm, DataOf(fs[0].payload)) else sofar;
    assert LastName(sofar, fs) == LastName(next, fs[1..]);
    if rest == [] {
      LastNameUnset(next, fs[1..]);
    } else {
      LastNameSet(next, fs[1..], arm);
    }
  }

  function DecodeSubjectAlternateName(s: bytes): Option<SubjectAlternateName> {
    var fs :- Parse(s);
    Some(SubjectAlternateName(
      LastName(Unset, fs),
      Unrecognised(fs, SUBJECT_ALTERNATE_NAME_SCHEMA)))
  }

  const EMPTY_SUBJECT_ALTERNATE_NAME: SubjectAlternateName := SubjectAlternateName(Unset, [])

  function NormalSubjectAlternateName(m: SubjectAlternateName): SubjectAlternateName {
    m
  }

  predicate WellFormedSubjectAlternateName(m: SubjectAlternateName) {
    && WellFormedUnknown(m.unknown, SUBJECT_ALTERNATE_NAME_SCHEMA)
  }

  lemma SubjectAlternateNameShape(m: SubjectAlternateName)
    ensures Shaped(SubjectAlternateNameSegs(m), SUBJECT_ALTERNATE_NAME_SCHEMA)
        && Ascending(SUBJECT_ALTERNATE_NAME_SCHEMA)
  {
    hide ShapedSegment, StringSeg, IntSeg, BoolSeg, ChildSeg, ListSeg, DoubleSeg;
  }

  lemma SubjectAlternateNameRoundTrip(m: SubjectAlternateName)
    requires WellFormedSubjectAlternateName(m) && |EncodeSubjectAlternateName(m)| < TWO_63
    ensures DecodeSubjectAlternateName(EncodeSubjectAlternateName(m)) == Some(NormalSubjectAlternateName(m))
  {
    hide Parse, Body, Payloads, Unrecognised, ShapedSegment;
    var segs := SubjectAlternateNameSegs(m);
    SubjectAlternateNameShape(m);
    ReadMessage(segs, SUBJECT_ALTERNATE_NAME_SCHEMA, m.unknown);
    var fs := Parse(EncodeSubjectAlternateName(m)).value;
    assert Payloads(fs, SUBJECT_ALTERNATE_NAME_SCHEMA[0]) == segs[0].payloads;
    assert Payloads(fs, SUBJECT_ALTERNATE_NAME_SCHEMA[1]) == segs[1].payloads;
    assert Payloads(fs, SUBJECT_ALTERNATE_NAME_SCHEMA[2]) == segs[2].payloads;
    match m.name
    case Unset => LastNameUnset(Unset, fs);
    case Dns(_) => LastNameSet(Unset, fs, Key(1, 2));
    case Uri(_) => LastNameSet(Unset, fs, Key(2, 2));
    case IpAddress(_) => LastNameSet(Unset, fs, Key(3, 2));
  }

  /** Which record carries which field, and when it is there at all. */
  lemma SubjectAlternateNameLayout(m: SubjectAlternateName)
    requires WellFormedUnknown(m.unknown, SUBJECT_ALTERNATE_NAME_SCHEMA) && |EncodeSubjectAlternateName(m)| < TWO_63
    ensures Parse(EncodeSubjectAlternateName(m)).Some?
    ensures var fs := Parse(EncodeSubjectAlternateName(m)).value;
            && Payloads(fs, Key(1, 2)) == (if m.name.Dns? then [Bytes(m.name.dns)] else [])
            && Payloads(fs, Key(2, 2)) == (if m.name.Uri? then [Bytes(m.name.uri)] else [])
            && Payloads(fs, Key(3, 2)) == (if m.name.IpAddress? then [Bytes(m.name.ip)] else [])
            && Unrecognised(fs, SUBJECT_ALTERNATE_NAME_SCHEMA) == m.unknown
  {
    hide Parse, Body, Payloads, Unrecognised, ShapedSegment, Items, WellFormedUnknown;
    var segs := SubjectAlternateNameSegs(m);
    SubjectAlternateNameShape(m);
    ReadMessage(segs, SUBJECT_ALTERNATE_NAME_SCHEMA, m.unknown);
    var fs := Parse(EncodeSubjectAlternateName(m)).value;
    assert Payloads(fs, SUBJECT_ALTERNATE_NAME_SCHEMA[0]) == segs[0].payloads;
    assert Payloads(fs, SUBJECT_ALTERNATE_NAME_SCHEMA[1]) == segs[1].payloads;
    assert Payloads(fs, SUBJECT_ALTERNATE_NAME_SCHEMA[2]) == segs[2].payloads;
  }

  lemma SubjectAlternateNameSameBytes(m: SubjectAlternateName)
    ensures EncodeSubjectAlternateName(NormalSubjectAlternateName(m)) == EncodeSubjectAlternateName(m)
  {
  }

  lemma SubjectAlternateNameEmpty()
    ensures EncodeSubjectAlternateName(EMPTY_SUBJECT_ALTERNATE_NAME) == []
        && DecodeSubjectAlternateName([]) == Some(EMPTY_SUBJECT_ALTERNATE_NAME)
  {
    EmptyBody(SubjectAlternateNameSegs(EMPTY_SUBJECT_ALTERNATE_NAME), 0);
  }

  lemma SubjectAlternateNameListRoundTrip(segs: seq<Segment>, j: nat, u: bytes, num: nat,
      items: seq<Ptr<SubjectAlternateName>>)
    requires j < |segs| && segs[j] == ListSeg(num, EncodeItems(EncodeSubjectAlternateName, items))
        && |Body(segs, 0, u)| < TWO_63
    requires forall p :: p in items && p.Ref? ==> WellFormedSubjectAlternateName(p.value)
    ensures DecodeItems(DecodeSubjectAlternateName, Items(segs[j].payloads))
        == Some(NormalItems(NormalSubjectAlternateName, EMPTY_SUBJECT_ALTERNATE_NAME, items))
  {
    hide Body, Items, ListSeg, EncodeSubjectAlternateName, DecodeSubjectAlternateName, NormalSubjectAlternateName,
         WellFormedSubjectAlternateName;
    forall p | p in items && p.Ref? ensures DecodeSubjectAlternateName(EncodeSubjectAlternateName(p.value))
        == Some(NormalSubjectAlternateName(p.value)) {
      var k :| 0 <= k < |items| && items[k] == p;
      ItemFits(segs, j, u, num, EncodeItems(EncodeSubjectAlternateName, items), k);
      SubjectAlternateNameRoundTrip(p.value);
    }
    SubjectAlternateNameEmpty();
    ItemsOfList(num, EncodeItems(EncodeSubjectAlternateName, items));
    ItemsRoundTrip(EncodeSubjectAlternateName, DecodeSubjectAlternateName, NormalSubjectAlternateName,
        EMPTY_SUBJECT_ALTERNATE_NAME, items);
  }
}
