/** The certificate dump of envoy/admin/v2alpha: the same tree without OcspDetails. */
module CertsV2 {
  import opened Wire
  import opened Buffer
  import opened Message
  import opened AltName

  // ---------------------------------------------------------------- CertificateDetails

  datatype CertificateDetails = CertificateDetails(
    path: bytes, serialNumber: bytes, subjectAltNames: seq<Ptr<SubjectAlternateName>>, daysUntilExpiration: uint64,
    validFrom: Ptr<bytes>, expirationTime: Ptr<bytes>, unknown: bytes)

  const CERTIFICATE_DETAILS_SCHEMA: seq<Key> := [Key(1, 2), Key(2, 2), Key(3, 2), Key(4, 0), Key(5, 2), Key(6, 2)]

  function CertificateDetailsSegs(m: CertificateDetails): seq<Segment> {
    [ StringSeg(1, m.path),
      StringSeg(2, m.serialNumber),
      ListSeg(3, EncodeItems(EncodeSubjectAlternateName, m.subjectAltNames)),
      IntSeg(4, U64(m.daysUntilExpiration)),
      ChildSeg(5, m.validFrom),
      ChildSeg(6, m.expirationTime) ]
  }

  function EncodeCertificateDetails(m: CertificateDetails): bytes {
    Body(CertificateDetailsSegs(m), 0, m.unknown)
  }

  lemma CertificateDetailsAt(m: CertificateDetails)
    ensures |CertificateDetailsSegs(m)| == 6
    ensures CertificateDetailsSegs(m)[0] == StringSeg(1, m.path)
    ensures CertificateDetailsSegs(m)[1] == StringSeg(2, m.serialNumber)
    ensures CertificateDetailsSegs(m)[2] == ListSeg(3, EncodeItems(EncodeSubjectAlternateName, m.subjectAltNames))
    ensures CertificateDetailsSegs(m)[3] == IntSeg(4, U64(m.daysUntilExpiration))
    ensures CertificateDetailsSegs(m)[4] == ChildSeg(5, m.validFrom)
    ensures CertificateDetailsSegs(m)[5] == ChildSeg(6, m.expirationTime)
  {
    hide StringSeg, IntSeg, BoolSeg, ChildSeg, ListSeg;
  }

  method MarshalCertificateDetails(p: Ptr<CertificateDetails>, buf: array<byte>, end: nat) returns (n: nat)
    requires |EncodePtr(EncodeCertificateDetails, p)| <= end <= buf.Length
    modifies buf
    ensures n == |EncodePtr(EncodeCertificateDetails, p)|
    ensures Filled(buf[..], old(buf[..]), end - n, EncodePtr(EncodeCertificateDetails, p))
  {
    hide Reached, Counted, Body, VarintBytes, CertificateDetailsSegs, StringSeg, IntSeg, BoolSeg, ChildSeg, ListSeg;
    if p.Nil? {
      FillNothing(buf[..], end);
      return 0;
    }
    var m := p.value;
    ghost var t := Task(buf[..], end, CertificateDetailsSegs(m), m.unknown);
    OneByteTags();
    CertificateDetailsAt(m);
    var i := PutUnknown(buf, m.unknown, end, t);
    i := PutOpaque(buf, i, [0x32], m.expirationTime, 6, t, 5);
    i := PutOpaque(buf, i, [0x2a], m.validFrom, 5, t, 4);
    i := PutInt(buf, i, [0x20], U64(m.daysUntilExpiration), 4, t, 3);
    i := PutSubjectAlternateNameList(buf, i, [0x1a], m.subjectAltNames, 3, t, 2);
    i := PutString(buf, i, [0x12], m.serialNumber, 2, t, 1);
    i := PutString(buf, i, [0x0a], m.path, 1, t, 0);
    Finished(buf[..], t, i);
    n := end - i;
  }

  method SizeCertificateDetails(p: Ptr<CertificateDetails>) returns (n: nat)
    ensures n == |EncodePtr(EncodeCertificateDetails, p)|
  {
    hide Reached, Counted, Body, VarintBytes, CertificateDetailsSegs, StringSeg, IntSeg, BoolSeg, ChildSeg, ListSeg;
    if p.Nil? { return 0; }
    var m := p.value;
    ghost var t := Task([], 0, CertificateDetailsSegs(m), m.unknown);
    OneByteTags();
    CertificateDetailsAt(m);
    n := StartSize(t);
    n := SizeString(n, 1, m.path, 1, t, 0);
    n := SizeString(n, 1, m.serialNumber, 2, t, 1);
    n := SizeSubjectAlternateNameList(n, 1, m.subjectAltNames, 3, t, 2);
    n := SizeInt(n, 1, U64(m.daysUntilExpiration), 4, t, 3);
    n := SizeOpaque(n, 1, m.validFrom, 5, t, 4);
    n := SizeOpaque(n, 1, m.expirationTime, 6, t, 5);
    n := SizeUnknown(n, m.unknown, t);
  }

  /** Each element in turn, the last one first. */
  method PutCertificateDetailsList(buf: array<byte>, i: nat, tag: bytes, items: seq<Ptr<CertificateDetails>>,
      ghost num: nat, ghost t: Task, ghost j: nat)
    returns (at: nat)
    requires Reached(buf[..], t, i, j + 1) && j < |t.segs|
    requires tag == VarintBytes(num * 8 + 2) && t.segs[j] == ListSeg(num, EncodeItems(EncodeCertificateDetails, items))
    modifies buf
    ensures Reached(buf[..], t, at, j)
  {
    hide Splice, Filled, SegBytes, RecordBytes, VarintBytes, ListSeg, ListBytes, EncodeCertificateDetails;
    BodyStep(t.segs, j, t.unknown);
    ghost var all, done := EncodeItems(EncodeCertificateDetails, items), Body(t.segs, j + 1, t.unknown);
    at := i;
    NothingFirst(done);
    ListBytesAll(num, all);
    for k := |items| downto 0
      invariant at == i - |ListBytes(num, all, k)|
      invariant Filled(buf[..], t.orig, at, ListBytes(num, all, k) + done)
    {
      ListStep(num, all, k, done);
      ghost var start, later := buf[..], ListBytes(num, all, k + 1) + done;
      FilledBounds(start, t.orig, at, later);
      var size := MarshalCertificateDetails(items[k], buf, at);
      Fill(start, t.orig, at, later, all[k], buf[..]);
      at := PutLength(buf, at - size, tag, size, num, all[k], t.orig, later);
    }
  }

  method SizeCertificateDetailsList(n: nat, tagSize: nat, items: seq<Ptr<CertificateDetails>>, ghost num: nat,
      ghost t: Task, ghost j: nat) returns (sum: nat)
    requires j < |t.segs| && tagSize == |VarintBytes(num * 8 + 2)|
        && t.segs[j] == ListSeg(num, EncodeItems(EncodeCertificateDetails, items))
    ensures Counted(t, n, j) ==> Counted(t, sum, j + 1)
  {
    hide SegBytes, RecordBytes, VarintBytes, ListSeg, ListBytes, EncodeCertificateDetails;
    BodyStep(t.segs, j, t.unknown);
    ghost var all := EncodeItems(EncodeCertificateDetails, items);
    ListBytesAll(num, all);
    sum := n;
    for k := 0 to |items|
      invariant sum + |ListBytes(num, all, k)| == n + |SegBytes(ListSeg(num, all))|
    {
      ListStep(num, all, k, []);
      var l := SizeCertificateDetails(items[k]);
      l := SizeBytes(tagSize, l, num, all[k]);
      sum := sum + l;
    }
  }

  function DecodeCertificateDetails(s: bytes): Option<CertificateDetails> {
    var fs :- Parse(s);
    var subjectAltNames :- DecodeItems(DecodeSubjectAlternateName, Items(Payloads(fs, Key(3, 2))));
    Some(CertificateDetails(
      LastData(Payloads(fs, Key(1, 2))),
      LastData(Payloads(fs, Key(2, 2))),
      subjectAltNames,
      ToUint64(LastInt(Payloads(fs, Key(4, 0)))),
      Merged(Payloads(fs, Key(5, 2))),
      Merged(Payloads(fs, Key(6, 2))),
      Unrecognised(fs, CERTIFICATE_DETAILS_SCHEMA)))
  }

  const EMPTY_CERTIFICATE_DETAILS: CertificateDetails := CertificateDetails([], [], [], 0, Nil, Nil, [])

  function NormalCertificateDetails(m: CertificateDetails): CertificateDetails {
    m.(subjectAltNames := NormalItems(NormalSubjectAlternateName, EMPTY_SUBJECT_ALTERNATE_NAME, m.subjectAltNames))
  }

  predicate WellFormedCertificateDetails(m: CertificateDetails) {
    && WellFormedUnknown(m.unknown, CERTIFICATE_DETAILS_SCHEMA)
    && (forall p :: p in m.subjectAltNames && p.Ref? ==> WellFormedSubjectAlternateName(p.value))
  }

  lemma CertificateDetailsShape(m: CertificateDetails)
    ensures Shaped(CertificateDetailsSegs(m), CERTIFICATE_DETAILS_SCHEMA) && Ascending(CERTIFICATE_DETAILS_SCHEMA)
  {
    hide ShapedSegment, StringSeg, IntSeg, BoolSeg, ChildSeg, ListSeg, DoubleSeg;
  }

  lemma CertificateDetailsRoundTrip(m: CertificateDetails)
    requires WellFormedCertificateDetails(m) && |EncodeCertificateDetails(m)| < TWO_63
    ensures DecodeCertificateDetails(EncodeCertificateDetails(m)) == Some(NormalCertificateDetails(m))
  {
    hide Parse, Body, Payloads, Unrecognised, ShapedSegment, Items, Merged, LastData, LastInt, U64;
    var segs := CertificateDetailsSegs(m);
    CertificateDetailsShape(m);
    ReadMessage(segs, CERTIFICATE_DETAILS_SCHEMA, m.unknown);
    var fs := Parse(EncodeCertificateDetails(m)).value;
    assert Payloads(fs, CERTIFICATE_DETAILS_SCHEMA[0]) == segs[0].payloads;
    StringBack(1, m.path);
    assert Payloads(fs, CERTIFICATE_DETAILS_SCHEMA[1]) == segs[1].payloads;
    StringBack(2, m.serialNumber);
    assert Payloads(fs, CERTIFICATE_DETAILS_SCHEMA[2]) == segs[2].payloads;
    SubjectAlternateNameListRoundTrip(segs, 2, m.unknown, 3, m.subjectAltNames);
    assert Payloads(fs, CERTIFICATE_DETAILS_SCHEMA[3]) == segs[3].payloads;
    IntBack(4, m.daysUntilExpiration);
    assert Payloads(fs, CERTIFICATE_DETAILS_SCHEMA[4]) == segs[4].payloads;
    MergedChild(5, m.validFrom);
    assert Payloads(fs, CERTIFICATE_DETAILS_SCHEMA[5]) == segs[5].payloads;
    MergedChild(6, m.expirationTime);
  }

  /** Which record carries which field, and when it is there at all. */
  lemma CertificateDetailsLayout(m: CertificateDetails)
    requires WellFormedUnknown(m.unknown, CERTIFICATE_DETAILS_SCHEMA) && |EncodeCertificateDetails(m)| < TWO_63
    ensures Parse(EncodeCertificateDetails(m)).Some?
    ensures var fs := Parse(EncodeCertificateDetails(m)).value;
            && Payloads(fs, Key(1, 2)) == (if |m.path| > 0 then [Bytes(m.path)] else [])
            && Payloads(fs, Key(2, 2)) == (if |m.serialNumber| > 0 then [Bytes(m.serialNumber)] else [])
            && Items(Payloads(fs, Key(3, 2))) == EncodeItems(EncodeSubjectAlternateName, m.subjectAltNames)
            && Payloads(fs, Key(4, 0)) == (if m.daysUntilExpiration != 0 then [Varint(m.daysUntilExpiration)] else [])
            && Payloads(fs, Key(5, 2)) == (if m.validFrom.Nil? then [] else [Bytes(m.validFrom.value)])
            && Payloads(fs, Key(6, 2)) == (if m.expirationTime.Nil? then [] else [Bytes(m.expirationTime.value)])
            && Unrecognised(fs, CERTIFICATE_DETAILS_SCHEMA) == m.unknown
  {
    hide Parse, Body, Payloads, Unrecognised, ShapedSegment, Items, WellFormedUnknown, EncodeSubjectAlternateName,
         CertificateDetailsSegs;
    var segs := CertificateDetailsSegs(m);
    CertificateDetailsAt(m);
    CertificateDetailsShape(m);
    ReadMessage(segs, CERTIFICATE_DETAILS_SCHEMA, m.unknown);
    var fs := Parse(EncodeCertificateDetails(m)).value;
    assert Payloads(fs, CERTIFICATE_DETAILS_SCHEMA[0]) == segs[0].payloads;
    assert Payloads(fs, CERTIFICATE_DETAILS_SCHEMA[1]) == segs[1].payloads;
    assert Payloads(fs, CERTIFICATE_DETAILS_SCHEMA[2]) == segs[2].payloads;
    ItemsOfList(3, EncodeItems(EncodeSubjectAlternateName, m.subjectAltNames));
    assert Payloads(fs, CERTIFICATE_DETAILS_SCHEMA[3]) == segs[3].payloads;
    assert Payloads(fs, CERTIFICATE_DETAILS_SCHEMA[4]) == segs[4].payloads;
    assert Payloads(fs, CERTIFICATE_DETAILS_SCHEMA[5]) == segs[5].payloads;
  }

  lemma CertificateDetailsEmpty()
    ensures EncodeCertificateDetails(EMPTY_CERTIFICATE_DETAILS) == []
        && DecodeCertificateDetails([]) == Some(EMPTY_CERTIFICATE_DETAILS)
  {
    hide CertificateDetailsSegs, Body;
    assert EncodeItems(EncodeSubjectAlternateName, EMPTY_CERTIFICATE_DETAILS.subjectAltNames) == [];
    CertificateDetailsAt(EMPTY_CERTIFICATE_DETAILS);
    EmptyBody(CertificateDetailsSegs(EMPTY_CERTIFICATE_DETAILS), 0);
  }

  lemma CertificateDetailsListRoundTrip(segs: seq<Segment>, j: nat, u: bytes, num: nat,
      items: seq<Ptr<CertificateDetails>>)
    requires j < |segs| && segs[j] == ListSeg(num, EncodeItems(EncodeCertificateDetails, items))
        && |Body(segs, 0, u)| < TWO_63
    requires forall p :: p in items && p.Ref? ==> WellFormedCertificateDetails(p.value)
    ensures DecodeItems(DecodeCertificateDetails, Items(segs[j].payloads))
        == Some(NormalItems(NormalCertificateDetails, EMPTY_CERTIFICATE_DETAILS, items))
  {
    hide Body, Items, ListSeg, EncodeCertificateDetails, DecodeCertificateDetails, NormalCertificateDetails,
         WellFormedCertificateDetails;
    forall p | p in items && p.Ref? ensures DecodeCertificateDetails(EncodeCertificateDetails(p.value))
        == Some(NormalCertificateDetails(p.value)) {
      var k :| 0 <= k < |items| && items[k] == p;
      ItemFits(segs, j, u, num, EncodeItems(EncodeCertificateDetails, items), k);
      CertificateDetailsRoundTrip(p.value);
    }
    CertificateDetailsEmpty();
    ItemsOfList(num, EncodeItems(EncodeCertificateDetails, items));
    ItemsRoundTrip(EncodeCertificateDetails, DecodeCertificateDetails, NormalCertificateDetails,
        EMPTY_CERTIFICATE_DETAILS, items);
  }

  // ---------------------------------------------------------------- Certificate

  datatype Certificate = Certificate(
    caCert: seq<Ptr<CertificateDetails>>, certChain: seq<Ptr<CertificateDetails>>, unknown: bytes)

  const CERTIFICATE_SCHEMA: seq<Key> := [Key(1, 2), Key(2, 2)]

  function CertificateSegs(m: Certificate): seq<Segment> {
    [ ListSeg(1, EncodeItems(EncodeCertificateDetails, m.caCert)),
      ListSeg(2, EncodeItems(EncodeCertificateDetails, m.certChain)) ]
  }

  function EncodeCertificate(m: Certificate): bytes {
    Body(CertificateSegs(m), 0, m.unknown)
  }

  method MarshalCertificate(p: Ptr<Certificate>, buf: array<byte>, end: nat) returns (n: nat)
    requires |EncodePtr(EncodeCertificate, p)| <= end <= buf.Length
    modifies buf
    ensures n == |EncodePtr(EncodeCertificate, p)|
    ensures Filled(buf[..], old(buf[..]), end - n, EncodePtr(EncodeCertificate, p))
  {
    hide Reached, Counted, Body, VarintBytes, StringSeg, IntSeg, BoolSeg, ChildSeg, ListSeg, DoubleSeg;
    if p.Nil? {
      FillNothing(buf[..], end);
      return 0;
    }
    var m := p.value;
    ghost var t := Task(buf[..], end, CertificateSegs(m), m.unknown);
    OneByteTags();
    var i := PutUnknown(buf, m.unknown, end, t);
    i := PutCertificateDetailsList(buf, i, [0x12], m.certChain, 2, t, 1);
    i := PutCertificateDetailsList(buf, i, [0x0a], m.caCert, 1, t, 0);
    Finished(buf[..], t, i);
    n := end - i;
  }

  method SizeCertificate(p: Ptr<Certificate>) returns (n: nat)
    ensures n == |EncodePtr(EncodeCertificate, p)|
  {
    hide Reached, Counted, Body, VarintBytes, StringSeg, IntSeg, BoolSeg, ChildSeg, ListSeg, DoubleSeg;
    if p.Nil? { return 0; }
    var m := p.value;
    ghost var t := Task([], 0, CertificateSegs(m), m.unknown);
    OneByteTags();
    n := StartSize(t);
    n := SizeCertificateDetailsList(n, 1, m.caCert, 1, t, 0);
    n := SizeCertificateDetailsList(n, 1, m.certChain, 2, t, 1);
    n := SizeUnknown(n, m.unknown, t);
  }

  /** Each element in turn, the last one first. */
  method PutCertificateList(buf: array<byte>, i: nat, tag: bytes, items: seq<Ptr<Certificate>>, ghost num: nat,
      ghost t: Task, ghost j: nat)
    returns (at: nat)
    requires Reached(buf[..], t, i, j + 1) && j < |t.segs|
    requires tag == VarintBytes(num * 8 + 2) && t.segs[j] == ListSeg(num, EncodeItems(EncodeCertificate, items))
    modifies buf
    ensures Reached(buf[..], t, at, j)
  {
    hide Splice, Filled, SegBytes, RecordBytes, VarintBytes, ListSeg, ListBytes, EncodeCertificate;
    BodyStep(t.segs, j, t.unknown);
    ghost var all, done := EncodeItems(EncodeCertificate, items), Body(t.segs, j + 1, t.unknown);
    at := i;
    NothingFirst(done);
    ListBytesAll(num, all);
    for k := |items| downto 0
      invariant at == i - |ListBytes(num, all, k)|
      invariant Filled(buf[..], t.orig, at, ListBytes(num, all, k) + done)
    {
      ListStep(num, all, k, done);
      ghost var start, later := buf[..], ListBytes(num, all, k + 1) + done;
      FilledBounds(start, t.orig, at, later);
      var size := MarshalCertificate(items[k], buf, at);
      Fill(start, t.orig, at, later, all[k], buf[..]);
      at := PutLength(buf, at - size, tag, size, num, all[k], t.orig, later);
    }
  }

  method SizeCertificateList(n: nat, tagSize: nat, items: seq<Ptr<Certificate>>, ghost num: nat, ghost t: Task,
      ghost j: nat) returns (sum: nat)
    requires j < |t.segs| && tagSize == |VarintBytes(num * 8 + 2)|
        && t.segs[j] == ListSeg(num, EncodeItems(EncodeCertificate, items))
    ensures Counted(t, n, j) ==> Counted(t, sum, j + 1)
  {
    hide SegBytes, RecordBytes, VarintBytes, ListSeg, ListBytes, EncodeCertificate;
    BodyStep(t.segs, j, t.unknown);
    ghost var all := EncodeItems(EncodeCertificate, items);
    ListBytesAll(num, all);
    sum := n;
    for k := 0 to |items|
      invariant sum + |ListBytes(num, all, k)| == n + |SegBytes(ListSeg(num, all))|
    {
      ListStep(num, all, k, []);
      var l := SizeCertificate(items[k]);
      l := SizeBytes(tagSize, l, num, all[k]);
      sum := sum + l;
    }
  }

  function DecodeCertificate(s: bytes): Option<Certificate> {
    var fs :- Parse(s);
    var caCert :- DecodeItems(DecodeCertificateDetails, Items(Payloads(fs, Key(1, 2))));
    var certChain :- DecodeItems(DecodeCertificateDetails, Items(Payloads(fs, Key(2, 2))));
    Some(Certificate(
      caCert,
      certChain,
      Unrecognised(fs, CERTIFICATE_SCHEMA)))
  }

  const EMPTY_CERTIFICATE: Certificate := Certificate([], [], [])

  function NormalCertificate(m: Certificate): Certificate {
    m.(caCert := NormalItems(NormalCertificateDetails, EMPTY_CERTIFICATE_DETAILS, m.caCert),
       certChain := NormalItems(NormalCertificateDetails, EMPTY_CERTIFICATE_DETAILS, m.certChain))
  }

  predicate WellFormedCertificate(m: Certificate) {
    && WellFormedUnknown(m.unknown, CERTIFICATE_SCHEMA)
    && (forall p :: p in m.caCert && p.Ref? ==> WellFormedCertificateDetails(p.value))
    && (forall p :: p in m.certChain && p.Ref? ==> WellFormedCertificateDetails(p.value))
  }

  lemma CertificateShape(m: Certificate)
    ensures Shaped(CertificateSegs(m), CERTIFICATE_SCHEMA) && Ascending(CERTIFICATE_SCHEMA)
  {
    hide ShapedSegment, StringSeg, IntSeg, BoolSeg, ChildSeg, ListSeg, DoubleSeg;
  }

  lemma CertificateRoundTrip(m: Certificate)
    requires WellFormedCertificate(m) && |EncodeCertificate(m)| < TWO_63
    ensures DecodeCertificate(EncodeCertificate(m)) == Some(NormalCertificate(m))
  {
    hide Parse, Body, Payloads, Unrecognised, ShapedSegment, Items, Merged, LastData, LastInt, U64;
    var segs := CertificateSegs(m);
    CertificateShape(m);
    ReadMessage(segs, CERTIFICATE_SCHEMA, m.unknown);
    var fs := Parse(EncodeCertificate(m)).value;
    assert Payloads(fs, CERTIFICATE_SCHEMA[0]) == segs[0].payloads;
    CertificateDetailsListRoundTrip(segs, 0, m.unknown, 1, m.caCert);
    assert Payloads(fs, CERTIFICATE_SCHEMA[1]) == segs[1].payloads;
    CertificateDetailsListRoundTrip(segs, 1, m.unknown, 2, m.certChain);
  }

  /** Which record carries which field, and when it is there at all. */
  lemma CertificateLayout(m: Certificate)
    requires WellFormedUnknown(m.unknown, CERTIFICATE_SCHEMA) && |EncodeCertificate(m)| < TWO_63
    ensures Parse(EncodeCertificate(m)).Some?
    ensures var fs := Parse(EncodeCertificate(m)).value;
            && Items(Payloads(fs, Key(1, 2))) == EncodeItems(EncodeCertificateDetails, m.caCert)
            && Items(Payloads(fs, Key(2, 2))) == EncodeItems(EncodeCertificateDetails, m.certChain)
            && Unrecognised(fs, CERTIFICATE_SCHEMA) == m.unknown
  {
    hide Parse, Body, Payloads, Unrecognised, ShapedSegment, Items, WellFormedUnknown, EncodeCertificateDetails;
    var segs := CertificateSegs(m);
    CertificateShape(m);
    ReadMessage(segs, CERTIFICATE_SCHEMA, m.unknown);
    var fs := Parse(EncodeCertificate(m)).value;
    assert Payloads(fs, CERTIFICATE_SCHEMA[0]) == segs[0].payloads;
    ItemsOfList(1, EncodeItems(EncodeCertificateDetails, m.caCert));
    assert Payloads(fs, CERTIFICATE_SCHEMA[1]) == segs[1].payloads;
    ItemsOfList(2, EncodeItems(EncodeCertificateDetails, m.certChain));
  }

  lemma CertificateEmpty()
    ensures EncodeCertificate(EMPTY_CERTIFICATE) == [] && DecodeCertificate([]) == Some(EMPTY_CERTIFICATE)
  {
    assert EncodeItems(EncodeCertificateDetails, EMPTY_CERTIFICATE.caCert) == [];
    assert EncodeItems(EncodeCertificateDetails, EMPTY_CERTIFICATE.certChain) == [];
    EmptyBody(CertificateSegs(EMPTY_CERTIFICATE), 0);
  }

  lemma CertificateListRoundTrip(segs: seq<Segment>, j: nat, u: bytes, num: nat, items: seq<Ptr<Certificate>>)
    requires j < |segs| && segs[j] == ListSeg(num, EncodeItems(EncodeCertificate, items)) && |Body(segs, 0, u)| < TWO_63
    requires forall p :: p in items && p.Ref? ==> WellFormedCertificate(p.value)
    ensures DecodeItems(DecodeCertificate, Items(segs[j].payloads))
        == Some(NormalItems(NormalCertificate, EMPTY_CERTIFICATE, items))
  {
    hide Body, Items, ListSeg, EncodeCertificate, DecodeCertificate, NormalCertificate, WellFormedCertificate;
    forall p | p in items && p.Ref? ensures DecodeCertificate(EncodeCertificate(p.value))
        == Some(NormalCertificate(p.value)) {
      var k :| 0 <= k < |items| && items[k] == p;
      ItemFits(segs, j, u, num, EncodeItems(EncodeCertificate, items), k);
      CertificateRoundTrip(p.value);
    }
    CertificateEmpty();
    ItemsOfList(num, EncodeItems(EncodeCertificate, items));
    ItemsRoundTrip(EncodeCertificate, DecodeCertificate, NormalCertificate, EMPTY_CERTIFICATE, items);
  }

  // ---------------------------------------------------------------- Certificates

  datatype Certificates = Certificates(certificates: seq<Ptr<Certificate>>, unknown: bytes)

  const CERTIFICATES_SCHEMA: seq<Key> := [Key(1, 2)]

  function CertificatesSegs(m: Certificates): seq<Segment> {
    [ListSeg(1, EncodeItems(EncodeCertificate, m.certificates))]
  }

  function EncodeCertificates(m: Certificates): bytes {
    Body(CertificatesSegs(m), 0, m.unknown)
  }

  method MarshalCertificates(p: Ptr<Certificates>, buf: array<byte>, end: nat) returns (n: nat)
    requires |EncodePtr(EncodeCertificates, p)| <= end <= buf.Length
    modifies buf
    ensures n == |EncodePtr(EncodeCertificates, p)|
    ensures Filled(buf[..], old(buf[..]), end - n, EncodePtr(EncodeCertificates, p))
  {
    hide Reached, Counted, Body, VarintBytes, StringSeg, IntSeg, BoolSeg, ChildSeg, ListSeg, DoubleSeg;
    if p.Nil? {
      FillNothing(buf[..], end);
      return 0;
    }
    var m := p.value;
    ghost var t := Task(buf[..], end, CertificatesSegs(m), m.unknown);
    OneByteTags();
    var i := PutUnknown(buf, m.unknown, end, t);
    i := PutCertificateList(buf, i, [0x0a], m.certificates, 1, t, 0);
    Finished(buf[..], t, i);
    n := end - i;
  }

  method SizeCertificates(p: Ptr<Certificates>) returns (n: nat)
    ensures n == |EncodePtr(EncodeCertificates, p)|
  {
    hide Reached, Counted, Body, VarintBytes, StringSeg, IntSeg, BoolSeg, ChildSeg, ListSeg, DoubleSeg;
    if p.Nil? { return 0; }
    var m := p.value;
    ghost var t := Task([], 0, CertificatesSegs(m), m.unknown);
    OneByteTags();
    n := StartSize(t);
    n := SizeCertificateList(n, 1, m.certificates, 1, t, 0);
    n := SizeUnknown(n, m.unknown, t);
  }

  function DecodeCertificates(s: bytes): Option<Certificates> {
    var fs :- Parse(s);
    var certificates :- DecodeItems(DecodeCertificate, Items(Payloads(fs, Key(1, 2))));
    Some(Certificates(
      certificates,
      Unrecognised(fs, CERTIFICATES_SCHEMA)))
  }

  function NormalCertificates(m: Certificates): Certificates {
    m.(certificates := NormalItems(NormalCertificate, EMPTY_CERTIFICATE, m.certificates))
  }

  predicate WellFormedCertificates(m: Certificates) {
    && WellFormedUnknown(m.unknown, CERTIFICATES_SCHEMA)
    && (forall p :: p in m.certificates && p.Ref? ==> WellFormedCertificate(p.value))
  }

  lemma CertificatesShape(m: Certificates)
    ensures Shaped(CertificatesSegs(m), CERTIFICATES_SCHEMA) && Ascending(CERTIFICATES_SCHEMA)
  {
    hide ShapedSegment, StringSeg, IntSeg, BoolSeg, ChildSeg, ListSeg, DoubleSeg;
  }

  lemma CertificatesRoundTrip(m: Certificates)
    requires WellFormedCertificates(m) && |EncodeCertificates(m)| < TWO_63
    ensures DecodeCertificates(EncodeCertificates(m)) == Some(NormalCertificates(m))
  {
    hide Parse, Body, Payloads, Unrecognised, ShapedSegment, Items, Merged, LastData, LastInt, U64;
    var segs := CertificatesSegs(m);
    CertificatesShape(m);
    ReadMessage(segs, CERTIFICATES_SCHEMA, m.unknown);
    var fs := Parse(EncodeCertificates(m)).value;
    assert Payloads(fs, CERTIFICATES_SCHEMA[0]) == segs[0].payloads;
    CertificateListRoundTrip(segs, 0, m.unknown, 1, m.certificates);
  }

  /** Which record carries which field, and when it is there at all. */
  lemma CertificatesLayout(m: Certificates)
    requires WellFormedUnknown(m.unknown, CERTIFICATES_SCHEMA) && |EncodeCertificates(m)| < TWO_63
    ensures Parse(EncodeCertificates(m)).Some?
    ensures var fs := Parse(EncodeCertificates(m)).value;
            && Items(Payloads(fs, Key(1, 2))) == EncodeItems(EncodeCertificate, m.certificates)
            && Unrecognised(fs, CERTIFICATES_SCHEMA) == m.unknown
  {
    hide Parse, Body, Payloads, Unrecognised, ShapedSegment, Items, WellFormedUnknown, EncodeCertificate;
    var segs := CertificatesSegs(m);
    CertificatesShape(m);
    ReadMessage(segs, CERTIFICATES_SCHEMA, m.unknown);
    var fs := Parse(EncodeCertificates(m)).value;
    assert Payloads(fs, CERTIFICATES_SCHEMA[0]) == segs[0].payloads;
    ItemsOfList(1, EncodeItems(EncodeCertificate, m.certificates));
  }
}
