/** The round trip of the certificate tree holds on exactly the trees it is claimed for: unknown bytes
    that do not parse, or that hold a field of the schema, never come back. */
module Exactness {
  import opened Wire
  import opened Buffer
  import opened Message
  import opened AltName
  import opened CertsV3

  // ---------------------------------------------------------------- one message

  lemma ParseHead(s: bytes)
    requires s != [] && Parse(s).Some?
    ensures ReadField(s).Some? && Parse(s[ReadField(s).value.1..]).Some?
  {
    hide ReadField;
  }

  /** What follows a well-formed prefix must be well formed itself. */
  lemma {:induction false} ParseTail(a: bytes, b: bytes)
    requires Parse(a).Some? && Parse(a + b).Some?
    ensures Parse(b).Some?
    decreases |a|
  {
    hide Parse, ReadField;
    if a == [] {
      assert a + b == b;
    } else {
      ParseHead(a);
      ParseHead(a + b);
      ReadFieldPrefix(a, b);
      var n := ReadField(a).value.1;
      assert (a + b)[n..] == a[n..] + b;
      ParseTail(a[n..], b);
    }
  }

  lemma {:induction false} ParseBodyTail(segs: seq<Segment>, schema: seq<Key>, j: nat, u: bytes)
    requires Conforms(segs, schema) && Parse(Body(segs, j, u)).Some?
    ensures Parse(u).Some?
    decreases |segs| - j
  {
    hide Parse;
    if j < |segs| {
      ParseSegment(segs[j].key, segs[j].payloads);
      ParseTail(SegmentBytes(segs[j].key, segs[j].payloads), Body(segs, j + 1, u));
      ParseBodyTail(segs, schema, j + 1, u);
    }
  }

  /** The fields of the schema leave nothing unrecognised. */
  lemma {:induction false} UnrecognisedPastBody(segs: seq<Segment>, schema: seq<Key>, j: nat, us: seq<Field>)
    requires Conforms(segs, schema)
    ensures Unrecognised(BodyFields(segs, j, us), schema) == Unrecognised(us, schema)
    decreases |segs| - j
  {
    if j < |segs| {
      var here := SegmentFields(segs[j].key, segs[j].payloads);
      assert schema[j] in schema;
      UnrecognisedOfKnown(here, schema);
      UnrecognisedConcat(here, BodyFields(segs, j + 1, us), schema);
      UnrecognisedPastBody(segs, schema, j + 1, us);
    }
  }

  /** A recognised field costs at least one byte of what is left over. */
  lemma {:induction false} UnrecognisedShrinks(u: bytes, schema: seq<Key>)
    requires Parse(u).Some?
    ensures |Unrecognised(Parse(u).value, schema)| <= |u|
    ensures |Unrecognised(Parse(u).value, schema)| == |u| ==> WellFormedUnknown(u, schema)
    decreases |u|
  {
    if u != [] {
      var (f, n) := ReadField(u).value;
      ParseCons(u);
      UnrecognisedShrinks(u[n..], schema);
      UnrecognisedCons(f, Parse(u[n..]).value, schema);
    }
  }

  /** The unknown bytes of a message come back if and only if they parse and hold no field of the schema. */
  lemma UnknownComesBack(segs: seq<Segment>, schema: seq<Key>, u: bytes)
    requires Shaped(segs, schema) && Ascending(schema) && |Body(segs, 0, u)| < TWO_63
    ensures WellFormedUnknown(u, schema)
       <==> Parse(Body(segs, 0, u)).Some? && Unrecognised(Parse(Body(segs, 0, u)).value, schema) == u
  {
    hide Parse, Unrecognised, WellFormedUnknown, Body, BodyFields, Conforms, Shaped;
    if WellFormedUnknown(u, schema) {
      ReadMessage(segs, schema, u);
    } else if Parse(Body(segs, 0, u)).Some? {
      ShapedConforms(segs, schema, u);
      ParseBodyTail(segs, schema, 0, u);
      ConformsValid(segs, schema);
      ParseBody(segs, 0, u);
      UnrecognisedPastBody(segs, schema, 0, Parse(u).value);
      UnrecognisedShrinks(u, schema);
    }
  }

  lemma ConformsValid(segs: seq<Segment>, schema: seq<Key>)
    requires Conforms(segs, schema)
    ensures forall i :: 0 <= i < |segs| ==> ValidSegment(segs[i])
  {
  }

  // ---------------------------------------------------------------- lists of messages

  lemma {:induction false} DecodeItemsAt<M>(dec: bytes -> Option<M>, items: seq<bytes>, ms: seq<Ptr<M>>, k: nat)
    requires DecodeItems(dec, items) == Some(ms) && k < |items|
    ensures |ms| == |items| && ms[k].Ref? && dec(items[k]) == Some(ms[k].value)
  {
    if k > 0 {
      DecodeItemsAt(dec, items[1..], ms[1..], k - 1);
    } else if |items| > 1 {
      DecodeItemsAt(dec, items[1..], ms[1..], 0);
    }
  }

  /** A list comes back only if each of its elements does. */
  lemma ItemsComeBack<M>(enc: M -> bytes, dec: bytes -> Option<M>, norm: M -> M, empty: M, items: seq<Ptr<M>>)
    requires DecodeItems(dec, EncodeItems(enc, items)) == Some(NormalItems(norm, empty, items))
    ensures forall p :: p in items && p.Ref? ==> dec(enc(p.value)) == Some(norm(p.value))
  {
    forall p | p in items && p.Ref? ensures dec(enc(p.value)) == Some(norm(p.value)) {
      var k :| 0 <= k < |items| && items[k] == p;
      DecodeItemsAt(dec, EncodeItems(enc, items), NormalItems(norm, empty, items), k);
    }
  }

  // ---------------------------------------------------------------- the certificate tree

  lemma AltNameExactly(m: SubjectAlternateName)
    requires |EncodeSubjectAlternateName(m)| < TWO_63
    ensures DecodeSubjectAlternateName(EncodeSubjectAlternateName(m)) == Some(NormalSubjectAlternateName(m))
       <==> WellFormedSubjectAlternateName(m)
  {
    hide Parse, Body, Unrecognised, WellFormedUnknown, LastName, SubjectAlternateNameSegs;
    SubjectAlternateNameShape(m);
    UnknownComesBack(SubjectAlternateNameSegs(m), SUBJECT_ALTERNATE_NAME_SCHEMA, m.unknown);
    if WellFormedSubjectAlternateName(m) { SubjectAlternateNameRoundTrip(m); }
  }

  lemma OcspExactly(m: OcspDetails)
    requires |EncodeOcspDetails(m)| < TWO_63
    ensures DecodeOcspDetails(EncodeOcspDetails(m)) == Some(NormalOcspDetails(m)) <==> WellFormedOcspDetails(m)
  {
    hide Parse, Body, Payloads, Unrecognised, WellFormedUnknown, Merged, OcspDetailsSegs;
    OcspDetailsShape(m);
    UnknownComesBack(OcspDetailsSegs(m), OCSP_DETAILS_SCHEMA, m.unknown);
    if WellFormedOcspDetails(m) { OcspDetailsRoundTrip(m); }
  }

  lemma DetailsExactly(m: CertificateDetails)
    requires |EncodeCertificateDetails(m)| < TWO_63
    ensures DecodeCertificateDetails(EncodeCertificateDetails(m)) == Some(NormalCertificateDetails(m))
       <==> WellFormedCertificateDetails(m)
  {
    if WellFormedCertificateDetails(m) {
      CertificateDetailsRoundTrip(m);
    }
    DetailsOnlyIf(m);
  }

  lemma DetailsOnlyIf(m: CertificateDetails)
    requires |EncodeCertificateDetails(m)| < TWO_63
    ensures DecodeCertificateDetails(EncodeCertificateDetails(m)) == Some(NormalCertificateDetails(m))
        ==> WellFormedCertificateDetails(m)
  {
    hide Parse, Body, Payloads, Unrecognised, ShapedSegment, WellFormedUnknown, Items, Merged, LastData, LastInt, U64,
         DecodeSubjectAlternateName,
         EncodeSubjectAlternateName, DecodeOcspDetails, EncodeOcspDetails, CertificateDetailsSegs,
             WellFormedSubjectAlternateName, WellFormedOcspDetails;
    if DecodeCertificateDetails(EncodeCertificateDetails(m)) != Some(NormalCertificateDetails(m)) { return; }
    var segs := CertificateDetailsSegs(m);
    CertificateDetailsShape(m);
    CertificateDetailsAt(m);
    UnknownComesBack(segs, CERTIFICATE_DETAILS_SCHEMA, m.unknown);
    ReadMessage(segs, CERTIFICATE_DETAILS_SCHEMA, m.unknown);
    var fs := Parse(EncodeCertificateDetails(m)).value;
    assert Payloads(fs, CERTIFICATE_DETAILS_SCHEMA[2]) == segs[2].payloads;
    var names := EncodeItems(EncodeSubjectAlternateName, m.subjectAltNames);
    ItemsOfList(3, names);
    ItemsComeBack(EncodeSubjectAlternateName, DecodeSubjectAlternateName, NormalSubjectAlternateName,
        EMPTY_SUBJECT_ALTERNATE_NAME, m.subjectAltNames);
    forall p | p in m.subjectAltNames && p.Ref? ensures WellFormedSubjectAlternateName(p.value) {
      var k :| 0 <= k < |m.subjectAltNames| && m.subjectAltNames[k] == p;
      ItemFits(segs, 2, m.unknown, 3, names, k);
      AltNameExactly(p.value);
    }
    assert Payloads(fs, CERTIFICATE_DETAILS_SCHEMA[6]) == segs[6].payloads;
    var ocsp := EncodeChild(EncodeOcspDetails, m.ocspDetails);
    MergedChild(7, ocsp);
    if m.ocspDetails.Ref? {
      ChildFits(segs, 6, m.unknown, 7, ocsp);
      OcspExactly(m.ocspDetails.value);
    }
  }

  /** One list of details inside a body. */
  lemma DetailsListOnlyIf(segs: seq<Segment>, j: nat, u: bytes, num: nat, items: seq<Ptr<CertificateDetails>>)
    requires j < |segs| && segs[j] == ListSeg(num, EncodeItems(EncodeCertificateDetails, items))
        && |Body(segs, 0, u)| < TWO_63
    requires DecodeItems(DecodeCertificateDetails, Items(segs[j].payloads))
          == Some(NormalItems(NormalCertificateDetails, EMPTY_CERTIFICATE_DETAILS, items))
    ensures forall p :: p in items && p.Ref? ==> WellFormedCertificateDetails(p.value)
  {
    hide Body, Items, DecodeCertificateDetails, EncodeCertificateDetails, NormalCertificateDetails,
         WellFormedCertificateDetails;
    var raw := EncodeItems(EncodeCertificateDetails, items);
    ItemsOfList(num, raw);
    ItemsComeBack(EncodeCertificateDetails, DecodeCertificateDetails, NormalCertificateDetails,
        EMPTY_CERTIFICATE_DETAILS, items);
    forall p | p in items && p.Ref? ensures WellFormedCertificateDetails(p.value) {
      var k :| 0 <= k < |items| && items[k] == p;
      ItemFits(segs, j, u, num, raw, k);
      DetailsExactly(p.value);
    }
  }

  lemma CertificateOnlyIf(m: Certificate)
    requires |EncodeCertificate(m)| < TWO_63
    ensures DecodeCertificate(EncodeCertificate(m)) == Some(NormalCertificate(m)) ==> WellFormedCertificate(m)
  {
    hide Parse, Body, Payloads, Unrecognised, ShapedSegment, WellFormedUnknown, Items, DecodeCertificateDetails,
         EncodeCertificateDetails,
         NormalCertificateDetails, WellFormedCertificateDetails;
    if DecodeCertificate(EncodeCertificate(m)) != Some(NormalCertificate(m)) { return; }
    var segs := CertificateSegs(m);
    CertificateShape(m);
    UnknownComesBack(segs, CERTIFICATE_SCHEMA, m.unknown);
    ReadMessage(segs, CERTIFICATE_SCHEMA, m.unknown);
    var fs := Parse(EncodeCertificate(m)).value;
    assert Payloads(fs, CERTIFICATE_SCHEMA[0]) == segs[0].payloads;
    DetailsListOnlyIf(segs, 0, m.unknown, 1, m.caCert);
    assert Payloads(fs, CERTIFICATE_SCHEMA[1]) == segs[1].payloads;
    DetailsListOnlyIf(segs, 1, m.unknown, 2, m.certChain);
  }

  lemma CertificatesOnlyIf(m: Certificates)
    requires |EncodeCertificates(m)| < TWO_63
    ensures DecodeCertificates(EncodeCertificates(m)) == Some(NormalCertificates(m)) ==> WellFormedCertificates(m)
  {
    hide Parse, Body, Payloads, Unrecognised, ShapedSegment, WellFormedUnknown, Items, DecodeCertificate,
         EncodeCertificate, NormalCertificate,
         WellFormedCertificate;
    if DecodeCertificates(EncodeCertificates(m)) != Some(NormalCertificates(m)) { return; }
    var segs := CertificatesSegs(m);
    CertificatesShape(m);
    UnknownComesBack(segs, CERTIFICATES_SCHEMA, m.unknown);
    ReadMessage(segs, CERTIFICATES_SCHEMA, m.unknown);
    var fs := Parse(EncodeCertificates(m)).value;
    assert Payloads(fs, CERTIFICATES_SCHEMA[0]) == segs[0].payloads;
    var raw := EncodeItems(EncodeCertificate, m.certificates);
    ItemsOfList(1, raw);
    ItemsComeBack(EncodeCertificate, DecodeCertificate, NormalCertificate, EMPTY_CERTIFICATE, m.certificates);
    forall p | p in m.certificates && p.Ref? ensures WellFormedCertificate(p.value) {
      var k :| 0 <= k < |m.certificates| && m.certificates[k] == p;
      ItemFits(segs, 0, m.unknown, 1, raw, k);
      CertificateOnlyIf(p.value);
    }
  }

  /** A certificate tree comes back from its bytes if and only if, at every level, its unknown bytes parse
      and hold no field of that level's schema. */
  lemma CertificatesExactly(m: Certificates)
    requires |EncodeCertificates(m)| < TWO_63
    ensures DecodeCertificates(EncodeCertificates(m)) == Some(NormalCertificates(m)) <==> WellFormedCertificates(m)
  {
    hide DecodeCertificates, EncodeCertificates, NormalCertificates, WellFormedCertificates;
    if WellFormedCertificates(m) {
      CertificatesRoundTrip(m);
    }
    CertificatesOnlyIf(m);
  }
}
