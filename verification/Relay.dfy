/** A v2alpha reader between two v3 programs loses nothing: reading a v3 certificate dump with the
    v2alpha schema and writing it again gives the same bytes at every level of the tree. */
module Relay {
  import opened Wire
  import opened Buffer
  import opened Message
  import opened AltName
  import Old = CertsV2
  import New = CertsV3

  /** If every element survives the relay, so does the list, nil elements included. */
  lemma RelayItems<A, B>(write: A -> bytes, read: bytes -> Option<B>, rewrite: B -> bytes, empty: B, items: seq<Ptr<A>>)
    requires forall p :: p in items && p.Ref? ==>
        read(write(p.value)).Some? && rewrite(read(write(p.value)).value) == write(p.value)
    requires read([]) == Some(empty) && rewrite(empty) == []
    ensures var back := DecodeItems(read, EncodeItems(write, items));
            back.Some? && EncodeItems(rewrite, back.value) == EncodeItems(write, items)
  {
    var raw := EncodeItems(write, items);
    forall k | 0 <= k < |raw| ensures read(raw[k]).Some? && rewrite(read(raw[k]).value) == raw[k] {
      assert items[k] in items;
    }
    var back := seq(|raw|, k requires 0 <= k < |raw| => Ref(read(raw[k]).value));
    DecodeItemsIs(read, raw, back);
    assert EncodeItems(rewrite, back) == raw;
  }

  // ---------------------------------------------------------------- SubjectAlternateName

  lemma AltNameRelay(segs: seq<Segment>, j: nat, u: bytes, num: nat, items: seq<Ptr<SubjectAlternateName>>)
    requires j < |segs| && segs[j] == ListSeg(num, EncodeItems(EncodeSubjectAlternateName, items))
        && |Body(segs, 0, u)| < TWO_63
    requires forall p :: p in items && p.Ref? ==> WellFormedSubjectAlternateName(p.value)
    ensures var back := DecodeItems(DecodeSubjectAlternateName, Items(segs[j].payloads));
            back.Some? && EncodeItems(EncodeSubjectAlternateName, back.value)
                == EncodeItems(EncodeSubjectAlternateName, items)
  {
    forall p | p in items && p.Ref?
      ensures DecodeSubjectAlternateName(EncodeSubjectAlternateName(p.value)) == Some(p.value)
    {
      var k :| 0 <= k < |items| && items[k] == p;
      ItemFits(segs, j, u, num, EncodeItems(EncodeSubjectAlternateName, items), k);
      SubjectAlternateNameRoundTrip(p.value);
    }
    ItemsOfList(num, EncodeItems(EncodeSubjectAlternateName, items));
    SubjectAlternateNameEmpty();
    RelayItems(EncodeSubjectAlternateName, DecodeSubjectAlternateName, EncodeSubjectAlternateName,
        EMPTY_SUBJECT_ALTERNATE_NAME, items);
  }

  // ---------------------------------------------------------------- CertificateDetails

  /** What the relay needs of the v3 message: its unrecognised bytes are well formed and hold no
      field the v2alpha schema knows. OcspDetails is carried as an unrecognised field, so nothing
      is asked of it. */
  predicate RelayableDetails(m: New.CertificateDetails) {
    && WellFormedUnknown(m.unknown, Old.CERTIFICATE_DETAILS_SCHEMA)
    && (forall p :: p in m.subjectAltNames && p.Ref? ==> WellFormedSubjectAlternateName(p.value))
  }

  lemma LastBlock(segs: seq<Segment>, us: seq<Field>)
    requires |segs| == 7
    ensures BodyFields(segs, 6, us) == SegmentFields(segs[6].key, segs[6].payloads) + us
  {
    assert BodyFields(segs, 7, us) == us;
  }

  /** To v2alpha, the OcspDetails record is one more unrecognised field. */
  lemma OcspIsUnknown(m: New.CertificateDetails)
    requires WellFormedUnknown(m.unknown, Old.CERTIFICATE_DETAILS_SCHEMA) && |New.EncodeCertificateDetails(m)| < TWO_63
    ensures WellFormedUnknown(Body(New.CertificateDetailsSegs(m), 6, m.unknown), Old.CERTIFICATE_DETAILS_SCHEMA)
  {
    hide Parse, Body, BodyFields, SegmentFields, ValidSegment, ShapedSegment, New.CertificateDetailsSegs, StringSeg,
         IntSeg, ListSeg, ChildSeg;
    var segs := New.CertificateDetailsSegs(m);
    New.CertificateDetailsShape(m);
    New.CertificateDetailsAt(m);
    ShapedConforms(segs, New.CERTIFICATE_DETAILS_SCHEMA, m.unknown);
    ParseBody(segs, 6, m.unknown);
    LastBlock(segs, Parse(m.unknown).value);
    var ocsp := SegmentFields(segs[6].key, segs[6].payloads);
    assert forall f :: f in ocsp ==> f.key == Key(7, 2);
    assert Key(7, 2) !in Old.CERTIFICATE_DETAILS_SCHEMA;
  }

  /** The first six segments of the v3 message have the shape of a v2alpha message. */
  lemma OldShape(m: New.CertificateDetails)
    ensures Shaped(New.CertificateDetailsSegs(m)[..6], Old.CERTIFICATE_DETAILS_SCHEMA)
    ensures Ascending(Old.CERTIFICATE_DETAILS_SCHEMA)
  {
    hide ShapedSegment;
    New.CertificateDetailsShape(m);
  }

  lemma DetailsRelay(m: New.CertificateDetails)
    requires RelayableDetails(m) && |New.EncodeCertificateDetails(m)| < TWO_63
    ensures var read := Old.DecodeCertificateDetails(New.EncodeCertificateDetails(m));
            read.Some? && Old.EncodeCertificateDetails(read.value) == New.EncodeCertificateDetails(m)
  {
    hide Parse, Body, Payloads, Unrecognised, ShapedSegment, Items, Merged, LastData, LastInt, U64, WellFormedUnknown;
    var segs, schema := New.CertificateDetailsSegs(m)[..6], Old.CERTIFICATE_DETAILS_SCHEMA;
    var rest := Body(New.CertificateDetailsSegs(m), 6, m.unknown);
    SplitBody(New.CertificateDetailsSegs(m), 6, 0, m.unknown);
    OcspIsUnknown(m);
    OldShape(m);
    ReadMessage(segs, schema, rest);
    var fs := Parse(Body(segs, 0, rest)).value;
    New.CertificateDetailsAt(m);
    assert Payloads(fs, schema[0]) == segs[0].payloads;
    StringBack(1, m.path);
    assert Payloads(fs, schema[1]) == segs[1].payloads;
    StringBack(2, m.serialNumber);
    assert Payloads(fs, schema[2]) == segs[2].payloads;
    AltNameRelay(segs, 2, rest, 3, m.subjectAltNames);
    assert Payloads(fs, schema[3]) == segs[3].payloads;
    IntBack(4, m.daysUntilExpiration);
    assert Payloads(fs, schema[4]) == segs[4].payloads;
    MergedChild(5, m.validFrom);
    assert Payloads(fs, schema[5]) == segs[5].payloads;
    MergedChild(6, m.expirationTime);
    var read := Old.DecodeCertificateDetails(New.EncodeCertificateDetails(m)).value;
    Old.CertificateDetailsAt(read);
    assert Old.CertificateDetailsSegs(read) == segs;
  }

  lemma DetailsListRelay(segs: seq<Segment>, j: nat, u: bytes, num: nat, items: seq<Ptr<New.CertificateDetails>>)
    requires j < |segs| && segs[j] == ListSeg(num, EncodeItems(New.EncodeCertificateDetails, items))
        && |Body(segs, 0, u)| < TWO_63
    requires forall p :: p in items && p.Ref? ==> RelayableDetails(p.value)
    ensures var back := DecodeItems(Old.DecodeCertificateDetails, Items(segs[j].payloads));
            back.Some? && EncodeItems(Old.EncodeCertificateDetails, back.value)
                == EncodeItems(New.EncodeCertificateDetails, items)
  {
    forall p | p in items && p.Ref?
      ensures var read := Old.DecodeCertificateDetails(New.EncodeCertificateDetails(p.value));
              read.Some? && Old.EncodeCertificateDetails(read.value) == New.EncodeCertificateDetails(p.value)
    {
      var k :| 0 <= k < |items| && items[k] == p;
      ItemFits(segs, j, u, num, EncodeItems(New.EncodeCertificateDetails, items), k);
      DetailsRelay(p.value);
    }
    ItemsOfList(num, EncodeItems(New.EncodeCertificateDetails, items));
    Old.CertificateDetailsEmpty();
    RelayItems(New.EncodeCertificateDetails, Old.DecodeCertificateDetails, Old.EncodeCertificateDetails,
        Old.EMPTY_CERTIFICATE_DETAILS, items);
  }

  // ---------------------------------------------------------------- Certificate

  predicate RelayableCertificate(m: New.Certificate) {
    && WellFormedUnknown(m.unknown, Old.CERTIFICATE_SCHEMA)
    && (forall p :: p in m.caCert && p.Ref? ==> RelayableDetails(p.value))
    && (forall p :: p in m.certChain && p.Ref? ==> RelayableDetails(p.value))
  }

  lemma CertificateRelay(m: New.Certificate)
    requires RelayableCertificate(m) && |New.EncodeCertificate(m)| < TWO_63
    ensures var read := Old.DecodeCertificate(New.EncodeCertificate(m));
            read.Some? && Old.EncodeCertificate(read.value) == New.EncodeCertificate(m)
  {
    hide Parse, Body, Payloads, Unrecognised, ShapedSegment, Items, WellFormedUnknown;
    var segs := New.CertificateSegs(m);
    New.CertificateShape(m);
    ReadMessage(segs, Old.CERTIFICATE_SCHEMA, m.unknown);
    var fs := Parse(Body(segs, 0, m.unknown)).value;
    assert Payloads(fs, Old.CERTIFICATE_SCHEMA[0]) == segs[0].payloads;
    DetailsListRelay(segs, 0, m.unknown, 1, m.caCert);
    assert Payloads(fs, Old.CERTIFICATE_SCHEMA[1]) == segs[1].payloads;
    DetailsListRelay(segs, 1, m.unknown, 2, m.certChain);
    var read := Old.DecodeCertificate(New.EncodeCertificate(m)).value;
    assert Old.CertificateSegs(read) == segs;
  }

  // ---------------------------------------------------------------- Certificates

  predicate RelayableCertificates(m: New.Certificates) {
    && WellFormedUnknown(m.unknown, Old.CERTIFICATES_SCHEMA)
    && (forall p :: p in m.certificates && p.Ref? ==> RelayableCertificate(p.value))
  }

  /** The relay theorem for the whole tree. */
  lemma CertificatesRelay(m: New.Certificates)
    requires RelayableCertificates(m) && |New.EncodeCertificates(m)| < TWO_63
    ensures var read := Old.DecodeCertificates(New.EncodeCertificates(m));
            read.Some? && Old.EncodeCertificates(read.value) == New.EncodeCertificates(m)
  {
    hide Parse, Body, Payloads, Unrecognised, Items, ShapedSegment, WellFormedUnknown, New.EncodeCertificate,
         Old.EncodeCertificate,
         Old.DecodeCertificate, RelayableCertificate;
    var segs := New.CertificatesSegs(m);
    New.CertificatesShape(m);
    ReadMessage(segs, Old.CERTIFICATES_SCHEMA, m.unknown);
    var fs := Parse(Body(segs, 0, m.unknown)).value;
    assert Payloads(fs, Old.CERTIFICATES_SCHEMA[0]) == segs[0].payloads;
    forall p | p in m.certificates && p.Ref?
      ensures var read := Old.DecodeCertificate(New.EncodeCertificate(p.value));
              read.Some? && Old.EncodeCertificate(read.value) == New.EncodeCertificate(p.value)
    {
      var k :| 0 <= k < |m.certificates| && m.certificates[k] == p;
      ItemFits(segs, 0, m.unknown, 1, EncodeItems(New.EncodeCertificate, m.certificates), k);
      CertificateRelay(p.value);
    }
    ItemsOfList(1, EncodeItems(New.EncodeCertificate, m.certificates));
    Old.CertificateEmpty();
    RelayItems(New.EncodeCertificate, Old.DecodeCertificate, Old.EncodeCertificate, Old.EMPTY_CERTIFICATE,
        m.certificates);
    var read := Old.DecodeCertificates(New.EncodeCertificates(m)).value;
    assert Old.CertificatesSegs(read) == segs;
  }

  lemma FewerFields(u: bytes, schema: seq<Key>, smaller: seq<Key>)
    requires WellFormedUnknown(u, schema) && smaller <= schema
    ensures WellFormedUnknown(u, smaller)
  {
    hide Parse;
    assert forall k :: k in smaller ==> k in schema;
  }

  lemma DetailsRelayable(m: New.CertificateDetails)
    requires New.WellFormedCertificateDetails(m)
    ensures RelayableDetails(m)
  {
    hide WellFormedUnknown, WellFormedSubjectAlternateName;
    FewerFields(m.unknown, New.CERTIFICATE_DETAILS_SCHEMA, Old.CERTIFICATE_DETAILS_SCHEMA);
  }

  lemma CertificateRelayable(m: New.Certificate)
    requires New.WellFormedCertificate(m)
    ensures RelayableCertificate(m)
  {
    hide WellFormedUnknown, New.WellFormedCertificateDetails, RelayableDetails;
    forall p | (p in m.caCert || p in m.certChain) && p.Ref? ensures RelayableDetails(p.value) {
      DetailsRelayable(p.value);
    }
  }

  /** A tree that round trips under v3 can also be relayed. */
  lemma WellFormedIsRelayable(m: New.Certificates)
    requires New.WellFormedCertificates(m)
    ensures RelayableCertificates(m)
  {
    hide WellFormedUnknown, New.WellFormedCertificate, RelayableCertificate;
    forall p | p in m.certificates && p.Ref? ensures RelayableCertificate(p.value) {
      CertificateRelayable(p.value);
    }
  }

  /** So a v3 reader behind a v2alpha relay gets back what the v3 writer meant. */
  lemma CertificatesThroughRelay(m: New.Certificates)
    requires New.WellFormedCertificates(m) && |New.EncodeCertificates(m)| < TWO_63
    ensures var read := Old.DecodeCertificates(New.EncodeCertificates(m));
            read.Some? && New.DecodeCertificates(Old.EncodeCertificates(read.value)) == Some(New.NormalCertificates(m))
  {
    hide New.WellFormedCertificates, New.EncodeCertificates, New.DecodeCertificates, Old.EncodeCertificates,
         Old.DecodeCertificates,
         RelayableCertificates, New.NormalCertificates;
    WellFormedIsRelayable(m);
    CertificatesRelay(m);
    New.CertificatesRoundTrip(m);
  }
}
