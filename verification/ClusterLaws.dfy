/** The two versions of the cluster status tree against each other, and independence of which
    encoder a foreign child uses. */
module ClusterLaws {
  import opened Wire
  import opened Buffer
  import opened Message
  import opened Metrics
  import opened ForeignChild
  import Old = ClustersV2
  import New = ClustersV3

  /** A conversion of foreign children that keeps what their selected encoder writes: another
      branch, or the same child in the other API version. */
  ghost predicate KeepsPayload(conv: Foreign -> Foreign) {
    forall f :: ChosenMarshal(conv(f)) == ChosenMarshal(f)
  }

  function Convert(conv: Foreign -> Foreign, p: Ptr<Foreign>): Ptr<Foreign> {
    if p.Nil? then Nil else Ref(conv(p.value))
  }

  lemma ConvertKeeps(conv: Foreign -> Foreign)
    requires KeepsPayload(conv)
    ensures forall p :: ForeignPayload(Convert(conv, p)) == ForeignPayload(p)
    ensures forall p :: CanEncode(Convert(conv, p)) <==> CanEncode(p)
  {
  }

  function LiftItems<A, B>(lift: A -> B, items: seq<Ptr<A>>): seq<Ptr<B>> {
    seq(|items|, k requires 0 <= k < |items| => if items[k].Nil? then Nil else Ref(lift(items[k].value)))
  }

  lemma LiftItemsBytes<A, B>(lift: A -> B, oldEnc: A -> bytes, newEnc: B -> bytes, items: seq<Ptr<A>>)
    requires forall p :: p in items && p.Ref? ==> newEnc(lift(p.value)) == oldEnc(p.value)
    ensures EncodeItems(newEnc, LiftItems(lift, items)) == EncodeItems(oldEnc, items)
  {
    forall k | 0 <= k < |items|
      ensures EncodeItems(newEnc, LiftItems(lift, items))[k] == EncodeItems(oldEnc, items)[k]
    {
      assert items[k] in items;
    }
  }

  /** Fields that are not set add no bytes, wherever the schema puts them after the known ones. */
  lemma {:induction false} UnsetFieldsAddNothing(segs: seq<Segment>, extra: seq<Segment>, j: nat, u: bytes)
    requires forall i :: 0 <= i < |extra| ==> extra[i].payloads == []
    ensures Body(segs + extra, j, u) == Body(segs, j, u)
    decreases |segs| + |extra| - j
  {
    if j < |segs| + |extra| { UnsetFieldsAddNothing(segs, extra, j + 1, u); }
  }

  // ---------------------------------------------------------------- lifting v2alpha to v3

  function LiftHealth(m: Old.HostHealthStatus): New.HostHealthStatus {
    New.HostHealthStatus(m.failedActiveHealthCheck, m.failedOutlierCheck, m.edsHealthStatus,
        m.failedActiveDegradedCheck,
                         m.pendingDynamicRemoval, m.pendingActiveHc, false, false, false, m.unknown)
  }

  function LiftHealthPtr(p: Ptr<Old.HostHealthStatus>): Ptr<New.HostHealthStatus> {
    if p.Nil? then Nil else Ref(LiftHealth(p.value))
  }

  function LiftHost(conv: Foreign -> Foreign, m: Old.HostStatus): New.HostStatus {
    New.HostStatus(Convert(conv, m.address), m.stats, LiftHealthPtr(m.healthStatus), Convert(conv, m.successRate),
        m.weight,
                   m.hostname, m.priority, Convert(conv, m.localOriginSuccessRate), Convert(conv, m.locality),
                       m.unknown)
  }

  function LiftCluster(conv: Foreign -> Foreign, m: Old.ClusterStatus): New.ClusterStatus {
    New.ClusterStatus(m.name, m.addedViaApi, Convert(conv, m.successRateEjectionThreshold),
                      LiftItems(h => LiftHost(conv, h), m.hostStatuses),
                      Convert(conv, m.localOriginSuccessRateEjectionThreshold), Nil, [], [], m.unknown)
  }

  function LiftClusters(conv: Foreign -> Foreign, m: Old.Clusters): New.Clusters {
    New.Clusters(LiftItems(c => LiftCluster(conv, c), m.clusterStatuses), m.unknown)
  }

  lemma LiftHealthBytes(m: Old.HostHealthStatus)
    ensures New.EncodeHostHealthStatus(LiftHealth(m)) == Old.EncodeHostHealthStatus(m)
  {
    hide Body;
    var extra := [BoolSeg(7, false), BoolSeg(8, false), BoolSeg(9, false)];
    New.HostHealthStatusAt(LiftHealth(m));
    Old.HostHealthStatusAt(m);
    assert New.HostHealthStatusSegs(LiftHealth(m)) == Old.HostHealthStatusSegs(m) + extra;
    UnsetFieldsAddNothing(Old.HostHealthStatusSegs(m), extra, 0, m.unknown);
  }

  lemma LiftHostBytes(conv: Foreign -> Foreign, m: Old.HostStatus)
    requires KeepsPayload(conv)
    ensures New.EncodeHostStatus(LiftHost(conv, m)) == Old.EncodeHostStatus(m)
  {
    hide Body, ChildSeg, ListSeg, StringSeg, IntSeg, New.HostStatusSegs, Old.HostStatusSegs;
    ConvertKeeps(conv);
    if m.healthStatus.Ref? { LiftHealthBytes(m.healthStatus.value); }
    New.HostStatusAt(LiftHost(conv, m));
    Old.HostStatusAt(m);
    assert New.HostStatusSegs(LiftHost(conv, m)) == Old.HostStatusSegs(m);
  }

  lemma LiftClusterBytes(conv: Foreign -> Foreign, m: Old.ClusterStatus)
    requires KeepsPayload(conv)
    ensures New.EncodeClusterStatus(LiftCluster(conv, m)) == Old.EncodeClusterStatus(m)
  {
    hide Body;
    var lift := (h: Old.HostStatus) => LiftHost(conv, h);
    forall p | p in m.hostStatuses && p.Ref? ensures New.EncodeHostStatus(lift(p.value))
        == Old.EncodeHostStatus(p.value) {
      LiftHostBytes(conv, p.value);
    }
    LiftItemsBytes(lift, Old.EncodeHostStatus, New.EncodeHostStatus, m.hostStatuses);
    LiftClusterSegs(conv, m, lift);
    var extra := [ChildSeg(6, Nil), StringSeg(7, []), StringSeg(8, [])];
    UnsetFieldsAddNothing(Old.ClusterStatusSegs(m), extra, 0, m.unknown);
  }

  lemma LiftClusterSegs(conv: Foreign -> Foreign, m: Old.ClusterStatus, lift: Old.HostStatus -> New.HostStatus)
    requires KeepsPayload(conv)
    requires lift == (h => LiftHost(conv, h))
    requires EncodeItems(New.EncodeHostStatus, LiftItems(lift, m.hostStatuses))
        == EncodeItems(Old.EncodeHostStatus, m.hostStatuses)
    ensures New.ClusterStatusSegs(LiftCluster(conv, m))
         == Old.ClusterStatusSegs(m) + [ChildSeg(6, Nil), StringSeg(7, []), StringSeg(8, [])]
  {
    hide New.EncodeHostStatus, Old.EncodeHostStatus;
    New.ClusterStatusAt(LiftCluster(conv, m));
    Old.ClusterStatusAt(m);
  }

  /** A v2alpha tree lifted to v3, with the added fields at their defaults, has the same bytes. */
  lemma LiftingKeepsBytes(conv: Foreign -> Foreign, m: Old.Clusters)
    requires KeepsPayload(conv)
    ensures New.EncodeClusters(LiftClusters(conv, m)) == Old.EncodeClusters(m)
  {
    hide Body;
    var lift := (c: Old.ClusterStatus) => LiftCluster(conv, c);
    forall p | p in m.clusterStatuses && p.Ref?
      ensures New.EncodeClusterStatus(lift(p.value)) == Old.EncodeClusterStatus(p.value)
    {
      LiftClusterBytes(conv, p.value);
    }
    LiftItemsBytes(lift, Old.EncodeClusterStatus, New.EncodeClusterStatus, m.clusterStatuses);
    assert New.ClustersSegs(LiftClusters(conv, m)) == Old.ClustersSegs(m);
  }

  /** So a v3 reader of v2alpha bytes gets the lifted tree. */
  lemma LiftedReads(conv: Foreign -> Foreign, m: Old.Clusters)
    requires KeepsPayload(conv) && New.WellFormedClusters(LiftClusters(conv, m)) && |Old.EncodeClusters(m)| < TWO_63
    ensures New.DecodeClusters(Old.EncodeClusters(m)) == Some(New.NormalClusters(LiftClusters(conv, m)))
  {
    hide New.DecodeClusters, New.EncodeClusters, Old.EncodeClusters, New.NormalClusters, LiftClusters,
         New.WellFormedClusters;
    LiftingKeepsBytes(conv, m);
    New.ClustersRoundTrip(LiftClusters(conv, m));
  }

  /** Two cluster trees have the same bytes exactly when they are equal up to nil against empty list
      elements and up to how a foreign child came by its payload. */
  lemma ClustersInjective(a: New.Clusters, b: New.Clusters)
    requires New.WellFormedClusters(a) && |New.EncodeClusters(a)| < TWO_63
    requires New.WellFormedClusters(b) && |New.EncodeClusters(b)| < TWO_63
    ensures New.EncodeClusters(a) == New.EncodeClusters(b) <==> New.NormalClusters(a) == New.NormalClusters(b)
  {
    hide New.DecodeClusters, New.EncodeClusters, New.NormalClusters, New.WellFormedClusters;
    New.ClustersRoundTrip(a);
    New.ClustersRoundTrip(b);
    New.ClustersSameBytes(a);
    New.ClustersSameBytes(b);
  }

  // ---------------------------------------------------------------- branch independence

  /** For each foreign child of a host, whether it is found to have its own functions. */
  datatype Branches = Branches(address: bool, successRate: bool, localOriginSuccessRate: bool, locality: bool)

  /** The same host with its foreign children taking the given branches. */
  function Rebranch(b: Branches, m: New.HostStatus): New.HostStatus {
    m.(address := Switch(m.address, b.address), successRate := Switch(m.successRate, b.successRate),
       localOriginSuccessRate := Switch(m.localOriginSuccessRate, b.localOriginSuccessRate),
       locality := Switch(m.locality, b.locality))
  }

  predicate PairedHost(m: New.HostStatus) {
    PairedPtr(m.address) && PairedPtr(m.successRate) && PairedPtr(m.localOriginSuccessRate) && PairedPtr(m.locality)
  }

  predicate OneEncodingHost(m: New.HostStatus) {
    OneEncoding(m.address) && OneEncoding(m.successRate) && OneEncoding(m.localOriginSuccessRate)
        && OneEncoding(m.locality)
  }

  /** Pairing survives the switch, and a paired host that can be encoded reports its size truly. */
  lemma PairedIsSound(b: Branches, m: New.HostStatus)
    requires PairedHost(m)
    ensures PairedHost(Rebranch(b, m))
    ensures New.EncodableHostStatus(m) ==> New.SoundHostStatus(m)
  {
  }

  lemma SwitchKeeps(p: Ptr<Foreign>, own: bool)
    requires OneEncoding(p)
    ensures ForeignPayload(Switch(p, own)) == ForeignPayload(p) && (CanEncode(Switch(p, own)) <==> CanEncode(p))
  {
  }

  /** Equal payloads give equal bytes and equal success. */
  lemma BranchIndependence(b: Branches, m: New.HostStatus)
    requires OneEncodingHost(m)
    ensures New.EncodeHostStatus(Rebranch(b, m)) == New.EncodeHostStatus(m)
    ensures New.EncodableHostStatus(Rebranch(b, m)) <==> New.EncodableHostStatus(m)
  {
    hide Body, ChildSeg, ListSeg, StringSeg, IntSeg, ForeignPayload, CanEncode, Switch, New.HostStatusSegs;
    SwitchKeeps(m.address, b.address);
    SwitchKeeps(m.successRate, b.successRate);
    SwitchKeeps(m.localOriginSuccessRate, b.localOriginSuccessRate);
    SwitchKeeps(m.locality, b.locality);
    New.HostStatusAt(m);
    New.HostStatusAt(Rebranch(b, m));
    assert New.HostStatusSegs(Rebranch(b, m)) == New.HostStatusSegs(m);
  }

  /** Two runs on the same host and the same buffer contents, with each foreign child taking either branch.
      In each run the count written is the count predicted. When the two encoders of every child agree,
      the runs succeed or fail together and leave the same buffer and the same counts. */
  method BranchesAgree(m: New.HostStatus, b: Branches, one: array<byte>, two: array<byte>, end: nat)
    returns (n1: nat, ok1: bool, size1: nat, n2: nat, ok2: bool, size2: nat)
    requires PairedHost(m) && one != two && one[..] == two[..]
    requires |New.EncodeHostStatus(m)| <= end <= one.Length && |New.EncodeHostStatus(Rebranch(b, m))| <= end
    modifies one, two
    ensures ok1 ==> n1 == size1
    ensures ok2 ==> n2 == size2
    ensures OneEncodingHost(m) ==> ok1 == ok2
    ensures OneEncodingHost(m) && ok1 ==> n1 == n2 && size1 == size2 && one[..] == two[..]
  {
    hide New.EncodeHostStatus, New.EncodableHostStatus, New.SoundHostStatus, New.ReportedHostStatus, PairedHost,
         OneEncodingHost, Rebranch,
         Filled, SameFrom;
    ghost var orig := one[..];
    PairedIsSound(b, m);
    PairedIsSound(b, Rebranch(b, m));
    if OneEncodingHost(m) { BranchIndependence(b, m); }
    size1 := New.SizeHostStatus(Ref(m));
    n1, ok1 := New.MarshalHostStatus(Ref(m), one, end);
    size2 := New.SizeHostStatus(Ref(Rebranch(b, m)));
    n2, ok2 := New.MarshalHostStatus(Ref(Rebranch(b, m)), two, end);
    if OneEncodingHost(m) && ok1 { FilledSameWay(one[..], two[..], orig, end - n1, New.EncodeHostStatus(m)); }
  }

  lemma FilledSameWay(a: bytes, b: bytes, orig: bytes, i: nat, done: bytes)
    requires Filled(a, orig, i, done) && Filled(b, orig, i, done)
    ensures a == b
  {
  }
}
