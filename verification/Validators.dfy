/** The validators of Percent, TokenBucket and the v2alpha cluster status tree. */
module Validators {
  import opened Wire
  import opened Message
  import opened Validation
  import opened Metrics
  import opened ClustersV2

  // ---------------------------------------------------------------- Percent

  /** The value is an ordinary real; NaN is not modelled. */
  datatype Percent = Percent(value: real)

  function PercentErrors(m: Percent): seq<Error> {
    if 0.0 <= m.value <= 100.0 then []
    else [Violation(OfPercent, Plain(Value), OutsideRange, None)]
  }

  function PercentVerdict(p: Ptr<Percent>, all: bool): Option<Error> {
    if p.Nil? then None else Outcome(OfPercent, PercentErrors(p.value), all)
  }

  const VALUE_OUT_OF_RANGE: Error := Violation(OfPercent, Plain(Value), OutsideRange, None)

  /** The percentage is out of range, and this is how it is reported. */
  predicate PercentFails(p: Ptr<Percent>, all: bool, err: Error) {
    && p.Ref? && (p.value.value < 0.0 || p.value.value > 100.0)
    && err == if all then MultiError(OfPercent, [VALUE_OUT_OF_RANGE]) else VALUE_OUT_OF_RANGE
  }

  method ValidatePercent(p: Ptr<Percent>, all: bool) returns (err: Option<Error>)
    ensures err == PercentVerdict(p, all)
    ensures forall e :: PercentFails(p, all, e) <==> err == Some(e)
  {
    PercentComplete(p, all);
    if p.Nil? { return None; }
    var errors: seq<Error> := [];
    var val := p.value.value;
    if val < 0.0 || val > 100.0 {
      var e := Violation(OfPercent, Plain(Value), OutsideRange, None);
      if !all { return Some(e); }
      errors := errors + [e];
    }
    assert errors == PercentErrors(p.value);
    if |errors| > 0 { return Some(MultiError(OfPercent, errors)); }
    return None;
  }

  /** The one violation there can be, in both modes. */
  lemma PercentComplete(p: Ptr<Percent>, all: bool)
    ensures forall e :: PercentFails(p, all, e) <==> PercentVerdict(p, all) == Some(e)
  {
  }

  // ---------------------------------------------------------------- TokenBucket

  /** A duration: what CheckValid reports, and its length in nanoseconds. */
  datatype Duration = Duration(checkValid: Option<Error>, nanos: int)

  datatype TokenBucket = TokenBucket(maxTokens: uint32, tokensPerFill: Ptr<uint32>, fillInterval: Ptr<Duration>)

  function Rule(field: Name, reason: Reason, broken: bool): seq<Error> {
    if broken then [Violation(OfTokenBucket, Plain(field), reason, None)] else []
  }

  /** The violations in rule order. */
  function TokenBucketErrors(m: TokenBucket): seq<Error> {
    Rule(MaxTokens, NotGreaterThanZero, m.maxTokens == 0)
    + Rule(TokensPerFill, NotGreaterThanZero, m.tokensPerFill == Ref(0))
    + match m.fillInterval
      case Nil => Rule(FillInterval, ValueRequired, true)
      case Ref(d) =>
        if d.checkValid.Some? then [Violation(OfTokenBucket, Plain(FillInterval), NotAValidDuration, d.checkValid)]
        else Rule(FillInterval, NotGreaterThanZeroSeconds, d.nanos <= 0)
  }

  function TokenBucketVerdict(p: Ptr<TokenBucket>, all: bool): Option<Error> {
    if p.Nil? then None else Outcome(OfTokenBucket, TokenBucketErrors(p.value), all)
  }

  /** The violations of a token bucket, each with its field, reason and cause. */
  predicate TokenBucketBroken(m: TokenBucket, e: Error) {
    || (m.maxTokens == 0 && e == Violation(OfTokenBucket, Plain(MaxTokens), NotGreaterThanZero, None))
    || (m.tokensPerFill == Ref(0) && e == Violation(OfTokenBucket, Plain(TokensPerFill), NotGreaterThanZero, None))
    || (m.fillInterval.Nil? && e == Violation(OfTokenBucket, Plain(FillInterval), ValueRequired, None))
    || (m.fillInterval.Ref? && m.fillInterval.value.checkValid.Some?
        && e == Violation(OfTokenBucket, Plain(FillInterval), NotAValidDuration, m.fillInterval.value.checkValid))
    || (m.fillInterval.Ref? && m.fillInterval.value.checkValid.None? && m.fillInterval.value.nanos <= 0
        && e == Violation(OfTokenBucket, Plain(FillInterval), NotGreaterThanZeroSeconds, None))
  }

  function TokenBucketRank(f: FieldName): nat {
    if f == Plain(MaxTokens) then 0 else if f == Plain(TokensPerFill) then 1 else 2
  }

  /** The report on a token bucket: exactly its violations, those of max_tokens, tokens_per_fill and
      fill_interval in this order. */
  ghost predicate TokenBucketReport(m: TokenBucket, all: bool, err: Option<Error>) {
    Reports(err, OfTokenBucket, all, e => TokenBucketBroken(m, e), (a, b) => Before(TokenBucketRank, a, b))
  }

  lemma TokenBucketComplete(m: TokenBucket, all: bool)
    ensures TokenBucketReport(m, all, TokenBucketVerdict(Ref(m), all))
  {
    OutcomeReports(OfTokenBucket, TokenBucketErrors(m), all, e => TokenBucketBroken(m, e),
        (a, b) => Before(TokenBucketRank, a, b));
  }

  method ValidateTokenBucket(p: Ptr<TokenBucket>, all: bool) returns (err: Option<Error>)
    ensures err == TokenBucketVerdict(p, all)
    ensures if p.Nil? then err.None? else TokenBucketReport(p.value, all, err)
  {
    hide TokenBucketReport;
    if p.Nil? { return None; }
    var m := p.value;
    TokenBucketComplete(m, all);
    var errors: seq<Error> := [];
    if m.maxTokens <= 0 {
      var e := Violation(OfTokenBucket, Plain(MaxTokens), NotGreaterThanZero, None);
      if !all { return Some(e); }
      errors := errors + [e];
    }
    ghost var first := Rule(MaxTokens, NotGreaterThanZero, m.maxTokens == 0);
    assert errors == first;
    if m.tokensPerFill.Ref? {
      if m.tokensPerFill.value <= 0 {
        var e := Violation(OfTokenBucket, Plain(TokensPerFill), NotGreaterThanZero, None);
        if !all { return Some(e); }
        errors := errors + [e];
      }
    }
    ghost var second := Rule(TokensPerFill, NotGreaterThanZero, m.tokensPerFill == Ref(0));
    assert errors == first + second;
    if m.fillInterval.Nil? {
      var e := Violation(OfTokenBucket, Plain(FillInterval), ValueRequired, None);
      if !all { return Some(e); }
      errors := errors + [e];
    }
    if m.fillInterval.Ref? {
      var d := m.fillInterval.value;
      if d.checkValid.Some? {
        var e := Violation(OfTokenBucket, Plain(FillInterval), NotAValidDuration, d.checkValid);
        if !all { return Some(e); }
        errors := errors + [e];
      } else if d.nanos <= 0 {
        var e := Violation(OfTokenBucket, Plain(FillInterval), NotGreaterThanZeroSeconds, None);
        if !all { return Some(e); }
        errors := errors + [e];
      }
    }
    assert errors == TokenBucketErrors(m);
    if |errors| > 0 { return Some(MultiError(OfTokenBucket, errors)); }
    return None;
  }

  /** Accepted in either mode exactly when every rule holds; and the modes agree. */
  lemma TokenBucketModes(p: Ptr<TokenBucket>, all: bool)
    ensures TokenBucketVerdict(p, all).None? <==>
            (p.Ref? ==>
               var m := p.value;
               && m.maxTokens > 0
               && (m.tokensPerFill.Ref? ==> m.tokensPerFill.value > 0)
               && m.fillInterval.Ref? && m.fillInterval.value.checkValid.None? && m.fillInterval.value.nanos > 0)
    ensures ModesAgree(TokenBucketVerdict(p, false), TokenBucketVerdict(p, true))
  {
    if p.Ref? { OwnRulesAgree(OfTokenBucket, TokenBucketErrors(p.value)); }
  }

  // ---------------------------------------------------------------- foreign children

  /** A child from another package: which of the two validators it has, and what they report. */
  datatype Checked = Checked(hasValidateAll: bool, validateAll: Option<Error>, hasValidate: bool,
      validate: Option<Error>)

  function ForeignVerdict(p: Ptr<Checked>, all: bool): Option<Error> {
    if p.Nil? then None
    else if all && p.value.hasValidateAll then p.value.validateAll
    else if p.value.hasValidate then p.value.validate
    else None
  }

  /** The child fails with this error: in collect-all mode ValidateAll decides if the child has it, in all
      other cases Validate does if the child has that. */
  predicate ForeignFails(p: Ptr<Checked>, all: bool, err: Error) {
    p.Ref? &&
    if all && p.value.hasValidateAll then p.value.validateAll == Some(err)
    else p.value.hasValidate && p.value.validate == Some(err)
  }

  lemma ForeignComplete(p: Ptr<Checked>, all: bool)
    ensures forall e :: ForeignFails(p, all, e) <==> ForeignVerdict(p, all) == Some(e)
  {
  }

  /** A child that has ValidateAll reports the same there as in Validate, if it has that too. */
  ghost predicate Coherent(p: Ptr<Checked>) {
    p.Ref? && p.value.hasValidateAll ==>
      Agree(if p.value.hasValidate then p.value.validate else None, p.value.validateAll)
  }

  lemma CoherentVerdicts(p: Ptr<Checked>)
    requires Coherent(p)
    ensures Agree(ForeignVerdict(p, false), ForeignVerdict(p, true))
  {
    hide Follows;
    FollowsItself(p);
  }

  lemma FollowsItself(p: Ptr<Checked>)
    ensures p.Ref? && p.value.validate.Some? ==> Follows(p.value.validate.value, p.value.validate.value)
  {
  }

  // ---------------------------------------------------------------- the tree

  datatype Host = Host(
    address: Ptr<Checked>, stats: seq<Ptr<SimpleMetric>>, healthStatus: Ptr<HostHealthStatus>,
        successRate: Ptr<Percent>,
    localOriginSuccessRate: Ptr<Percent>, locality: Ptr<Checked>)

  datatype Cluster = Cluster(
    successRateEjectionThreshold: Ptr<Percent>, hostStatuses: seq<Ptr<Host>>,
    localOriginSuccessRateEjectionThreshold: Ptr<Percent>)

  datatype ClusterList = ClusterList(clusterStatuses: seq<Ptr<Cluster>>)

  /** SimpleMetric and HostHealthStatus have no rules. */
  function NoVerdicts(n: nat): seq<Option<Error>> { seq(n, _ => None) }

  function HostHead(m: Host, all: bool): seq<Child> { [Child(Plain(Address), ForeignVerdict(m.address, all))] }

  function HostTail(m: Host, all: bool): seq<Child> {
    [ Child(Plain(HealthStatus), None),
      Child(Plain(SuccessRate), PercentVerdict(m.successRate, all)),
      Child(Plain(LocalOriginSuccessRate), PercentVerdict(m.localOriginSuccessRate, all)),
      Child(Plain(Locality), ForeignVerdict(m.locality, all)) ]
  }

  function HostChildren(m: Host, all: bool): (cs: seq<Child>)
    ensures |cs| == |m.stats| + 5
  {
    HostHead(m, all) + Repeated(Stats, NoVerdicts(|m.stats|)) + HostTail(m, all)
  }

  function HostVerdict(p: Ptr<Host>, all: bool): Option<Error> {
    if p.Nil? then None else Verdict(OfHostStatus, HostChildren(p.value, all), all)
  }

  function HostVerdicts(items: seq<Ptr<Host>>, all: bool): seq<Option<Error>> {
    seq(|items|, k requires 0 <= k < |items| => HostVerdict(items[k], all))
  }

  function ClusterChildren(m: Cluster, all: bool): (cs: seq<Child>)
    ensures |cs| == |m.hostStatuses| + 2
  {
    [Child(Plain(SuccessRateEjectionThreshold), PercentVerdict(m.successRateEjectionThreshold, all))]
    + Repeated(HostStatuses, HostVerdicts(m.hostStatuses, all))
    + [Child(Plain(LocalOriginSuccessRateEjectionThreshold),
        PercentVerdict(m.localOriginSuccessRateEjectionThreshold, all))]
  }

  function ClusterVerdict(p: Ptr<Cluster>, all: bool): Option<Error> {
    if p.Nil? then None else Verdict(OfClusterStatus, ClusterChildren(p.value, all), all)
  }

  function ClusterVerdicts(items: seq<Ptr<Cluster>>, all: bool): seq<Option<Error>> {
    seq(|items|, k requires 0 <= k < |items| => ClusterVerdict(items[k], all))
  }

  function ClustersVerdict(p: Ptr<ClusterList>, all: bool): Option<Error> {
    if p.Nil? then None else Verdict(OfClusters, Repeated(ClusterStatuses,
        ClusterVerdicts(p.value.clusterStatuses, all)), all)
  }

  // ---------------------------------------------------------------- the validators

  method CheckForeign(p: Ptr<Checked>, all: bool) returns (err: Option<Error>)
    ensures err == ForeignVerdict(p, all)
    ensures forall e :: ForeignFails(p, all, e) <==> err == Some(e)
  {
    ForeignComplete(p, all);
    if p.Nil? { return None; }
    var c := p.value;
    if all {
      if c.hasValidateAll { return c.validateAll; }
      if c.hasValidate { return c.validate; }
      return None;
    } else {
      if c.hasValidate { return c.validate; }
      return None;
    }
  }

  method ValidateHostStatus(p: Ptr<Host>, all: bool) returns (err: Option<Error>)
    ensures err == HostVerdict(p, all)
    ensures if p.Nil? then err.None? else HostReport(p.value, all, err)
  {
    hide HostReport, Seen, Verdict, HostChildren;
    if p.Nil? { return None; }
    HostComplete(p.value, all);
    var m := p.value;
    ghost var cs := HostChildren(m, all);
    ghost var n := |m.stats|;
    var errors, stop := [], None;
    SeenNone(OfHostStatus, cs, all);
    var v := CheckForeign(m.address, all);
    HostChildAt(m, all, 0);
    errors, stop := Embedded(OfHostStatus, Plain(Address), v, all, errors, cs, 0);
    if stop.Some? { return stop; }
    for idx := 0 to |m.stats|
      invariant Seen(OfHostStatus, cs, idx + 1, errors, all)
    {
      HostChildAt(m, all, idx + 1);
      errors, stop := Embedded(OfHostStatus, Indexed(Stats, idx), None, all, errors, cs, idx + 1);
      if stop.Some? { return stop; }
    }
    HostChildAt(m, all, n + 1);
    errors, stop := Embedded(OfHostStatus, Plain(HealthStatus), None, all, errors, cs, n + 1);
    if stop.Some? { return stop; }
    v := ValidatePercent(m.successRate, all);
    HostChildAt(m, all, n + 2);
    errors, stop := Embedded(OfHostStatus, Plain(SuccessRate), v, all, errors, cs, n + 2);
    if stop.Some? { return stop; }
    v := ValidatePercent(m.localOriginSuccessRate, all);
    HostChildAt(m, all, n + 3);
    errors, stop := Embedded(OfHostStatus, Plain(LocalOriginSuccessRate), v, all, errors, cs, n + 3);
    if stop.Some? { return stop; }
    v := CheckForeign(m.locality, all);
    HostChildAt(m, all, n + 4);
    errors, stop := Embedded(OfHostStatus, Plain(Locality), v, all, errors, cs, n + 4);
    if stop.Some? { return stop; }
    SeenAll(OfHostStatus, cs, errors, all);
    if |errors| > 0 { return Some(MultiError(OfHostStatus, errors)); }
    return None;
  }

  lemma HostChildAt(m: Host, all: bool, k: nat)
    requires k < |m.stats| + 5
    ensures var cs := HostChildren(m, all);
            && |cs| == |m.stats| + 5
            && cs[k] == if k == 0 then HostHead(m, all)[0]
                        else if k <= |m.stats| then Child(Indexed(Stats, k - 1), None)
                        else HostTail(m, all)[k - |m.stats| - 1]
  {
  }

  method ValidateClusterStatus(p: Ptr<Cluster>, all: bool) returns (err: Option<Error>)
    ensures err == ClusterVerdict(p, all)
    ensures if p.Nil? then err.None? else ClusterReport(p.value, all, err)
  {
    hide ClusterReport, Seen, Verdict, HostVerdict, ClusterChildren;
    if p.Nil? { return None; }
    ClusterComplete(p.value, all);
    var m := p.value;
    ghost var cs := ClusterChildren(m, all);
    ghost var n := |m.hostStatuses|;
    var errors, stop := [], None;
    SeenNone(OfClusterStatus, cs, all);
    var v := ValidatePercent(m.successRateEjectionThreshold, all);
    ClusterChildAt(m, all, 0);
    errors, stop := Embedded(OfClusterStatus, Plain(SuccessRateEjectionThreshold), v, all, errors, cs, 0);
    if stop.Some? { return stop; }
    for idx := 0 to |m.hostStatuses|
      invariant Seen(OfClusterStatus, cs, idx + 1, errors, all)
    {
      v := ValidateHostStatus(m.hostStatuses[idx], all);
      ClusterChildAt(m, all, idx + 1);
      errors, stop := Embedded(OfClusterStatus, Indexed(HostStatuses, idx), v, all, errors, cs, idx + 1);
      if stop.Some? { return stop; }
    }
    v := ValidatePercent(m.localOriginSuccessRateEjectionThreshold, all);
    ClusterChildAt(m, all, n + 1);
    errors, stop := Embedded(OfClusterStatus, Plain(LocalOriginSuccessRateEjectionThreshold), v, all, errors, cs,
        n + 1);
    if stop.Some? { return stop; }
    SeenAll(OfClusterStatus, cs, errors, all);
    if |errors| > 0 { return Some(MultiError(OfClusterStatus, errors)); }
    return None;
  }

  lemma ClusterChildAt(m: Cluster, all: bool, k: nat)
    requires k < |m.hostStatuses| + 2
    ensures var cs := ClusterChildren(m, all);
            && |cs| == |m.hostStatuses| + 2
            && cs[k] == if k == 0 then Child(Plain(SuccessRateEjectionThreshold),
               PercentVerdict(m.successRateEjectionThreshold, all))
                        else if k <= |m.hostStatuses| then Child(Indexed(HostStatuses, k - 1),
                            HostVerdict(m.hostStatuses[k - 1], all))
                        else Child(Plain(LocalOriginSuccessRateEjectionThreshold),
                            PercentVerdict(m.localOriginSuccessRateEjectionThreshold, all))
  {
  }

  method ValidateClusters(p: Ptr<ClusterList>, all: bool) returns (err: Option<Error>)
    ensures err == ClustersVerdict(p, all)
    ensures if p.Nil? then err.None? else ClustersReport(p.value, all, err)
  {
    hide ClustersReport, Seen, Verdict, ClusterVerdict;
    if p.Nil? { return None; }
    ClustersComplete(p.value, all);
    var items := p.value.clusterStatuses;
    ghost var cs := Repeated(ClusterStatuses, ClusterVerdicts(items, all));
    var errors, stop := [], None;
    SeenNone(OfClusters, cs, all);
    for idx := 0 to |items|
      invariant Seen(OfClusters, cs, idx, errors, all)
    {
      var v := ValidateClusterStatus(items[idx], all);
      errors, stop := Embedded(OfClusters, Indexed(ClusterStatuses, idx), v, all, errors, cs, idx);
      if stop.Some? { return stop; }
    }
    SeenAll(OfClusters, cs, errors, all);
    if |errors| > 0 { return Some(MultiError(OfClusters, errors)); }
    return None;
  }

  // ---------------------------------------------------------------- the modes agree on the tree

  ghost predicate CoherentHost(p: Ptr<Host>) { p.Ref? ==> Coherent(p.value.address) && Coherent(p.value.locality) }

  ghost predicate CoherentCluster(p: Ptr<Cluster>) {
    p.Ref? ==> forall h :: h in p.value.hostStatuses ==> CoherentHost(h)
  }

  ghost predicate CoherentClusters(p: Ptr<ClusterList>) {
    p.Ref? ==> forall c :: c in p.value.clusterStatuses ==> CoherentCluster(c)
  }

  lemma PercentModes(p: Ptr<Percent>)
    ensures ModesAgree(PercentVerdict(p, false), PercentVerdict(p, true))
    ensures forall all :: PercentVerdict(p, all).None? <==> (p.Ref? ==> 0.0 <= p.value.value <= 100.0)
  {
    if p.Ref? { OwnRulesAgree(OfPercent, PercentErrors(p.value)); }
  }

  lemma HostModes(p: Ptr<Host>)
    requires CoherentHost(p)
    ensures ModesAgree(HostVerdict(p, false), HostVerdict(p, true))
  {
    hide PercentVerdict, ForeignVerdict, Coherent, Follows, Verdict, HostChildren;
    if p.Ref? {
      var m := p.value;
      CoherentVerdicts(m.address);
      CoherentVerdicts(m.locality);
      PercentModes(m.successRate);
      PercentModes(m.localOriginSuccessRate);
      var fast, all := HostChildren(m, false), HostChildren(m, true);
      forall k | 0 <= k < |fast| ensures fast[k].field == all[k].field && Agree(fast[k].verdict, all[k].verdict) {
        HostChildAt(m, false, k);
        HostChildAt(m, true, k);
        LeftmostFollows(fast[k].verdict, all[k].verdict);
      }
      VerdictsAgree(OfHostStatus, fast, all);
    }
  }

  lemma LeftmostFollows(fast: Option<Error>, all: Option<Error>)
    ensures ModesAgree(fast, all) ==> Agree(fast, all)
  {
  }

  lemma ClusterModes(p: Ptr<Cluster>)
    requires CoherentCluster(p)
    ensures ModesAgree(ClusterVerdict(p, false), ClusterVerdict(p, true))
  {
    hide PercentVerdict, HostVerdict, Follows, Verdict, CoherentHost, ClusterChildren;
    if p.Ref? {
      var m := p.value;
      PercentModes(m.successRateEjectionThreshold);
      PercentModes(m.localOriginSuccessRateEjectionThreshold);
      var fast, all := ClusterChildren(m, false), ClusterChildren(m, true);
      forall k | 0 <= k < |fast| ensures fast[k].field == all[k].field && Agree(fast[k].verdict, all[k].verdict) {
        ClusterChildAt(m, false, k);
        ClusterChildAt(m, true, k);
        if 1 <= k <= |m.hostStatuses| { HostModes(m.hostStatuses[k - 1]); }
        LeftmostFollows(fast[k].verdict, all[k].verdict);
      }
      VerdictsAgree(OfClusterStatus, fast, all);
    }
  }

  /** For the whole tree: Validate's error is the leftmost path through ValidateAll's error tree. */
  lemma ClustersModes(p: Ptr<ClusterList>)
    requires CoherentClusters(p)
    ensures ModesAgree(ClustersVerdict(p, false), ClustersVerdict(p, true))
  {
    hide ClusterVerdict, Follows, Verdict, CoherentCluster;
    if p.Ref? {
      var items := p.value.clusterStatuses;
      var fast, all := Repeated(ClusterStatuses, ClusterVerdicts(items, false)),
          Repeated(ClusterStatuses, ClusterVerdicts(items, true));
      forall k | 0 <= k < |fast| ensures fast[k].field == all[k].field && Agree(fast[k].verdict, all[k].verdict) {
        ClusterModes(items[k]);
        LeftmostFollows(fast[k].verdict, all[k].verdict);
      }
      VerdictsAgree(OfClusters, fast, all);
    }
  }

  // ---------------------------------------------------------------- what is accepted

  predicate ValidPercent(p: Ptr<Percent>) { p.Ref? ==> 0.0 <= p.value.value <= 100.0 }

  /** The validator that decides accepts the child; a child without one is accepted. */
  predicate AcceptedForeign(p: Ptr<Checked>, all: bool) {
    p.Ref? ==>
      if all && p.value.hasValidateAll then p.value.validateAll.None?
      else p.value.hasValidate ==> p.value.validate.None?
  }

  lemma ForeignAccepted(p: Ptr<Checked>, all: bool)
    ensures ForeignVerdict(p, all).None? <==> AcceptedForeign(p, all)
  {
  }

  /** Every percentage is absent or in range and every foreign child is accepted; nil is valid. */
  predicate ValidHost(p: Ptr<Host>, all: bool) {
    p.Ref? ==>
      && AcceptedForeign(p.value.address, all) && AcceptedForeign(p.value.locality, all)
      && ValidPercent(p.value.successRate) && ValidPercent(p.value.localOriginSuccessRate)
  }

  predicate ValidCluster(p: Ptr<Cluster>, all: bool) {
    p.Ref? ==>
      && ValidPercent(p.value.successRateEjectionThreshold)
         && ValidPercent(p.value.localOriginSuccessRateEjectionThreshold)
      && forall h :: h in p.value.hostStatuses ==> ValidHost(h, all)
  }

  predicate ValidClusters(p: Ptr<ClusterList>, all: bool) {
    p.Ref? ==> forall c :: c in p.value.clusterStatuses ==> ValidCluster(c, all)
  }

  lemma HostAccepted(p: Ptr<Host>, all: bool)
    ensures HostVerdict(p, all).None? <==> ValidHost(p, all)
  {
    hide PercentVerdict, ForeignVerdict, AcceptedForeign, Entries, HostChildren;
    if p.Ref? {
      var m := p.value;
      ForeignAccepted(m.address, all);
      ForeignAccepted(m.locality, all);
      var cs := HostChildren(m, all);
      EntriesEmpty(OfHostStatus, cs);
      PercentModes(m.successRate);
      PercentModes(m.localOriginSuccessRate);
      forall k | 0 <= k < |cs| ensures cs[k].verdict.Some? ==> !ValidHost(p, all) {
        HostChildAt(m, all, k);
      }
      HostChildAt(m, all, 0);
      HostChildAt(m, all, |m.stats| + 2);
      HostChildAt(m, all, |m.stats| + 3);
      HostChildAt(m, all, |m.stats| + 4);
    }
  }

  lemma ClusterAccepted(p: Ptr<Cluster>, all: bool)
    ensures ClusterVerdict(p, all).None? <==> ValidCluster(p, all)
  {
    hide PercentVerdict, HostVerdict, Entries, ValidHost, ClusterChildren;
    if p.Ref? {
      var m := p.value;
      var cs := ClusterChildren(m, all);
      EntriesEmpty(OfClusterStatus, cs);
      PercentModes(m.successRateEjectionThreshold);
      PercentModes(m.localOriginSuccessRateEjectionThreshold);
      forall k | 0 <= k < |cs| ensures cs[k].verdict.Some? ==> !ValidCluster(p, all) {
        ClusterChildAt(m, all, k);
        if 1 <= k <= |m.hostStatuses| { HostAccepted(m.hostStatuses[k - 1], all); }
      }
      ClusterChildAt(m, all, 0);
      ClusterChildAt(m, all, |m.hostStatuses| + 1);
      forall h | h in m.hostStatuses ensures Verdict(OfClusterStatus, cs, all).None? ==> ValidHost(h, all) {
        var k :| 0 <= k < |m.hostStatuses| && m.hostStatuses[k] == h;
        ClusterChildAt(m, all, k + 1);
        HostAccepted(h, all);
      }
    }
  }

  /** A tree is accepted exactly when every reachable percentage is absent or in [0, 100] and every
      foreign child is accepted, in either mode; and both modes accept the same trees. */
  lemma ClustersAccepted(p: Ptr<ClusterList>, all: bool)
    ensures ClustersVerdict(p, all).None? <==> ValidClusters(p, all)
    ensures CoherentClusters(p) ==> (ClustersVerdict(p, false).None? <==> ClustersVerdict(p, true).None?)
  {
    hide ClusterVerdict, Entries, ValidCluster, ModesAgree;
    if CoherentClusters(p) {
      assert ClustersVerdict(p, false).None? <==> ClustersVerdict(p, true).None? by { ClustersSameAcceptance(p); }
    }
    if p.Ref? {
      var items := p.value.clusterStatuses;
      var cs := Repeated(ClusterStatuses, ClusterVerdicts(items, all));
      EntriesEmpty(OfClusters, cs);
      forall c | c in items ensures Verdict(OfClusters, cs, all).None? ==> ValidCluster(c, all) {
        var k :| 0 <= k < |items| && items[k] == c;
        assert cs[k].verdict == ClusterVerdict(c, all);
        ClusterAccepted(c, all);
      }
      forall k | 0 <= k < |cs| ensures cs[k].verdict.Some? ==> !ValidClusters(p, all) {
        ClusterAccepted(items[k], all);
      }
    }
  }

  lemma ClustersSameAcceptance(p: Ptr<ClusterList>)
    requires CoherentClusters(p)
    ensures ClustersVerdict(p, false).None? <==> ClustersVerdict(p, true).None?
  {
    ClustersModes(p);
  }

  // ---------------------------------------------------------------- completeness and order

  /** Field order, then list index. */
  function HostRank(f: FieldName): nat {
    match f
    case Indexed(_, _) => 1
    case Plain(n) =>
      if n == Address then 0 else if n == HealthStatus then 2 else if n == SuccessRate then 3
      else if n == LocalOriginSuccessRate then 4 else 5
  }

  function ClusterRank(f: FieldName): nat {
    match f
    case Indexed(_, _) => 1
    case Plain(n) => if n == SuccessRateEjectionThreshold then 0 else 2
  }

  function ClustersRank(f: FieldName): nat { 0 }

  predicate Before(rank: FieldName -> nat, a: FieldName, b: FieldName) {
    rank(a) < rank(b) || (rank(a) == rank(b) && a.Indexed? && b.Indexed? && a.idx < b.idx)
  }

  /** An entry of a message about one of its children. */
  predicate Embeds(owner: Owner, e: Error) {
    e.Violation? && e.owner == owner && e.reason == EmbeddedMessageFailed && e.cause.Some?
  }

  /** The children of a host whose own validation fails, by field name and index. */
  predicate HostChildFails(m: Host, all: bool, f: FieldName, err: Error) {
    || (f == Plain(Address) && ForeignFails(m.address, all, err))
    || (f == Plain(SuccessRate) && PercentFails(m.successRate, all, err))
    || (f == Plain(LocalOriginSuccessRate) && PercentFails(m.localOriginSuccessRate, all, err))
    || (f == Plain(Locality) && ForeignFails(m.locality, all, err))
  }

  predicate ClusterChildFails(m: Cluster, all: bool, f: FieldName, err: Error) {
    || (f == Plain(SuccessRateEjectionThreshold) && PercentFails(m.successRateEjectionThreshold, all, err))
    || (f.Indexed? && f.name == HostStatuses && f.idx < |m.hostStatuses|
        && HostVerdict(m.hostStatuses[f.idx], all) == Some(err))
    || (f == Plain(LocalOriginSuccessRateEjectionThreshold)
        && PercentFails(m.localOriginSuccessRateEjectionThreshold, all, err))
  }

  predicate ClustersChildFails(m: ClusterList, all: bool, f: FieldName, err: Error) {
    && f.Indexed? && f.name == ClusterStatuses && f.idx < |m.clusterStatuses|
    && ClusterVerdict(m.clusterStatuses[f.idx], all) == Some(err)
  }

  /** The report on a host: one entry per failing child with that child's error as its cause, nothing
      else, in field order; in fail-fast mode the first of these. */
  ghost predicate HostReport(m: Host, all: bool, err: Option<Error>) {
    Reports(err, OfHostStatus, all, e => Embeds(OfHostStatus, e) && HostChildFails(m, all, e.field, e.cause.value),
        (a, b) => Before(HostRank, a, b))
  }

  ghost predicate ClusterReport(m: Cluster, all: bool, err: Option<Error>) {
    Reports(err, OfClusterStatus, all,
        e => Embeds(OfClusterStatus, e) && ClusterChildFails(m, all, e.field, e.cause.value),
        (a, b) => Before(ClusterRank, a, b))
  }

  ghost predicate ClustersReport(m: ClusterList, all: bool, err: Option<Error>) {
    Reports(err, OfClusters, all, e => Embeds(OfClusters, e) && ClustersChildFails(m, all, e.field, e.cause.value),
        (a, b) => Before(ClustersRank, a, b))
  }

  lemma HostComplete(m: Host, all: bool)
    ensures HostReport(m, all, HostVerdict(Ref(m), all))
  {
    hide Entries, HostChildren, HostChildFails, Reports, Verdict;
    var cs := HostChildren(m, all);
    forall a, b | 0 <= a < b < |cs| ensures Before(HostRank, cs[a].field, cs[b].field) {
      HostChildAt(m, all, a);
      HostChildAt(m, all, b);
    }
    var broken := e => Embeds(OfHostStatus, e) && HostChildFails(m, all, e.field, e.cause.value);
    forall e | Embeds(OfHostStatus, e) ensures broken(e) <==> Child(e.field, e.cause) in cs {
      HostChildIs(m, all, e.field, e.cause.value);
    }
    EntriesComplete(OfHostStatus, cs, all, broken, (a, b) => Before(HostRank, a, b));
  }

  lemma HostChildIs(m: Host, all: bool, f: FieldName, err: Error)
    ensures HostChildFails(m, all, f, err) <==> Child(f, Some(err)) in HostChildren(m, all)
  {
    hide PercentVerdict, PercentFails, ForeignVerdict, ForeignFails, HostChildren;
    PercentComplete(m.successRate, all);
    PercentComplete(m.localOriginSuccessRate, all);
    ForeignComplete(m.address, all);
    ForeignComplete(m.locality, all);
    var cs, n := HostChildren(m, all), |m.stats|;
    HostChildAt(m, all, 0);
    HostChildAt(m, all, n + 2);
    HostChildAt(m, all, n + 3);
    HostChildAt(m, all, n + 4);
    if Child(f, Some(err)) in cs {
      var k :| 0 <= k < |cs| && cs[k] == Child(f, Some(err));
      HostChildAt(m, all, k);
    }
  }

  lemma ClusterComplete(m: Cluster, all: bool)
    ensures ClusterReport(m, all, ClusterVerdict(Ref(m), all))
  {
    hide Entries, ClusterChildren, ClusterChildFails, HostVerdict, Reports, Verdict;
    var cs := ClusterChildren(m, all);
    forall a, b | 0 <= a < b < |cs| ensures Before(ClusterRank, cs[a].field, cs[b].field) {
      ClusterChildAt(m, all, a);
      ClusterChildAt(m, all, b);
    }
    var broken := e => Embeds(OfClusterStatus, e) && ClusterChildFails(m, all, e.field, e.cause.value);
    forall e | Embeds(OfClusterStatus, e) ensures broken(e) <==> Child(e.field, e.cause) in cs {
      ClusterChildIs(m, all, e.field, e.cause.value);
    }
    EntriesComplete(OfClusterStatus, cs, all, broken, (a, b) => Before(ClusterRank, a, b));
  }

  lemma ClusterChildIs(m: Cluster, all: bool, f: FieldName, err: Error)
    ensures ClusterChildFails(m, all, f, err) <==> Child(f, Some(err)) in ClusterChildren(m, all)
  {
    hide PercentVerdict, PercentFails, HostVerdict, ClusterChildren;
    PercentComplete(m.successRateEjectionThreshold, all);
    PercentComplete(m.localOriginSuccessRateEjectionThreshold, all);
    var cs, n := ClusterChildren(m, all), |m.hostStatuses|;
    ClusterChildAt(m, all, 0);
    ClusterChildAt(m, all, n + 1);
    if f.Indexed? && f.idx < n { ClusterChildAt(m, all, f.idx + 1); }
    if Child(f, Some(err)) in cs {
      var k :| 0 <= k < |cs| && cs[k] == Child(f, Some(err));
      ClusterChildAt(m, all, k);
    }
  }

  /** At the top of the tree: one entry per failing cluster status, under its own index, in index order. */
  lemma ClustersComplete(m: ClusterList, all: bool)
    ensures ClustersReport(m, all, ClustersVerdict(Ref(m), all))
  {
    hide Entries, ClusterVerdict, Reports, Verdict;
    var cs := Repeated(ClusterStatuses, ClusterVerdicts(m.clusterStatuses, all));
    var broken := e => Embeds(OfClusters, e) && ClustersChildFails(m, all, e.field, e.cause.value);
    forall e | Embeds(OfClusters, e) ensures broken(e) <==> Child(e.field, e.cause) in cs {
      if broken(e) { assert cs[e.field.idx] == Child(e.field, e.cause); }
    }
    EntriesComplete(OfClusters, cs, all, broken, (a, b) => Before(ClustersRank, a, b));
  }
}
