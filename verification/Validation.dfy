/** The two modes of the generated validators: Validate stops at the first violation, ValidateAll
    collects all of them. One body, validate(all), serves both. */
module Validation {
  import opened Wire

  /** The message types that report errors. */
  datatype Owner = OfClusters | OfClusterStatus | OfHostStatus | OfPercent | OfTokenBucket

  datatype Name =
    | ClusterStatuses
    | SuccessRateEjectionThreshold | HostStatuses | LocalOriginSuccessRateEjectionThreshold
    | Address | Stats | HealthStatus | SuccessRate | LocalOriginSuccessRate | Locality
    | Value
    | MaxTokens | TokensPerFill | FillInterval

  /** A field as an error names it: alone, or with the index of a list element. */
  datatype FieldName = Plain(name: Name) | Indexed(name: Name, idx: nat)

  datatype Reason =
    | EmbeddedMessageFailed | OutsideRange | NotGreaterThanZero | ValueRequired
    | NotAValidDuration | NotGreaterThanZeroSeconds

  datatype Error =
    | Violation(owner: Owner, field: FieldName, reason: Reason, cause: Option<Error>)
    | MultiError(owner: Owner, errors: seq<Error>)
    | Opaque(id: nat)

  /** What the violations found so far amount to when the body returns. */
  function Outcome(owner: Owner, es: seq<Error>, all: bool): Option<Error> {
    if es == [] then None
    else if all then Some(MultiError(owner, es))
    else Some(es[0])
  }

  // ---------------------------------------------------------------- embedded messages

  /** An embedded message, by the name of its field, with its own verdict. */
  datatype Child = Child(field: FieldName, verdict: Option<Error>)

  /** One entry per failing child, in order. */
  function Entries(owner: Owner, cs: seq<Child>): seq<Error> {
    if cs == [] then []
    else
      var c := cs[|cs| - 1];
      Entries(owner, cs[..|cs| - 1]) + (if c.verdict.None? then []
          else [Violation(owner, c.field, EmbeddedMessageFailed, c.verdict)])
  }

  function Verdict(owner: Owner, cs: seq<Child>, all: bool): Option<Error> {
    Outcome(owner, Entries(owner, cs), all)
  }

  function Repeated(name: Name, verdicts: seq<Option<Error>>): seq<Child> {
    seq(|verdicts|, k requires 0 <= k < |verdicts| => Child(Indexed(name, k), verdicts[k]))
  }

  lemma EntriesSnoc(owner: Owner, cs: seq<Child>, c: Child)
    ensures Entries(owner, cs + [c])
         == Entries(owner, cs) + if c.verdict.None? then [] else [Violation(owner, c.field, EmbeddedMessageFailed,
             c.verdict)]
  {
    assert (cs + [c])[..|cs|] == cs;
  }

  lemma {:induction false} EntriesConcat(owner: Owner, a: seq<Child>, b: seq<Child>)
    ensures Entries(owner, a + b) == Entries(owner, a) + Entries(owner, b)
  {
    if b == [] {
      assert a + b == a;
    } else {
      var n := |b| - 1;
      EntriesConcat(owner, a, b[..n]);
      assert a + b == (a + b[..n]) + [b[n]] && b == b[..n] + [b[n]];
      EntriesSnoc(owner, a + b[..n], b[n]);
      EntriesSnoc(owner, b[..n], b[n]);
    }
  }

  /** Once a child has failed in fail-fast mode, the rest is not looked at. */
  lemma FirstFailure(owner: Owner, before: seq<Child>, c: Child, after: seq<Child>)
    requires Entries(owner, before) == [] && c.verdict.Some?
    ensures Verdict(owner, before + [c] + after, false) == Some(Violation(owner, c.field, EmbeddedMessageFailed,
        c.verdict))
  {
    EntriesSnoc(owner, before, c);
    EntriesConcat(owner, before + [c], after);
  }

  /** Nothing is reported exactly when every child is accepted. */
  lemma {:induction false} EntriesEmpty(owner: Owner, cs: seq<Child>)
    ensures Entries(owner, cs) == [] <==> forall i :: 0 <= i < |cs| ==> cs[i].verdict.None?
  {
    if cs != [] { EntriesEmpty(owner, cs[..|cs| - 1]); }
  }

  // ---------------------------------------------------------------- progress through the children

  /** The first k children have been looked at, and none of them failed in fail-fast mode. */
  ghost predicate Seen(owner: Owner, cs: seq<Child>, k: nat, errors: seq<Error>, all: bool) {
    k <= |cs| && errors == Entries(owner, cs[..k]) && (!all ==> errors == [])
  }

  lemma SeenNone(owner: Owner, cs: seq<Child>, all: bool)
    ensures Seen(owner, cs, 0, [], all)
  {
  }

  lemma SeenAll(owner: Owner, cs: seq<Child>, errors: seq<Error>, all: bool)
    requires Seen(owner, cs, |cs|, errors, all)
    ensures Verdict(owner, cs, all) == if |errors| > 0 then Some(MultiError(owner, errors)) else None
  {
    assert cs[..|cs|] == cs;
  }

  /** The block for one embedded message: append its error, or stop with it. */
  method Embedded(owner: Owner, field: FieldName, verdict: Option<Error>, all: bool, errors: seq<Error>,
      ghost cs: seq<Child>, ghost k: nat)
    returns (es: seq<Error>, stop: Option<Error>)
    requires Seen(owner, cs, k, errors, all) && k < |cs| && cs[k] == Child(field, verdict)
    ensures stop.None? ==> Seen(owner, cs, k + 1, es, all)
    ensures stop.Some? ==> stop == Verdict(owner, cs, all)
  {
    assert cs[..k] + [cs[k]] == cs[..k + 1] && cs[..k] + [cs[k]] + cs[k + 1..] == cs;
    EntriesSnoc(owner, cs[..k], cs[k]);
    es, stop := errors, None;
    if verdict.Some? {
      var e := Violation(owner, field, EmbeddedMessageFailed, verdict);
      if all {
        es := es + [e];
      } else {
        FirstFailure(owner, cs[..k], cs[k], cs[k + 1..]);
        stop := Some(e);
      }
    }
  }

  // ---------------------------------------------------------------- the two modes agree

  /** A fail-fast error is the leftmost path through a collect-all error: the same field and reason
      as the first entry, and so on down the causes. */
  ghost predicate Leftmost(fast: Error, all: Error)
    decreases fast, 0
  {
    && fast.Violation? && all.MultiError? && all.errors != []
    && var first := all.errors[0];
       && first.Violation?
       && first.owner == fast.owner && first.field == fast.field && first.reason == fast.reason
       && (first.cause.Some? <==> fast.cause.Some?)
       && (fast.cause.Some? ==> Follows(fast.cause.value, first.cause.value))
  }

  /** For a cause: a child without ValidateAll reports the same error in both modes. */
  ghost predicate Follows(fast: Error, all: Error)
    decreases fast, 1
  {
    fast == all || Leftmost(fast, all)
  }

  /** The two verdicts on a child. */
  ghost predicate Agree(fast: Option<Error>, all: Option<Error>) {
    (fast.Some? <==> all.Some?) && (fast.Some? ==> Follows(fast.value, all.value))
  }

  /** The two results of a validator of this package. */
  ghost predicate ModesAgree(fast: Option<Error>, all: Option<Error>) {
    (fast.Some? <==> all.Some?) && (fast.Some? ==> Leftmost(fast.value, all.value))
  }

  /** The same children in both modes. */
  ghost predicate ChildrenAgree(fast: seq<Child>, all: seq<Child>) {
    |fast| == |all| && forall i :: 0 <= i < |fast| ==>
        fast[i].field == all[i].field && Agree(fast[i].verdict, all[i].verdict)
  }

  /** The entries agree too: there are as many, and the first ones match. */
  lemma {:induction false} EntriesAgree(owner: Owner, fast: seq<Child>, all: seq<Child>)
    requires ChildrenAgree(fast, all)
    ensures |Entries(owner, fast)| == |Entries(owner, all)|
    ensures forall i :: 0 <= i < |Entries(owner, fast)| ==>
              var f, a := Entries(owner, fast)[i], Entries(owner, all)[i];
              && f.Violation? && a.Violation? && f.owner == a.owner && f.field == a.field && f.reason == a.reason
              && f.cause.Some? && a.cause.Some? && Follows(f.cause.value, a.cause.value)
  {
    if fast != [] {
      EntriesAgree(owner, fast[..|fast| - 1], all[..|all| - 1]);
    }
  }

  lemma VerdictsAgree(owner: Owner, fast: seq<Child>, all: seq<Child>)
    requires ChildrenAgree(fast, all)
    ensures ModesAgree(Verdict(owner, fast, false), Verdict(owner, all, true))
  {
    EntriesAgree(owner, fast, all);
  }

  /** Rules of the message itself find the same violations in both modes. */
  lemma OwnRulesAgree(owner: Owner, es: seq<Error>)
    requires forall i :: 0 <= i < |es| ==> es[i].Violation?
    ensures ModesAgree(Outcome(owner, es, false), Outcome(owner, es, true))
  {
  }

  // ---------------------------------------------------------------- completeness and order

  /** What a validator must report, told from the violations there are: none when nothing is broken; in
      collect-all mode exactly the violations, in order; in fail-fast mode the first of them. */
  ghost predicate Reports(err: Option<Error>, owner: Owner, all: bool, broken: Error -> bool,
                          before: (FieldName, FieldName) -> bool)
  {
    match err
    case None => forall e :: !broken(e)
    case Some(x) =>
      if all then
        && x.MultiError? && x.owner == owner && x.errors != []
        && (forall e :: broken(e) <==> e in x.errors)
        && (forall i :: 0 <= i < |x.errors| ==> x.errors[i].Violation?)
        && (forall i, j :: 0 <= i < j < |x.errors| ==> before(x.errors[i].field, x.errors[j].field))
      else
        && x.Violation? && broken(x)
        && (forall e :: broken(e) && e != x ==> e.Violation? && before(x.field, e.field))
  }

  /** An ordered list of the violations yields the right report in both modes. */
  lemma OutcomeReports(owner: Owner, es: seq<Error>, all: bool, broken: Error -> bool,
                       before: (FieldName, FieldName) -> bool)
    requires forall e :: broken(e) <==> e in es
    requires forall i :: 0 <= i < |es| ==> es[i].Violation?
    requires forall i, j :: 0 <= i < j < |es| ==> before(es[i].field, es[j].field)
    ensures Reports(Outcome(owner, es, all), owner, all, broken, before)
  {
    if es != [] && !all {
      forall e | broken(e) && e != es[0] ensures e.Violation? && before(es[0].field, e.field) {
        var j :| 0 <= j < |es| && es[j] == e;
      }
    }
  }

  /** Each entry comes from a failing child. */
  lemma {:induction false} EntriesSound(owner: Owner, cs: seq<Child>)
    ensures forall e :: e in Entries(owner, cs) ==>
              && e.Violation? && e.owner == owner && e.reason == EmbeddedMessageFailed
              && e.cause.Some? && Child(e.field, e.cause) in cs
  {
    if cs != [] {
      var n := |cs| - 1;
      EntriesSound(owner, cs[..n]);
      assert cs == cs[..n] + [cs[n]];
    }
  }

  /** Each failing child has its entry. */
  lemma {:induction false} EntriesAll(owner: Owner, cs: seq<Child>)
    ensures forall c :: c in cs && c.verdict.Some? ==>
              Violation(owner, c.field, EmbeddedMessageFailed, c.verdict) in Entries(owner, cs)
  {
    if cs != [] {
      var n := |cs| - 1;
      EntriesAll(owner, cs[..n]);
      assert cs == cs[..n] + [cs[n]];
    }
  }

  /** Every entry names a field that comes before the given one, if every child does. */
  lemma EntriesBefore(owner: Owner, cs: seq<Child>, last: FieldName, before: (FieldName, FieldName) -> bool)
    requires forall c :: c in cs ==> before(c.field, last)
    ensures forall e :: e in Entries(owner, cs) ==> e.Violation? && before(e.field, last)
  {
    hide Entries;
    EntriesSound(owner, cs);
  }

  /** The entries come in the order of the children. */
  lemma {:induction false} EntriesOrdered(owner: Owner, cs: seq<Child>, before: (FieldName, FieldName) -> bool)
    requires forall a, b :: 0 <= a < b < |cs| ==> before(cs[a].field, cs[b].field)
    ensures forall i :: 0 <= i < |Entries(owner, cs)| ==> Entries(owner, cs)[i].Violation?
    ensures forall a, b :: 0 <= a < b < |Entries(owner, cs)| ==>
              before(Entries(owner, cs)[a].field, Entries(owner, cs)[b].field)
  {
    EntriesSound(owner, cs);
    if cs != [] {
      var n := |cs| - 1;
      EntriesOrdered(owner, cs[..n], before);
      EntriesBefore(owner, cs[..n], cs[n].field, before);
      assert cs == cs[..n] + [cs[n]];
      EntriesSnoc(owner, cs[..n], cs[n]);
    }
  }

  /** A message that only embeds others reports exactly its failing children, in their order. */
  lemma EntriesComplete(owner: Owner, cs: seq<Child>, all: bool, broken: Error -> bool,
                        before: (FieldName, FieldName) -> bool)
    requires forall a, b :: 0 <= a < b < |cs| ==> before(cs[a].field, cs[b].field)
    requires forall e :: broken(e) <==>
               && e.Violation? && e.owner == owner && e.reason == EmbeddedMessageFailed
               && e.cause.Some? && Child(e.field, e.cause) in cs
    ensures Reports(Verdict(owner, cs, all), owner, all, broken, before)
  {
    hide Entries;
    EntriesSound(owner, cs);
    EntriesAll(owner, cs);
    EntriesOrdered(owner, cs, before);
    var es := Entries(owner, cs);
    forall e ensures broken(e) <==> e in es {
      if broken(e) {
        var c := Child(e.field, e.cause);
        assert e == Violation(owner, c.field, EmbeddedMessageFailed, c.verdict);
      }
    }
    OutcomeReports(owner, es, all, broken, before);
  }
}
