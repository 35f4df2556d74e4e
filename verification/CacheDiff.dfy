/** What the linear cache owes a client: the difference between the versions the client is known to
    hold and the resources the cache holds, and the response built from it. */
module CacheDiff {
  import opened Wire

  type Name = string
  type Version = string

  /** A cached resource: the cache version of its last update and, when it can be marshalled, the
      hash of its content. */
  datatype Resource = Resource(cacheVersion: Version, hash: Option<Version>)

  /** The server's view of a client: what it asked for and which versions it was last sent. */
  datatype Subscription = Subscription(wildcard: bool, names: set<Name>, prefixes: set<Name>, known: map<Name, Version>)

  datatype Watch = Watch(delta: bool, fullStateType: bool, sub: Subscription)

  datatype Response = Response(resources: seq<Name>, removed: seq<Name>, returned: map<Name, Version>, version: Version)

  // ---------------------------------------------------------------- specification

  /** Names are matched exactly, or by a prefix. */
  predicate Subscribed(sub: Subscription, n: Name) {
    sub.wildcard || n in sub.names || exists p :: p in sub.prefixes && p <= n
  }

  /** Delta watches compare content hashes; state-of-the-world watches compare cache versions. */
  function VersionOf(r: Resource, delta: bool): Option<Version> {
    if delta then r.hash else Some(r.cacheVersion)
  }

  /** Only listeners and clusters of the state-of-the-world protocol are sent whole every time. */
  predicate FullState(w: Watch) { !w.delta && w.fullStateType }

  predicate Stale(res: map<Name, Resource>, w: Watch, n: Name) {
    n in res && Subscribed(w.sub, n) && (n !in w.sub.known || VersionOf(res[n], w.delta) != Some(w.sub.known[n]))
  }

  predicate Gone(res: map<Name, Resource>, w: Watch, n: Name) {
    n in w.sub.known && (n !in res || !Subscribed(w.sub, n))
  }

  function StaleNames(res: map<Name, Resource>, w: Watch): set<Name> { set n | n in res && Stale(res, w, n) }

  function GoneNames(res: map<Name, Resource>, w: Watch): set<Name> { set n | n in w.sub.known && Gone(res, w, n) }

  /** There is something to tell: a change, or a removal when the protocol can express one. */
  predicate Pending(res: map<Name, Resource>, w: Watch) {
    StaleNames(res, w) != {} || (GoneNames(res, w) != {} && (w.delta || FullState(w)))
  }

  /** Every resource the watch covers has a version. */
  predicate Versioned(res: map<Name, Resource>, w: Watch) {
    forall n :: n in res && Subscribed(w.sub, n) ==> VersionOf(res[n], w.delta).Some?
  }

  /** What the client should hold: the current version of everything it subscribes to. */
  function Target(res: map<Name, Resource>, w: Watch): map<Name, Version>
    requires Versioned(res, w)
  {
    map n | n in res && Subscribed(w.sub, n) :: VersionOf(res[n], w.delta).value
  }

  /** The list holds exactly the elements of the set, each once. */
  ghost predicate Lists(s: seq<Name>, of: set<Name>) {
    (forall n :: n in s <==> n in of) && forall i, j :: 0 <= i < j < |s| ==> s[i] != s[j]
  }

  function NamesIn(s: seq<Name>): set<Name> { set n | n in s }

  lemma NamesInSnoc(s: seq<Name>, n: Name)
    ensures NamesIn(s + [n]) == NamesIn(s) + {n}
  {
  }

  // ---------------------------------------------------------------- computeResourceChange

  lemma ListsSnoc(s: seq<Name>, of: set<Name>, n: Name)
    requires Lists(s, of) && n !in of
    ensures Lists(s + [n], of + {n})
  {
  }

  /** One candidate: append it when its version is news to the client. */
  method Consider(res: map<Name, Resource>, w: Watch, n: Name, changed: seq<Name>, ghost seen: set<Name>)
    returns (c: seq<Name>, ok: bool)
    requires n in res && Subscribed(w.sub, n) && n !in seen
    requires Lists(changed, StaleNames(res, w) * seen)
    ensures ok == (n in w.sub.known ==> VersionOf(res[n], w.delta).Some?)
    ensures ok ==> Lists(c, StaleNames(res, w) * (seen + {n}))
  {
    c, ok := changed, true;
    ghost var was := StaleNames(res, w) * seen;
    if n !in w.sub.known {
      c := c + [n];
    } else {
      var v := VersionOf(res[n], w.delta);
      if v.None? { return [], false; }
      if w.sub.known[n] != v.value { c := c + [n]; }
    }
    if n in StaleNames(res, w) {
      ListsSnoc(changed, was, n);
      assert StaleNames(res, w) * (seen + {n}) == was + {n};
    } else {
      assert StaleNames(res, w) * (seen + {n}) == was;
    }
  }

  /** Every subscribed resource is considered once, however many names and prefixes match it. */
  method ComputeChanged(res: map<Name, Resource>, w: Watch) returns (changed: seq<Name>, ok: bool)
    ensures ok == (forall n :: n in res && Subscribed(w.sub, n) && n in w.sub.known ==>
        VersionOf(res[n], w.delta).Some?)
    ensures ok ==> Lists(changed, StaleNames(res, w))
  {
    changed, ok := [], true;
    ghost var seen: set<Name> := {};
    var exact := if w.sub.wildcard then res.Keys else w.sub.names;
    var todo := exact;
    while todo != {}
      invariant todo <= exact && seen == (exact - todo) * res.Keys
      invariant forall n :: n in seen && n in w.sub.known ==> VersionOf(res[n], w.delta).Some?
      invariant Lists(changed, StaleNames(res, w) * seen)
    {
      var n :| n in todo;
      todo := todo - {n};
      if n in res {
        changed, ok := Consider(res, w, n, changed, seen);
        if !ok { return; }
        seen := seen + {n};
      }
    }
    if !w.sub.wildcard && w.sub.prefixes != {} {
      todo := res.Keys;
      ghost var before := seen;
      while todo != {}
        invariant todo <= res.Keys
        invariant seen == before + (set n | n in res && n !in todo && Subscribed(w.sub, n))
        invariant forall n :: n in seen && n in w.sub.known ==> VersionOf(res[n], w.delta).Some?
        invariant Lists(changed, StaleNames(res, w) * seen)
      {
        var n :| n in todo;
        todo := todo - {n};
        if n !in w.sub.names && exists p :: p in w.sub.prefixes && p <= n {
          changed, ok := Consider(res, w, n, changed, seen);
          if !ok { return; }
          seen := seen + {n};
        }
      }
    }
    assert forall n :: n in StaleNames(res, w) ==> n in seen;
    assert StaleNames(res, w) * seen == StaleNames(res, w);
  }

  /** Known resources that left the cache or the subscription. */
  method ComputeRemoved(res: map<Name, Resource>, w: Watch) returns (removed: seq<Name>)
    ensures Lists(removed, GoneNames(res, w))
  {
    removed := [];
    var todo := w.sub.known.Keys;
    while todo != {}
      invariant todo <= w.sub.known.Keys
      invariant Lists(removed, GoneNames(res, w) - todo)
    {
      var n :| n in todo;
      ghost var was := GoneNames(res, w) - todo;
      todo := todo - {n};
      if n !in res {
        ListsSnoc(removed, was, n);
        removed := removed + [n];
        assert GoneNames(res, w) - todo == was + {n};
      } else if !Subscribed(w.sub, n) {
        ListsSnoc(removed, was, n);
        removed := removed + [n];
        assert GoneNames(res, w) - todo == was + {n};
      } else {
        assert GoneNames(res, w) - todo == was;
      }
    }
    assert GoneNames(res, w) - {} == GoneNames(res, w);
  }

  // ---------------------------------------------------------------- computeResponse

  /** The versions the client will hold: what it knew, with the returned resources updated and the
      removed ones dropped. */
  function Returned(res: map<Name, Resource>, w: Watch, resources: set<Name>): map<Name, Version>
    requires resources <= res.Keys && forall n :: n in resources ==> VersionOf(res[n], w.delta).Some?
  {
    (w.sub.known + map n | n in resources :: VersionOf(res[n], w.delta).value) - GoneNames(res, w)
  }

  /** Whatever subset of the subscription is sent, as long as it covers what is stale, the client ends
      up with exactly the target. */
  lemma ReturnedIsTarget(res: map<Name, Resource>, w: Watch, resources: set<Name>)
    requires Versioned(res, w)
    requires StaleNames(res, w) <= resources && forall n :: n in resources ==> n in res && Subscribed(w.sub, n)
    ensures Returned(res, w, resources) == Target(res, w)
  {
    var r := Returned(res, w, resources);
    forall n ensures n in r <==> n in Target(res, w) {
      if n in res && Subscribed(w.sub, n) && n !in resources { assert n !in StaleNames(res, w); }
    }
    forall n | n in r ensures r[n] == Target(res, w)[n] {
      if n !in resources { assert n !in StaleNames(res, w); }
    }
  }

  /** What the client knew, with the versions of the given resources put in. */
  ghost function Updated(res: map<Name, Resource>, w: Watch, names: set<Name>): map<Name, Version>
    requires forall n :: n in names ==> n in res && VersionOf(res[n], w.delta).Some?
  {
    w.sub.known + map n | n in names :: VersionOf(res[n], w.delta).value
  }

  lemma UpdatedMore(res: map<Name, Resource>, w: Watch, names: set<Name>, n: Name)
    requires forall m :: m in names + {n} ==> m in res && VersionOf(res[m], w.delta).Some?
    ensures Updated(res, w, names + {n}) == Updated(res, w, names)[n := VersionOf(res[n], w.delta).value]
  {
  }

  method VersionsFor(res: map<Name, Resource>, w: Watch, names: seq<Name>)
    returns (returned: map<Name, Version>, ok: bool)
    requires forall n :: n in names ==> n in res
    ensures ok == (forall n :: n in names ==> VersionOf(res[n], w.delta).Some?)
    ensures ok ==> returned == Updated(res, w, NamesIn(names))
  {
    returned := w.sub.known;
    assert Updated(res, w, NamesIn(names[..0])) == returned;
    hide Updated;
    for i := 0 to |names|
      invariant forall n :: n in names[..i] ==> VersionOf(res[n], w.delta).Some?
      invariant returned == Updated(res, w, NamesIn(names[..i]))
    {
      var v := VersionOf(res[names[i]], w.delta);
      if v.None? { return map[], false; }
      assert names[..i + 1] == names[..i] + [names[i]];
      NamesInSnoc(names[..i], names[i]);
      UpdatedMore(res, w, NamesIn(names[..i]), names[i]);
      returned := returned[names[i] := v.value];
    }
    ok := true;
    assert names[..|names|] == names;
  }

  /** All resources of the subscription, for a full-state response: the names that exist, then what
      the prefixes add. */
  method AllSubscribed(res: map<Name, Resource>, sub: Subscription) returns (names: seq<Name>)
    ensures Lists(names, set n | n in res && Subscribed(sub, n))
  {
    names := [];
    ghost var seen: set<Name> := {};
    var exact := if sub.wildcard then res.Keys else sub.names;
    var todo := exact;
    while todo != {}
      invariant todo <= exact && seen == (exact - todo) * res.Keys && Lists(names, seen)
    {
      var n :| n in todo;
      todo := todo - {n};
      if n in res {
        ListsSnoc(names, seen, n);
        names := names + [n];
        seen := seen + {n};
      }
    }
    if !sub.wildcard && sub.prefixes != {} {
      todo := res.Keys;
      ghost var before := seen;
      while todo != {}
        invariant todo <= res.Keys && Lists(names, seen)
        invariant seen == before + (set n | n in res && n !in todo && Subscribed(sub, n))
      {
        var n :| n in todo;
        todo := todo - {n};
        if n !in sub.names && exists p :: p in sub.prefixes && p <= n {
          ListsSnoc(names, seen, n);
          names := names + [n];
          seen := seen + {n};
        }
      }
    }
    assert seen == set n | n in res && Subscribed(sub, n);
  }

  /** What comes out, told from the fields of the watch. It fails exactly when a delta watch covers a
      resource without a hash. It answers when it must, when a covered resource is news, and when a known one
      is gone and the protocol can say so. A full-state answer carries everything covered, any other what is
      news; only a delta answer names removals. What it records is the version of everything covered. */
  ghost predicate ResponseFor(res: map<Name, Resource>, w: Watch, replyEvenIfEmpty: bool, ok: bool,
      r: Option<Response>) {
    && (ok <==> w.delta ==> forall n :: n in res && Subscribed(w.sub, n) ==> res[n].hash.Some?)
    && (ok ==> (r.Some? <==>
          || replyEvenIfEmpty
          || (exists n :: n in res && Subscribed(w.sub, n) && News(res, w, n))
          || ((w.delta || w.fullStateType) && exists n :: n in w.sub.known && (n !in res || !Subscribed(w.sub, n)))))
    && (ok && r.Some? ==>
          && (forall n :: n in r.value.resources <==>
                n in res && Subscribed(w.sub, n) && ((!w.delta && w.fullStateType) || News(res, w, n)))
          && (forall n :: n in r.value.removed <==>
                w.delta && n in w.sub.known && (n !in res || !Subscribed(w.sub, n)))
          && (forall n :: n in r.value.returned <==> n in res && Subscribed(w.sub, n))
          && (forall n :: n in r.value.returned ==>
                Some(r.value.returned[n]) == if w.delta then res[n].hash else Some(res[n].cacheVersion)))
  }

  lemma ResponseSpelledOut(res: map<Name, Resource>, w: Watch, replyEvenIfEmpty: bool, ok: bool, r: Option<Response>)
    requires ok == Versioned(res, w)
    requires ok ==> (r.Some? <==> replyEvenIfEmpty || Pending(res, w))
    requires ok && r.Some? ==> Tells(res, w, r.value)
    ensures ResponseFor(res, w, replyEvenIfEmpty, ok, r)
  {
    hide Pending, Versioned, Tells, Subscribed, News;
    VersionedSpelledOut(res, w);
    PendingSpelledOut(res, w);
    if ok && r.Some? { TellsSpelledOut(res, w, r.value); }
  }

  /** A response is built exactly when one is pending or must be sent anyway; it brings the client to
      the target in one step. It fails exactly when a covered resource has no version. */
  method ComputeResponse(res: map<Name, Resource>, w: Watch, replyEvenIfEmpty: bool, cacheVersion: Version)
    returns (r: Option<Response>, ok: bool)
    ensures ok == Versioned(res, w)
    ensures ok ==> (r.Some? <==> replyEvenIfEmpty || Pending(res, w))
    ensures ok && r.Some? ==> Tells(res, w, r.value) && r.value.version == cacheVersion
    ensures ResponseFor(res, w, replyEvenIfEmpty, ok, r)
  {
    hide Lists, Target, Returned, News, ResponseFor;
    var changed;
    changed, ok := ComputeChanged(res, w);
    if !ok {
      ResponseSpelledOut(res, w, replyEvenIfEmpty, false, None);
      return None, false;
    }
    var removed := ComputeRemoved(res, w);
    ListsEmpty(changed, StaleNames(res, w));
    ListsEmpty(removed, GoneNames(res, w));
    if |changed| == 0 && |removed| == 0 && !replyEvenIfEmpty {
      NothingStaleIsVersioned(res, w);
      ResponseSpelledOut(res, w, replyEvenIfEmpty, true, None);
      return None, true;
    }
    var toReturn := changed;
    if !FullState(w) {
      if !w.delta && !replyEvenIfEmpty && |changed| == 0 {
        NothingStaleIsVersioned(res, w);
        ResponseSpelledOut(res, w, replyEvenIfEmpty, true, None);
        return None, true;
      }
    } else {
      toReturn := AllSubscribed(res, w.sub);
    }
    ghost var sending := if FullState(w) then set n | n in res && Subscribed(w.sub, n) else StaleNames(res, w);
    ListsMembers(toReturn, sending);
    var returned;
    returned, ok := VersionsFor(res, w, toReturn);
    SendingCovers(res, w, sending);
    if !ok {
      ResponseSpelledOut(res, w, replyEvenIfEmpty, false, None);
      return None, false;
    }
    returned := returned - NamesIn(removed);
    ListsMembers(removed, GoneNames(res, w));
    assert returned == Returned(res, w, sending) by { ReturnedUnfolds(res, w, sending, toReturn, removed); }
    ReturnedIsTarget(res, w, sending);
    TargetKeys(res, w);
    NoNames();
    r := Some(Response(toReturn, if w.delta then removed else [], returned, cacheVersion));
    ResponseSpelledOut(res, w, replyEvenIfEmpty, true, r);
  }

  /** The cached resource is unknown to the client, or known at another version: another content for a
      delta client, an update since for a state-of-the-world client. */
  ghost predicate News(res: map<Name, Resource>, w: Watch, n: Name)
    requires n in res
  {
    n !in w.sub.known || (if w.delta then res[n].hash else Some(res[n].cacheVersion)) != Some(w.sub.known[n])
  }

  lemma VersionedSpelledOut(res: map<Name, Resource>, w: Watch)
    ensures Versioned(res, w) <==> w.delta ==> forall n :: n in res && Subscribed(w.sub, n) ==> res[n].hash.Some?
  {
  }

  lemma PendingSpelledOut(res: map<Name, Resource>, w: Watch)
    ensures Pending(res, w) <==>
              || (exists n :: n in res && Subscribed(w.sub, n) && News(res, w, n))
              || ((w.delta || w.fullStateType) && exists n :: n in w.sub.known && (n !in res || !Subscribed(w.sub, n)))
  {
    hide Subscribed;
    if n :| n in res && Subscribed(w.sub, n) && News(res, w, n) { assert n in StaleNames(res, w); }
    if n :| n in w.sub.known && (n !in res || !Subscribed(w.sub, n)) { assert n in GoneNames(res, w); }
  }

  lemma TellsSpelledOut(res: map<Name, Resource>, w: Watch, r: Response)
    requires Versioned(res, w) && Tells(res, w, r)
    ensures forall n :: n in r.resources <==>
              n in res && Subscribed(w.sub, n) && ((!w.delta && w.fullStateType) || News(res, w, n))
    ensures forall n :: n in r.removed <==> w.delta && n in w.sub.known && (n !in res || !Subscribed(w.sub, n))
    ensures forall n :: n in r.returned <==> n in res && Subscribed(w.sub, n)
    ensures forall n :: n in r.returned ==>
              Some(r.returned[n]) == if w.delta then res[n].hash else Some(res[n].cacheVersion)
  {
    hide Subscribed;
  }

  /** A subscription covers a name that it lists, a name that extends one of its prefixes, and, if it is a
      wildcard, every name; and no other. */
  lemma SubscribedExactly(sub: Subscription, n: Name)
    ensures Subscribed(sub, n) <==>
              sub.wildcard || n in sub.names || exists p, rest :: p in sub.prefixes && p + rest == n
  {
    if p :| p in sub.prefixes && p <= n { assert p + n[|p|..] == n; }
  }

  lemma ListsEmpty(s: seq<Name>, of: set<Name>)
    requires Lists(s, of)
    ensures |s| == 0 <==> of == {}
  {
    if |s| > 0 { assert s[0] in of; }
    if of != {} {
      var n :| n in of;
      assert n in s;
    }
  }

  lemma ListsMembers(s: seq<Name>, of: set<Name>)
    requires Lists(s, of)
    ensures forall n :: n in s <==> n in of
  {
  }

  lemma NoNames()
    ensures Lists([], {})
  {
  }

  lemma TargetKeys(res: map<Name, Resource>, w: Watch)
    requires Versioned(res, w)
    ensures Target(res, w).Keys == set n | n in res && Subscribed(w.sub, n)
  {
  }

  lemma ReturnedUnfolds(res: map<Name, Resource>, w: Watch, sending: set<Name>, names: seq<Name>, removed: seq<Name>)
    requires forall n :: n in names <==> n in sending
    requires forall n :: n in removed <==> n in GoneNames(res, w)
    requires sending <= res.Keys && forall n :: n in sending ==> VersionOf(res[n], w.delta).Some?
    ensures Updated(res, w, NamesIn(names)) - NamesIn(removed) == Returned(res, w, sending)
  {
    assert NamesIn(removed) == GoneNames(res, w);
    assert NamesIn(names) == sending;
  }

  lemma NothingStaleIsVersioned(res: map<Name, Resource>, w: Watch)
    requires StaleNames(res, w) == {}
    ensures Versioned(res, w)
  {
    forall n | n in res && Subscribed(w.sub, n) ensures VersionOf(res[n], w.delta).Some? {
      assert n !in StaleNames(res, w);
    }
  }

  lemma SendingCovers(res: map<Name, Resource>, w: Watch, sending: set<Name>)
    requires sending == if FullState(w) then set n | n in res && Subscribed(w.sub, n) else StaleNames(res, w)
    ensures StaleNames(res, w) <= sending && forall n :: n in sending ==> n in res && Subscribed(w.sub, n)
    ensures (forall n :: n in sending ==> VersionOf(res[n], w.delta).Some?) <==> Versioned(res, w)
  {
    forall n | n in res && Subscribed(w.sub, n) && n !in sending ensures VersionOf(res[n], w.delta).Some? {
      assert n !in StaleNames(res, w);
    }
  }

  // ---------------------------------------------------------------- consequences

  /** The versions of the resources a message carries. */
  function Carried(res: map<Name, Resource>, w: Watch, names: seq<Name>): map<Name, Version> {
    map n | n in names && n in res && VersionOf(res[n], w.delta).Some? :: VersionOf(res[n], w.delta).value
  }

  /** A response with the contents and removals that the watch is owed. */
  ghost predicate Tells(res: map<Name, Resource>, w: Watch, r: Response)
    requires Versioned(res, w)
  {
    && r.returned == Target(res, w)
    && Lists(r.resources, if FullState(w) then Target(res, w).Keys else StaleNames(res, w))
    && Lists(r.removed, if w.delta then GoneNames(res, w) else {})
  }

  /** What the message says is enough. A full-state client replaces what it holds by what the message
      carries and holds the target. A delta client adds what it carries and drops what it removes, and
      holds the target. A client that cannot be told of removals holds the target and, beyond it,
      only resources that are gone. */
  lemma ClientReachesTarget(res: map<Name, Resource>, w: Watch, r: Response)
    requires Versioned(res, w) && Tells(res, w, r)
    ensures FullState(w) ==> Carried(res, w, r.resources) == Target(res, w)
    ensures w.delta ==> (w.sub.known + Carried(res, w, r.resources)) - NamesIn(r.removed) == Target(res, w)
    ensures !w.delta && !FullState(w) ==>
              (w.sub.known + Carried(res, w, r.resources)) - GoneNames(res, w) == Target(res, w)
  {
    TargetKeys(res, w);
    if !FullState(w) {
      ReturnedIsTarget(res, w, StaleNames(res, w));
      assert Carried(res, w, r.resources) == map n | n in StaleNames(res, w) :: VersionOf(res[n], w.delta).value;
      assert w.delta ==> NamesIn(r.removed) == GoneNames(res, w);
    }
  }

  /** A client that was brought to the target has nothing pending: the next watch is parked. */
  lemma TargetIsQuiet(res: map<Name, Resource>, w: Watch)
    requires Versioned(res, w)
    ensures !Pending(res, w.(sub := w.sub.(known := Target(res, w))))
  {
    var next := w.(sub := w.sub.(known := Target(res, w)));
    forall n ensures n !in StaleNames(res, next) && n !in GoneNames(res, next) {
      assert Subscribed(next.sub, n) == Subscribed(w.sub, n);
    }
  }

  /** For a watch that can express removals, being quiet is the same as holding the target. */
  lemma QuietMeansInSync(res: map<Name, Resource>, w: Watch)
    requires w.delta || FullState(w)
    ensures !Pending(res, w) <==> Versioned(res, w) && w.sub.known == Target(res, w)
  {
    if Versioned(res, w) && w.sub.known == Target(res, w) {
      assert w.(sub := w.sub.(known := Target(res, w))) == w;
      TargetIsQuiet(res, w);
    }
    if !Pending(res, w) {
      NothingStaleIsVersioned(res, w);
      ReturnedIsTarget(res, w, {});
      assert Returned(res, w, {}) == w.sub.known;
    }
  }

  lemma UntouchedNames(before: map<Name, Resource>, after: map<Name, Resource>, w: Watch, modified: set<Name>)
    requires forall n :: n !in modified ==> (n in before <==> n in after) && (n in before ==> before[n] == after[n])
    requires forall n :: n in modified ==> !Subscribed(w.sub, n)
    ensures StaleNames(after, w) <= StaleNames(before, w) && GoneNames(after, w) <= GoneNames(before, w)
  {
  }

  /** Changing resources the watch does not subscribe to cannot make it pending. */
  lemma UntouchedStaysQuiet(before: map<Name, Resource>, after: map<Name, Resource>, w: Watch, modified: set<Name>)
    requires forall n :: n !in modified ==> (n in before <==> n in after) && (n in before ==> before[n] == after[n])
    requires forall n :: n in modified ==> !Subscribed(w.sub, n)
    requires !Pending(before, w)
    ensures !Pending(after, w)
  {
    hide Subscribed, StaleNames, GoneNames;
    UntouchedNames(before, after, w, modified);
  }
}
