/** The linear cache: one collection of resources, the watches open on it, and the responses it has
    sent. Every operation runs under the cache's lock, so an operation is one step. */
module LinearCache {
  import opened Wire
  import opened CacheDiff

  type Index = map<Name, map<nat, Watch>>

  // ---------------------------------------------------------------- the watch indexes

  /** The names a watch is filed under, in the index by name or in the one by prefix. */
  function KeysOf(w: Watch, byPrefix: bool): set<Name> {
    if w.sub.wildcard then {} else if byPrefix then w.sub.prefixes else w.sub.names
  }

  ghost function Filed(open: map<nat, Watch>, n: Name, byPrefix: bool): map<nat, Watch> {
    map id | id in open && n in KeysOf(open[id], byPrefix) :: open[id]
  }

  ghost function Wildcards(open: map<nat, Watch>): map<nat, Watch> {
    map id | id in open && open[id].sub.wildcard :: open[id]
  }

  function Entry(index: Index, n: Name): map<nat, Watch> { if n in index then index[n] else map[] }

  ghost predicate NoEmptyEntry(index: Index) { forall n :: n in index ==> index[n] != map[] }

  /** The index files exactly the open watches, and keeps no empty entry. */
  ghost predicate IndexOf(index: Index, open: map<nat, Watch>, byPrefix: bool) {
    NoEmptyEntry(index) && forall n :: Entry(index, n) == Filed(open, n, byPrefix)
  }

  /** The index r files w under the given keys, and is index elsewhere. */
  ghost predicate Added(index: Index, keys: set<Name>, id: nat, w: Watch, r: Index) {
    NoEmptyEntry(r) && forall n :: Entry(r, n) == if n in keys then Entry(index, n)[id := w] else Entry(index, n)
  }

  ghost predicate Removed(index: Index, keys: set<Name>, id: nat, r: Index) {
    NoEmptyEntry(r) && forall n :: Entry(r, n) == if n in keys then Entry(index, n) - {id} else Entry(index, n)
  }

  lemma EntryAfter(r: Index, n: Name, watches: map<nat, Watch>, other: Name)
    ensures Entry(r[n := watches], other) == if other == n then watches else Entry(r, other)
    ensures Entry(r - {n}, other) == if other == n then map[] else Entry(r, other)
  {
  }

  lemma AddStep(index: Index, keys: set<Name>, n: Name, id: nat, w: Watch, r: Index)
    requires Added(index, keys, id, w, r) && n !in keys
    ensures Added(index, keys + {n}, id, w, r[n := Entry(r, n)[id := w]])
  {
    var next := r[n := Entry(r, n)[id := w]];
    assert NoEmptyEntry(next) by { assert id in Entry(r, n)[id := w]; }
    hide Entry, NoEmptyEntry;
    forall other
      ensures Entry(next, other) == if other in keys + {n} then Entry(index, other)[id := w] else Entry(index, other)
    {
      EntryAfter(r, n, Entry(r, n)[id := w], other);
    }
  }

  lemma RemoveStep(index: Index, keys: set<Name>, n: Name, id: nat, r: Index)
    requires Removed(index, keys, id, r) && n !in keys
    ensures var watches := Entry(r, n) - {id};
            Removed(index, keys + {n}, id, if watches == map[] then r - {n} else r[n := watches])
  {
    var watches := Entry(r, n) - {id};
    var next := if watches == map[] then r - {n} else r[n := watches];
    assert NoEmptyEntry(next);
    hide Entry, NoEmptyEntry;
    forall other
      ensures Entry(next, other) == if other in keys + {n} then Entry(index, other) - {id} else Entry(index, other)
    {
      EntryAfter(r, n, watches, other);
    }
  }

  /** The loop of trackWatch over names or prefixes. */
  method AddTo(index: Index, keys: set<Name>, id: nat, w: Watch) returns (r: Index)
    requires NoEmptyEntry(index)
    ensures Added(index, keys, id, w, r)
  {
    r := index;
    NothingAdded(index, id, w);
    hide Added, NoEmptyEntry;
    var todo := keys;
    assert keys - todo == {};
    while todo != {}
      invariant todo <= keys && Added(index, keys - todo, id, w, r)
    {
      var n :| n in todo;
      AddStep(index, keys - todo, n, id, w, r);
      assert keys - (todo - {n}) == (keys - todo) + {n};
      todo := todo - {n};
      var watches := if n in r then r[n] else map[];
      r := r[n := watches[id := w]];
    }
    assert keys - {} == keys;
  }

  /** The loop of removeWatch over names or prefixes; an entry that becomes empty is dropped. */
  method RemoveFrom(index: Index, keys: set<Name>, id: nat) returns (r: Index)
    requires NoEmptyEntry(index)
    ensures Removed(index, keys, id, r)
  {
    r := index;
    NothingRemoved(index, id);
    hide Removed, NoEmptyEntry;
    var todo := keys;
    assert keys - todo == {};
    while todo != {}
      invariant todo <= keys && Removed(index, keys - todo, id, r)
    {
      var n :| n in todo;
      RemoveStep(index, keys - todo, n, id, r);
      assert keys - (todo - {n}) == (keys - todo) + {n};
      todo := todo - {n};
      var watches := if n in r then r[n] - {id} else map[];
      assert watches == Entry(r, n) - {id};
      if |watches| == 0 {
        r := r - {n};
      } else {
        r := r[n := watches];
      }
    }
    assert keys - {} == keys;
  }

  lemma NothingAdded(index: Index, id: nat, w: Watch)
    requires NoEmptyEntry(index)
    ensures Added(index, {}, id, w, index)
  {
  }

  lemma NothingRemoved(index: Index, id: nat)
    requires NoEmptyEntry(index)
    ensures Removed(index, {}, id, index)
  {
  }

  lemma FiledAfterAdd(open: map<nat, Watch>, id: nat, w: Watch, n: Name, byPrefix: bool)
    requires id !in open
    ensures Filed(open[id := w], n, byPrefix)
         == if n in KeysOf(w, byPrefix) then Filed(open, n, byPrefix)[id := w] else Filed(open, n, byPrefix)
  {
  }

  lemma FiledAfterRemove(open: map<nat, Watch>, id: nat, n: Name, byPrefix: bool)
    ensures Filed(open - {id}, n, byPrefix) == Filed(open, n, byPrefix) - {id}
    ensures id !in open || n !in KeysOf(open[id], byPrefix) ==>
        Filed(open, n, byPrefix) - {id} == Filed(open, n, byPrefix)
  {
  }

  lemma AddKeepsIndex(index: Index, open: map<nat, Watch>, id: nat, w: Watch, byPrefix: bool, r: Index)
    requires IndexOf(index, open, byPrefix) && id !in open && Added(index, KeysOf(w, byPrefix), id, w, r)
    ensures IndexOf(r, open[id := w], byPrefix)
  {
    hide Filed, Entry, KeysOf;
    forall n ensures Entry(r, n) == Filed(open[id := w], n, byPrefix) {
      FiledAfterAdd(open, id, w, n, byPrefix);
    }
  }

  lemma RemoveKeepsIndex(index: Index, open: map<nat, Watch>, id: nat, w: Watch, byPrefix: bool, r: Index)
    requires IndexOf(index, open, byPrefix) && (id in open ==> open[id] == w)
    requires Removed(index, KeysOf(w, byPrefix), id, r)
    ensures IndexOf(r, open - {id}, byPrefix)
  {
    hide Filed, Entry, KeysOf;
    forall n ensures Entry(r, n) == Filed(open - {id}, n, byPrefix) {
      FiledAfterRemove(open, id, n, byPrefix);
    }
  }

  /** The three tables of watches together hold exactly the open ones. */
  ghost predicate Books(names: Index, prefixes: Index, wildcards: map<nat, Watch>, open: map<nat, Watch>) {
    IndexOf(names, open, false) && IndexOf(prefixes, open, true) && wildcards == Wildcards(open)
  }

  lemma BooksHaveNoEmptyEntry(names: Index, prefixes: Index, wildcards: map<nat, Watch>, open: map<nat, Watch>)
    requires Books(names, prefixes, wildcards, open)
    ensures NoEmptyEntry(names) && NoEmptyEntry(prefixes)
  {
  }

  lemma WildcardKeys(w: Watch, index: Index, id: nat)
    requires NoEmptyEntry(index)
    ensures if w.sub.wildcard then KeysOf(w, false) == KeysOf(w, true) == {}
            else KeysOf(w, false) == w.sub.names && KeysOf(w, true) == w.sub.prefixes
    ensures Added(index, {}, id, w, index) && Removed(index, {}, id, index)
  {
    NothingAdded(index, id, w);
    NothingRemoved(index, id);
  }

  lemma WildcardsAfterAdd(open: map<nat, Watch>, id: nat, w: Watch)
    requires id !in open
    ensures Wildcards(open[id := w]) == if w.sub.wildcard then Wildcards(open)[id := w] else Wildcards(open)
  {
  }

  lemma WildcardsAfterRemove(open: map<nat, Watch>, id: nat, w: Watch)
    requires id in open ==> open[id] == w
    ensures Wildcards(open - {id}) == if w.sub.wildcard then Wildcards(open) - {id} else Wildcards(open)
  {
  }

  lemma BooksAfterAdd(names: Index, prefixes: Index, wildcards: map<nat, Watch>, open: map<nat, Watch>,
                      id: nat, w: Watch, names': Index, prefixes': Index)
    requires Books(names, prefixes, wildcards, open) && id !in open
    requires Added(names, KeysOf(w, false), id, w, names') && Added(prefixes, KeysOf(w, true), id, w, prefixes')
    ensures Books(names', prefixes', if w.sub.wildcard then wildcards[id := w] else wildcards, open[id := w])
    ensures |open[id := w]| == |open| + 1
  {
    hide IndexOf, Added, KeysOf, Wildcards;
    AddKeepsIndex(names, open, id, w, false, names');
    AddKeepsIndex(prefixes, open, id, w, true, prefixes');
    WildcardsAfterAdd(open, id, w);
    assert open[id := w].Keys == open.Keys + {id};
  }

  lemma BooksAfterRemove(names: Index, prefixes: Index, wildcards: map<nat, Watch>, open: map<nat, Watch>,
                         id: nat, w: Watch, names': Index, prefixes': Index)
    requires Books(names, prefixes, wildcards, open) && (id in open ==> open[id] == w)
    requires Removed(names, KeysOf(w, false), id, names') && Removed(prefixes, KeysOf(w, true), id, prefixes')
    ensures Books(names', prefixes', if w.sub.wildcard then wildcards - {id} else wildcards, open - {id})
    ensures |open - {id}| == if id in open then |open| - 1 else |open|
  {
    hide IndexOf, Removed, KeysOf, Wildcards;
    RemoveKeepsIndex(names, open, id, w, false, names');
    RemoveKeepsIndex(prefixes, open, id, w, true, prefixes');
    WildcardsAfterRemove(open, id, w);
    assert (open - {id}).Keys == open.Keys - {id};
  }

  // ---------------------------------------------------------------- which watches a change concerns

  /** A change of these names concerns the watch; every change concerns a wildcard watch. */
  ghost predicate Concerned(w: Watch, modified: set<Name>) {
    w.sub.wildcard || exists n :: n in modified && Subscribed(w.sub, n)
  }

  ghost function ConcernedIds(open: map<nat, Watch>, modified: set<Name>): set<nat> {
    set id | id in open && Concerned(open[id], modified)
  }

  ghost predicate NamesIt(w: Watch, n: Name) { !w.sub.wildcard && Subscribed(w.sub, n) }

  lemma NamesItConcerned(w: Watch, modified: seq<Name>)
    ensures (exists k :: 0 <= k < |modified| && NamesIt(w, modified[k]))
       <==> !w.sub.wildcard && Concerned(w, NamesIn(modified))
  {
    hide Subscribed;
    if !w.sub.wildcard && Concerned(w, NamesIn(modified)) {
      var n :| n in NamesIn(modified) && Subscribed(w.sub, n);
      var k :| 0 <= k < |modified| && modified[k] == n;
      assert NamesIt(w, modified[k]);
    }
  }

  /** A part of the open watches. */
  ghost predicate Among(t: map<nat, Watch>, open: map<nat, Watch>) {
    forall id :: id in t ==> id in open && t[id] == open[id]
  }

  lemma AmongAt(t: map<nat, Watch>, open: map<nat, Watch>, id: nat)
    requires Among(t, open)
    ensures id in t ==> id in open && t[id] == open[id]
  {
  }

  lemma FromNameIndex(index: Index, open: map<nat, Watch>, n: Name)
    requires IndexOf(index, open, false)
    ensures Among(Entry(index, n), open)
    ensures forall id :: id in Entry(index, n) <==> id in open && !open[id].sub.wildcard && n in open[id].sub.names
  {
    assert Entry(index, n) == Filed(open, n, false);
  }

  lemma FromPrefixIndex(index: Index, open: map<nat, Watch>, p: Name)
    requires IndexOf(index, open, true)
    ensures Among(Entry(index, p), open)
    ensures forall id :: id in Entry(index, p) <==> id in open && !open[id].sub.wildcard && p in open[id].sub.prefixes
  {
    assert Entry(index, p) == Filed(open, p, true);
  }

  /** The watches that follow a name, by name or by prefix. */
  method Matching(names: Index, prefixes: Index, n: Name, ghost open: map<nat, Watch>) returns (t: map<nat, Watch>)
    requires IndexOf(names, open, false) && IndexOf(prefixes, open, true)
    ensures Among(t, open)
    ensures forall id :: id in t <==> id in open && NamesIt(open[id], n)
  {
    hide IndexOf;
    t := if n in names then names[n] else map[];
    FromNameIndex(names, open, n);
    var todo := prefixes.Keys;
    while todo != {}
      invariant todo <= prefixes.Keys && Among(t, open)
      invariant forall id :: id in t ==> NamesIt(open[id], n)
      invariant forall id :: id in open && !open[id].sub.wildcard && n in open[id].sub.names ==> id in t
      invariant forall p, id :: p in prefixes && p !in todo && p <= n && id in prefixes[p] ==> id in t
    {
      var p :| p in todo;
      todo := todo - {p};
      FromPrefixIndex(prefixes, open, p);
      if p <= n { t := t + prefixes[p]; }
    }
    forall id | id in open && NamesIt(open[id], n) && n !in open[id].sub.names ensures id in t {
      var p :| p in open[id].sub.prefixes && p <= n;
      FromPrefixIndex(prefixes, open, p);
      assert id in Entry(prefixes, p);
    }
  }

  // ---------------------------------------------------------------- the books of a run

  /** No watch is answered twice, and an answered watch is no longer open. */
  ghost predicate SentOnce(sent: seq<(nat, Response)>, open: map<nat, Watch>, issued: map<nat, Watch>) {
    && (forall i :: 0 <= i < |sent| ==> sent[i].0 !in open && sent[i].0 in issued)
    && (forall i, j :: 0 <= i < j < |sent| ==> sent[i].0 != sent[j].0)
  }

  /** The ids given out are 1 to last. */
  ghost predicate Numbered(issued: map<nat, Watch>, last: nat) { forall id :: id in issued <==> 1 <= id <= last }

  lemma LedgerAfterAdd(sent: seq<(nat, Response)>, open: map<nat, Watch>, issued: map<nat, Watch>, id: nat, w: Watch)
    requires SentOnce(sent, open, issued) && Among(open, issued) && id > 0 && Numbered(issued, id - 1)
    ensures SentOnce(sent, open[id := w], issued[id := w]) && Among(open[id := w], issued[id := w]) && id !in issued
        && id !in open
    ensures Numbered(issued[id := w], id)
  {
  }

  ghost predicate Quiet(res: map<Name, Resource>, open: map<nat, Watch>) {
    forall id :: id in open ==> !Pending(res, open[id])
  }

  /** Every open watch that can be told of removals belongs to a client that holds its target. */
  ghost predicate InSync(res: map<Name, Resource>, open: map<nat, Watch>) {
    forall id :: id in open && (open[id].delta || FullState(open[id])) ==>
      Versioned(res, open[id]) && open[id].sub.known == Target(res, open[id])
  }

  lemma QuietIsInSync(res: map<Name, Resource>, open: map<nat, Watch>)
    requires Quiet(res, open)
    ensures InSync(res, open)
  {
    hide Pending, Versioned, Target;
    forall id | id in open && (open[id].delta || FullState(open[id]))
      ensures Versioned(res, open[id]) && open[id].sub.known == Target(res, open[id])
    {
      QuietMeansInSync(res, open[id]);
    }
  }

  /** The response tells the watch all it is owed, brings it to its target and carries the version v. */
  ghost predicate Answers(res: map<Name, Resource>, v: Version, w: Watch, r: Response) {
    Versioned(res, w) && Pending(res, w) && Tells(res, w, r) && r.version == v
  }

  /** From (before, was) to (open, sent): the pending watches among the chosen ones were answered, each
      with its target, and every other watch is still open. */
  ghost predicate Notified(res: map<Name, Resource>, v: Version, chosen: set<nat>, before: map<nat, Watch>,
      was: seq<(nat, Response)>,
                           open: map<nat, Watch>, sent: seq<(nat, Response)>)
  {
    && (forall id :: id in open <==> id in before && !(id in chosen && Pending(res, before[id])))
    && Among(open, before)
    && was <= sent
    && (forall i :: |was| <= i < |sent| ==>
        sent[i].0 in before && sent[i].0 in chosen && Answers(res, v, before[sent[i].0], sent[i].1))
    && (forall id :: id in before && id !in open ==> exists i :: |was| <= i < |sent| && sent[i].0 == id)
  }

  lemma NotifiedNone(res: map<Name, Resource>, v: Version, chosen: set<nat>, open: map<nat, Watch>,
      sent: seq<(nat, Response)>)
    requires forall id :: id in chosen && id in open ==> !Pending(res, open[id])
    ensures Notified(res, v, chosen, open, sent, open, sent)
  {
  }

  lemma NotifiedOne(res: map<Name, Resource>, v: Version, id: nat, open: map<nat, Watch>, sent: seq<(nat, Response)>,
      r: Response)
    requires id in open && Answers(res, v, open[id], r)
    ensures Notified(res, v, {id}, open, sent, open - {id}, sent + [(id, r)])
  {
    assert (sent + [(id, r)])[|sent|].0 == id;
  }

  lemma NotifiedKeeps(res: map<Name, Resource>, v: Version, chosen: set<nat>, before: map<nat, Watch>,
      was: seq<(nat, Response)>,
                      open: map<nat, Watch>, sent: seq<(nat, Response)>)
    requires Notified(res, v, chosen, before, was, open, sent)
    ensures forall id :: id in before && id !in chosen ==> id in open && open[id] == before[id]
    ensures Among(open, before)
  {
  }

  lemma NotifiedGrows(res: map<Name, Resource>, v: Version, chosen: set<nat>, before: map<nat, Watch>,
      was: seq<(nat, Response)>,
                      open: map<nat, Watch>, sent: seq<(nat, Response)>)
    requires Notified(res, v, chosen, before, was, open, sent)
    ensures was <= sent && (chosen == {} ==> sent == was)
  {
    if was != sent { assert sent[|was|].0 in chosen; }
  }

  lemma NotifiedThen(res: map<Name, Resource>, v: Version, a: set<nat>, b: set<nat>,
                     open0: map<nat, Watch>, sent0: seq<(nat, Response)>, open1: map<nat, Watch>,
                         sent1: seq<(nat, Response)>,
                     open2: map<nat, Watch>, sent2: seq<(nat, Response)>)
    requires Notified(res, v, a, open0, sent0, open1, sent1) && Notified(res, v, b, open1, sent1, open2, sent2)
    ensures Notified(res, v, a + b, open0, sent0, open2, sent2)
  {
    hide Pending, Answers;
    forall i | |sent0| <= i < |sent2|
      ensures sent2[i].0 in open0 && sent2[i].0 in a + b && Answers(res, v, open0[sent2[i].0], sent2[i].1)
    {
      if i < |sent1| { assert sent2[i] == sent1[i]; }
    }
    forall id | id in open0 && id !in open2 ensures exists i :: |sent0| <= i < |sent2| && sent2[i].0 == id {
      if id !in open1 {
        var i :| |sent0| <= i < |sent1| && sent1[i].0 == id;
        assert sent2[i].0 == id;
      }
    }
  }

  /** Outside the given names the two collections agree. */
  ghost predicate Differ(before: map<Name, Resource>, after: map<Name, Resource>, modified: set<Name>) {
    forall n :: n !in modified ==> (n in before <==> n in after) && (n in before ==> before[n] == after[n])
  }

  /** The concerned watches that are not wildcards. */
  ghost function NamedIds(open: map<nat, Watch>, modified: set<Name>): set<nat> {
    set id | id in ConcernedIds(open, modified) && !open[id].sub.wildcard
  }

  ghost predicate NamedVersioned(res: map<Name, Resource>, modified: set<Name>, open: map<nat, Watch>) {
    forall id :: id in NamedIds(open, modified) ==> Versioned(res, open[id])
  }

  /** Which watches are told about a change: all the concerned ones, unless one of them cannot be versioned.
      The named ones come first: a wildcard watch is told only once they all were, and they all are unless
      one of themselves cannot be versioned. */
  ghost predicate Told(res: map<Name, Resource>, modified: set<Name>, open: map<nat, Watch>, ok: bool, done: set<nat>) {
    && done <= ConcernedIds(open, modified)
    && (ok ==> done == ConcernedIds(open, modified))
    && (forall id :: id in done ==> Versioned(res, open[id]))
    && (forall id :: id in done && open[id].sub.wildcard ==> NamedIds(open, modified) <= done)
    && (NamedVersioned(res, modified, open) ==> NamedIds(open, modified) <= done)
    && (ok <==> forall id :: id in ConcernedIds(open, modified) ==> Versioned(res, open[id]))
  }

  /** The named watch that is visited first is told, or ends the notification before anyone is told. */
  ghost predicate VisitsFirst(res: map<Name, Resource>, modified: set<Name>, open: map<nat, Watch>, first: nat,
      done: set<nat>) {
    first in NamedIds(open, modified) ==> if Versioned(res, open[first]) then first in done else done == {}
  }

  /** Answering non-wildcard watches leaves the wildcard ones in place, and the two kinds together are
      the concerned watches. */
  lemma WildcardsSurvive(before: map<nat, Watch>, open: map<nat, Watch>, t: map<nat, Watch>, modified: seq<Name>,
      wild: map<nat, Watch>)
    requires wild == Wildcards(open) && Among(t, before) && Among(open, before)
    requires forall id :: id in t <==>
        id in before && !before[id].sub.wildcard && Concerned(before[id], NamesIn(modified))
    requires forall id :: id in before && id !in t ==> id in open
    ensures Among(wild, open) && Among(wild, before)
    ensures t.Keys + wild.Keys == ConcernedIds(before, NamesIn(modified))
    ensures (forall id :: id in t ==> !t[id].sub.wildcard) && (forall id :: id in wild ==> wild[id].sub.wildcard)
  {
  }

  lemma ToldHalf(res: map<Name, Resource>, modified: set<Name>, open: map<nat, Watch>, t: map<nat, Watch>,
      wild: map<nat, Watch>,
                 done: set<nat>)
    requires Among(t, open) && t.Keys + wild.Keys == ConcernedIds(open, modified)
    requires forall id :: id in t ==> !t[id].sub.wildcard
    requires done <= t.Keys && (exists id :: id in t && !Versioned(res, t[id]))
    requires forall id :: id in done ==> Versioned(res, t[id])
    ensures Told(res, modified, open, false, done)
  {
    hide Versioned;
    var broken :| broken in t && !Versioned(res, t[broken]);
    assert broken in ConcernedIds(open, modified);
  }

  lemma ToldInTwo(res: map<Name, Resource>, modified: set<Name>, open: map<nat, Watch>, t: map<nat, Watch>,
      wild: map<nat, Watch>,
                  done1: set<nat>, ok2: bool, done2: set<nat>)
    requires Among(t, open) && Among(wild, open) && t.Keys + wild.Keys == ConcernedIds(open, modified)
    requires (forall id :: id in t ==> !t[id].sub.wildcard) && (forall id :: id in wild ==> wild[id].sub.wildcard)
    requires done1 == t.Keys
    requires done2 <= wild.Keys && (ok2 ==> done2 == wild.Keys)
        && (ok2 <==> forall id :: id in wild ==> Versioned(res, wild[id]))
    requires (forall id :: id in done1 ==> Versioned(res, t[id]))
        && (forall id :: id in done2 ==> Versioned(res, wild[id]))
    ensures Told(res, modified, open, ok2, done1 + done2)
  {
    hide Versioned;
    forall id | id in done1 + done2 ensures Versioned(res, open[id]) {
      assert id in t || id in wild;
    }
  }

  /** A watch that cannot be versioned has something pending. */
  lemma BrokenIsPending(res: map<Name, Resource>, w: Watch)
    ensures !Versioned(res, w) ==> Pending(res, w)
  {
    hide Versioned, StaleNames;
    if StaleNames(res, w) == {} { NothingStaleIsVersioned(res, w); }
  }

  /** No lost update, exactly: after a change of a quiet cache every open watch is quiet again if and only
      if the notification succeeds, that is, if and only if every concerned watch can be versioned. */
  lemma QuietExactly(before: map<Name, Resource>, after: map<Name, Resource>, v: Version, modified: set<Name>, ok: bool,
      done: set<nat>,
                     open0: map<nat, Watch>, sent0: seq<(nat, Response)>, open1: map<nat, Watch>,
                         sent1: seq<(nat, Response)>)
    requires Differ(before, after, modified) && Quiet(before, open0)
    requires Told(after, modified, open0, ok, done) && Notified(after, v, done, open0, sent0, open1, sent1)
    ensures Quiet(after, open1) <==> ok
    ensures Quiet(after, open1) <==> forall id :: id in ConcernedIds(open0, modified) ==> Versioned(after, open0[id])
  {
    hide Pending, Answers, Versioned;
    if ok {
      forall id | id in open1 ensures !Pending(after, open1[id]) {
        if !Concerned(open0[id], modified) { UntouchedStaysQuiet(before, after, open0[id], modified); }
      }
    } else {
      var broken :| broken in ConcernedIds(open0, modified) && !Versioned(after, open0[broken]);
      BrokenIsPending(after, open0[broken]);
      assert broken in open1;
    }
  }

  /** Who can miss an update that it could have been told: a named watch only through another named watch
      that cannot be versioned, a wildcard watch only through some other concerned watch. */
  lemma MissedThrough(res: map<Name, Resource>, modified: set<Name>, open: map<nat, Watch>, ok: bool, done: set<nat>,
      missed: nat)
    requires Told(res, modified, open, ok, done)
    requires missed in ConcernedIds(open, modified) && missed !in done && Versioned(res, open[missed])
    ensures exists broken :: broken in ConcernedIds(open, modified) && !Versioned(res, open[broken]) && broken != missed
                          && (!open[missed].sub.wildcard ==> !open[broken].sub.wildcard)
  {
    hide Versioned, Concerned;
    if !open[missed].sub.wildcard {
      assert missed in NamedIds(open, modified);
      var broken :| broken in NamedIds(open, modified) && !Versioned(res, open[broken]);
    } else {
      var broken :| broken in ConcernedIds(open, modified) && !Versioned(res, open[broken]);
    }
  }

  /** A named watch that cannot be versioned keeps every wildcard watch from being told, whatever it has
      pending. */
  lemma FailureSkipsWildcards(res: map<Name, Resource>, v: Version, modified: set<Name>, ok: bool, done: set<nat>,
      broken: nat,
                              open0: map<nat, Watch>, sent0: seq<(nat, Response)>, open1: map<nat, Watch>,
                                  sent1: seq<(nat, Response)>)
    requires Told(res, modified, open0, ok, done) && Notified(res, v, done, open0, sent0, open1, sent1)
    requires broken in ConcernedIds(open0, modified) && !open0[broken].sub.wildcard && !Versioned(res, open0[broken])
    ensures !ok && forall id :: id in Wildcards(open0) ==> id in open1 && open1[id] == open0[id]
  {
    hide Versioned, Pending, Concerned;
    assert broken in NamedIds(open0, modified) && broken !in done;
    assert forall id :: id in Wildcards(open0) ==> id !in done;
  }

  /** If the named watch that is visited first cannot be versioned, no watch at all is told. */
  lemma FirstFailureSkipsAll(res: map<Name, Resource>, v: Version, modified: set<Name>, ok: bool, done: set<nat>,
      first: nat,
                             open0: map<nat, Watch>, sent0: seq<(nat, Response)>, open1: map<nat, Watch>,
                                 sent1: seq<(nat, Response)>)
    requires Told(res, modified, open0, ok, done) && Notified(res, v, done, open0, sent0, open1, sent1)
    requires VisitsFirst(res, modified, open0, first, done)
    requires first in open0 && !open0[first].sub.wildcard && Concerned(open0[first], modified)
        && !Versioned(res, open0[first])
    ensures !ok && open1 == open0 && sent1 == sent0
  {
    hide Versioned, Concerned, Notified;
    assert first in ConcernedIds(open0, modified) && first in NamedIds(open0, modified);
    NotifiedKeeps(res, v, done, open0, sent0, open1, sent1);
    NotifiedGrows(res, v, done, open0, sent0, open1, sent1);
  }

  /** A wildcard watch that cannot be versioned keeps no named watch from being told. */
  lemma WildcardsSpareNamed(res: map<Name, Resource>, v: Version, modified: set<Name>, ok: bool, done: set<nat>,
                            open0: map<nat, Watch>, sent0: seq<(nat, Response)>, open1: map<nat, Watch>,
                                sent1: seq<(nat, Response)>)
    requires Told(res, modified, open0, ok, done) && Notified(res, v, done, open0, sent0, open1, sent1)
    requires NamedVersioned(res, modified, open0)
    ensures forall id :: id in NamedIds(open0, modified) && id in open1 ==> !Pending(res, open1[id])
  {
    hide Versioned, Pending, Concerned, NamedVersioned;
  }

  lemma LedgerAfterRemove(sent: seq<(nat, Response)>, open: map<nat, Watch>, issued: map<nat, Watch>, id: nat,
      r: Response)
    requires SentOnce(sent, open, issued) && Among(open, issued)
    ensures SentOnce(sent, open - {id}, issued) && Among(open - {id}, issued)
    ensures id in open ==> SentOnce(sent + [(id, r)], open - {id}, issued)
  {
  }

  /** Every resource can be marshalled. */
  ghost predicate Hashable(res: map<Name, Resource>) { forall n :: n in res ==> res[n].hash.Some? }

  lemma HashableIsVersioned(res: map<Name, Resource>, w: Watch)
    requires Hashable(res)
    ensures Versioned(res, w)
  {
  }

  function Decimal(n: nat): string {
    if n < 10 then [('0' as int + n) as char] else Decimal(n / 10) + [('0' as int + n % 10) as char]
  }

  lemma NamesInConcat(a: seq<Name>, b: seq<Name>)
    ensures NamesIn(a + b) == NamesIn(a) + NamesIn(b)
  {
  }

  function Stamped(content: map<Name, Option<Version>>, version: Version): map<Name, Resource> {
    map n | n in content :: Resource(version, content[n])
  }

  lemma StampedKeys(content: map<Name, Option<Version>>, version: Version)
    ensures Stamped(content, version).Keys == content.Keys
    ensures forall n :: n in content ==> Stamped(content, version)[n] == Resource(version, content[n])
  {
  }

  lemma StoredSpelledOut(res: map<Name, Resource>, toUpdate: map<Name, Option<Version>>, version: Version,
                         toDelete: seq<Name>)
    ensures var r := (res + Stamped(toUpdate, version)) - NamesIn(toDelete);
            && (forall n :: n in r <==> n !in toDelete && (n in toUpdate || n in res))
            && (forall n :: n in r ==> r[n] == if n in toUpdate then Resource(version, toUpdate[n]) else res[n])
  {
  }

  method StoreAll(res: map<Name, Resource>, content: map<Name, Option<Version>>, version: Version)
    returns (r: map<Name, Resource>, modified: seq<Name>)
    ensures r == res + Stamped(content, version) && NamesIn(modified) == content.Keys
  {
    r, modified := res, [];
    var todo := content.Keys;
    while todo != {}
      invariant todo <= content.Keys && NamesIn(modified) == content.Keys - todo
      invariant r == res + map n | n in content && n !in todo :: Resource(version, content[n])
    {
      var n :| n in todo;
      todo := todo - {n};
      NamesInSnoc(modified, n);
      r := r[n := Resource(version, content[n])];
      modified := modified + [n];
    }
  }

  method DropAll(res: map<Name, Resource>, toDelete: seq<Name>, updated: seq<Name>)
    returns (r: map<Name, Resource>, modified: seq<Name>)
    ensures r == res - NamesIn(toDelete) && NamesIn(modified) == NamesIn(updated) + NamesIn(toDelete)
  {
    r, modified := res, updated;
    for i := 0 to |toDelete|
      invariant r == res - NamesIn(toDelete[..i]) && NamesIn(modified) == NamesIn(updated) + NamesIn(toDelete[..i])
    {
      NamesInSnoc(toDelete[..i], toDelete[i]);
      NamesInSnoc(modified, toDelete[i]);
      assert toDelete[..i + 1] == toDelete[..i] + [toDelete[i]];
      r := r - {toDelete[i]};
      modified := modified + [toDelete[i]];
    }
    assert toDelete[..|toDelete|] == toDelete;
  }

  lemma OneName(n: Name, before: map<Name, Resource>, after: map<Name, Resource>)
    requires after == before - {n} || (n in after && after == before[n := after[n]])
    ensures NamesIn([n]) == {n} && Differ(before, after, {n})
  {
  }

  lemma DifferAfterUpdate(before: map<Name, Resource>, stored: map<Name, Resource>, dropped: set<Name>)
    ensures Differ(before, (before + stored) - dropped, stored.Keys + dropped)
  {
  }

  lemma DifferAfterSet(before: map<Name, Resource>, kept: map<Name, Resource>, content: map<Name, Option<Version>>,
      version: Version)
    requires kept.Keys <= content.Keys
    ensures kept + Stamped(content, version) == Stamped(content, version)
        && Stamped(content, version).Keys == content.Keys
    ensures Differ(before, Stamped(content, version), before.Keys + content.Keys)
  {
  }

  method DropMissing(res: map<Name, Resource>, keep: set<Name>) returns (r: map<Name, Resource>, modified: seq<Name>)
    ensures r == (map n | n in res && n in keep :: res[n]) && NamesIn(modified) == res.Keys - keep
  {
    r, modified := res, [];
    var todo := res.Keys;
    while todo != {}
      invariant todo <= res.Keys && NamesIn(modified) == res.Keys - todo - keep
      invariant r == map n | n in res && (n in todo || n in keep) :: res[n]
    {
      var n :| n in todo;
      todo := todo - {n};
      NamesInSnoc(modified, n);
      if n !in keep {
        r := r - {n};
        modified := modified + [n];
      }
    }
  }

  /** Outcome of opening a watch: refused, answered at once, or parked under an id. */
  datatype Created = Refused | Replied(response: Response) | Parked(id: nat)

  /** Refused exactly when some covered resource has no version; answered exactly when there is news or
      an answer is due anyway; parked otherwise, with nothing to hear. */
  ghost predicate Opened(res: map<Name, Resource>, v: Version, w: Watch, replyEvenIfEmpty: bool, c: Created) {
    match c
    case Refused => !Versioned(res, w)
    case Replied(r) => Versioned(res, w) && (replyEvenIfEmpty || Pending(res, w)) && Tells(res, w, r) && r.version == v
    case Parked(_) => Versioned(res, w) && !replyEvenIfEmpty && !Pending(res, w)
  }

  datatype Op =
    | Update(name: Name, content: Option<Option<Version>>)
    | Delete(name: Name)
    | UpdateMany(toUpdate: map<Name, Option<Version>>, toDelete: seq<Name>)
    | SetAll(all: map<Name, Option<Version>>)
    | Subscribe(requestType: string, versionInfo: Version, sub: Subscription)
    | SubscribeDelta(requestType: string, nonce: string, sub: Subscription)
    | Drop(id: nat)

  ghost predicate HashableAll(content: map<Name, Option<Version>>) { forall n :: n in content ==> content[n].Some? }

  /** The operation brings in only resources that can be marshalled. */
  ghost predicate HashableOp(op: Op) {
    match op
    case Update(_, content) => content.Some? ==> content.value.Some?
    case UpdateMany(toUpdate, _) => HashableAll(toUpdate)
    case SetAll(all) => HashableAll(all)
    case _ => true
  }

  ghost predicate IsChange(op: Op) { op.Update? || op.Delete? || op.UpdateMany? || op.SetAll? }

  lemma HashableStore(res: map<Name, Resource>, content: map<Name, Option<Version>>, version: Version,
      dropped: set<Name>)
    ensures Hashable(res) && HashableAll(content) ==> Hashable((res + Stamped(content, version)) - dropped)
  {
  }

  lemma HashableStamped(content: map<Name, Option<Version>>, version: Version)
    ensures HashableAll(content) ==> Hashable(Stamped(content, version))
  {
  }

  lemma HashableOne(res: map<Name, Resource>, name: Name, r: Resource)
    ensures Hashable(res) ==> Hashable(res - {name}) && (r.hash.Some? ==> Hashable(res[name := r]))
  {
  }

  lemma HashableIsTold(res: map<Name, Resource>, modified: set<Name>, open: map<nat, Watch>, ok: bool, done: set<nat>)
    requires Hashable(res) && Told(res, modified, open, ok, done)
    ensures ok
  {
    forall id | id in ConcernedIds(open, modified) ensures Versioned(res, open[id]) {
      HashableIsVersioned(res, open[id]);
    }
  }

  const CLUSTER_TYPE: string := "type.googleapis.com/envoy.config.cluster.v3.Cluster"
  const LISTENER_TYPE: string := "type.googleapis.com/envoy.config.listener.v3.Listener"

  /** Clusters and listeners must be sent whole in the state-of-the-world protocol. */
  predicate RequiresFullState(typeURL: string) { typeURL == CLUSTER_TYPE || typeURL == LISTENER_TYPE }

  class Cache {
    const typeURL: string
    const versionPrefix: string
    var resources: map<Name, Resource>
    var resourceWatches: Index
    var prefixWatches: Index
    var wildcardWatches: map<nat, Watch>
    var currentWatchID: nat
    var version: nat
    var watchCount: int
    /** What went out on the channels of parked watches, with the watch it answered. */
    var sent: seq<(nat, Response)>
    /** Go leaves the order open in which the entries of a map are visited. This is the watch that happens to
        come up first when it is among those visited; 0 is no watch and leaves the whole order open. */
    var visitedFirst: nat
    /** Every watch ever parked, the ones still open, and the cancellations that did and did not find
        their watch open. */
    ghost var issued: map<nat, Watch>
    ghost var open: map<nat, Watch>
    ghost var cancelled: nat
    ghost var staleCancels: nat

    ghost predicate Valid()
      reads this`resourceWatches, this`prefixWatches, this`wildcardWatches, this`currentWatchID, this`watchCount,
          this`sent,
            this`issued, this`open, this`cancelled, this`staleCancels
    {
      && Books(resourceWatches, prefixWatches, wildcardWatches, open)
      && Among(open, issued)
      && Numbered(issued, currentWatchID)
      && SentOnce(sent, open, issued)
      && watchCount == |open| - staleCancels
      && currentWatchID == |open| + |sent| + cancelled
    }

    constructor (typeURL: string, versionPrefix: string, initial: map<Name, Option<Version>>)
      ensures Valid() && open == map[] && sent == [] && watchCount == 0 && staleCancels == 0 && version == 0
      ensures this.typeURL == typeURL && this.versionPrefix == versionPrefix
      ensures resources.Keys == initial.Keys
      ensures forall n :: n in initial ==> resources[n] == Resource(versionPrefix + Decimal(0), initial[n])
    {
      this.typeURL, this.versionPrefix := typeURL, versionPrefix;
      resources := map n | n in initial :: Resource(versionPrefix + Decimal(0), initial[n]);
      resourceWatches, prefixWatches, wildcardWatches := map[], map[], map[];
      currentWatchID, version, watchCount, sent, visitedFirst := 0, 0, 0, [], 0;
      issued, open, cancelled, staleCancels := map[], map[], 0, 0;
    }

    function GetVersion(): Version
      reads this
    {
      versionPrefix + Decimal(version)
    }

    // -------------------------------------------------------------- opening and closing watches

    /** Files the watch under a fresh id. */
    method TrackWatch(w: Watch) returns (id: nat)
      requires Valid()
      modifies this`resourceWatches, this`prefixWatches, this`wildcardWatches, this`currentWatchID, this`watchCount,
          this`open, this`issued
      ensures Valid()
      ensures id !in old(issued) && issued == old(issued)[id := w]
      ensures open == old(open)[id := w] && watchCount == old(watchCount) + 1
    {
      hide Books, Added, Removed, KeysOf, NoEmptyEntry, SentOnce, Among, Numbered;
      watchCount := watchCount + 1;
      currentWatchID := currentWatchID + 1;
      id := currentWatchID;
      LedgerAfterAdd(sent, open, issued, id, w);
      FileWatch(id, w);
      issued := issued[id := w];
    }

    /** The tables take the watch in, as its subscription asks. */
    method FileWatch(id: nat, w: Watch)
      requires Books(resourceWatches, prefixWatches, wildcardWatches, open) && id !in open
      modifies this`resourceWatches, this`prefixWatches, this`wildcardWatches, this`open
      ensures Books(resourceWatches, prefixWatches, wildcardWatches, open)
      ensures open == old(open)[id := w] && |open| == |old(open)| + 1
    {
      hide Books, Added, Removed, KeysOf, NoEmptyEntry;
      var names, prefixes, wild := resourceWatches, prefixWatches, wildcardWatches;
      BooksHaveNoEmptyEntry(resourceWatches, prefixWatches, wildcardWatches, open);
      WildcardKeys(w, names, id);
      WildcardKeys(w, prefixes, id);
      if w.sub.wildcard {
        wild := wild[id := w];
      } else {
        names := AddTo(resourceWatches, w.sub.names, id, w);
        prefixes := AddTo(prefixWatches, w.sub.prefixes, id, w);
      }
      BooksAfterAdd(resourceWatches, prefixWatches, wildcardWatches, open, id, w, names, prefixes);
      resourceWatches, prefixWatches, wildcardWatches, open := names, prefixes, wild, open[id := w];
    }

    method RemoveWildcardWatch(id: nat)
      requires Books(resourceWatches, prefixWatches, wildcardWatches, open) && (id in open ==> open[id].sub.wildcard)
      modifies this`wildcardWatches, this`watchCount, this`open
      ensures Books(resourceWatches, prefixWatches, wildcardWatches, open)
      ensures open == old(open) - {id} && watchCount == old(watchCount) - 1
      ensures |open| == |old(open)| - if id in old(open) then 1 else 0
    {
      hide Books, Removed, KeysOf, NoEmptyEntry, Added;
      watchCount := watchCount - 1;
      ghost var w := if id in open then open[id] else Watch(true, false, Subscription(true, {}, {}, map[]));
      BooksHaveNoEmptyEntry(resourceWatches, prefixWatches, wildcardWatches, open);
      WildcardKeys(w, resourceWatches, id);
      WildcardKeys(w, prefixWatches, id);
      BooksAfterRemove(resourceWatches, prefixWatches, wildcardWatches, open, id, w, resourceWatches, prefixWatches);
      wildcardWatches := wildcardWatches - {id};
      open := open - {id};
    }

    method RemoveWatch(id: nat, w: Watch)
      requires Books(resourceWatches, prefixWatches, wildcardWatches, open)
      requires !w.sub.wildcard && (id in open ==> open[id] == w)
      modifies this`resourceWatches, this`prefixWatches, this`watchCount, this`open
      ensures Books(resourceWatches, prefixWatches, wildcardWatches, open)
      ensures open == old(open) - {id} && watchCount == old(watchCount) - 1
      ensures |open| == |old(open)| - if id in old(open) then 1 else 0
    {
      hide Books, Removed, KeysOf, NoEmptyEntry, Added;
      BooksHaveNoEmptyEntry(resourceWatches, prefixWatches, wildcardWatches, open);
      WildcardKeys(w, resourceWatches, id);
      var names := RemoveFrom(resourceWatches, w.sub.names, id);
      var prefixes := RemoveFrom(prefixWatches, w.sub.prefixes, id);
      BooksAfterRemove(resourceWatches, prefixWatches, wildcardWatches, open, id, w, names, prefixes);
      resourceWatches, prefixWatches := names, prefixes;
      watchCount := watchCount - 1;
      open := open - {id};
    }

    /** The cancellation function returned for a parked watch. It may be called again, or after the watch
        was answered: the count goes down all the same. */
    method Cancel(id: nat, w: Watch)
      requires Valid() && id in issued && issued[id] == w
      modifies this`resourceWatches, this`prefixWatches, this`wildcardWatches, this`watchCount, this`open,
               this`cancelled, this`staleCancels
      ensures Valid() && open == old(open) - {id} && watchCount == old(watchCount) - 1
      ensures if id in old(open) then cancelled == old(cancelled) + 1 && staleCancels == old(staleCancels)
              else cancelled == old(cancelled) && staleCancels == old(staleCancels) + 1
    {
      hide Books, SentOnce, Numbered, Among;
      assert id in open ==> open[id] == w by { AmongAt(open, issued, id); }
      LedgerAfterRemove(sent, open, issued, id, Response([], [], map[], ""));
      if id in open { cancelled := cancelled + 1; } else { staleCancels := staleCancels + 1; }
      if w.sub.wildcard {
        RemoveWildcardWatch(id);
      } else {
        RemoveWatch(id, w);
      }
    }

    // -------------------------------------------------------------- notification

    /** The watches filed under the modified names and under the prefixes that match them. */
    method Triggered(modified: seq<Name>) returns (t: map<nat, Watch>)
      requires Books(resourceWatches, prefixWatches, wildcardWatches, open)
      ensures Among(t, open)
      ensures forall id :: id in t <==> id in open && !open[id].sub.wildcard && Concerned(open[id], NamesIn(modified))
    {
      hide IndexOf, Subscribed;
      t := map[];
      for i := 0 to |modified|
        invariant Among(t, open)
        invariant forall id :: id in t <==> id in open && exists k :: 0 <= k < i && NamesIt(open[id], modified[k])
      {
        var one := Matching(resourceWatches, prefixWatches, modified[i], open);
        t := t + one;
      }
      forall id | id in open ensures (exists k :: 0 <= k < |modified| && NamesIt(open[id], modified[k]))
                                <==> !open[id].sub.wildcard && Concerned(open[id], NamesIn(modified))
      {
        NamesItConcerned(open[id], modified);
      }
    }

    /** One parked watch: it is answered and removed when it has something pending. */
    method Answer(id: nat, w: Watch) returns (ok: bool)
      requires Valid() && id in open && open[id] == w
      modifies this`resourceWatches, this`prefixWatches, this`wildcardWatches, this`watchCount, this`open, this`sent
      ensures Valid() && ok == Versioned(resources, w)
      ensures Notified(resources, versionPrefix + Decimal(version), if ok then {id}
          else {}, old(open), old(sent), open, sent)
    {
      hide Books, SentOnce, Numbered, Notified, Pending, Versioned, Tells, ResponseFor, Among, Decimal;
      NotifiedNone(resources, GetVersion(), {}, open, sent);
      var r;
      r, ok := ComputeResponse(resources, w, false, GetVersion());
      if !ok { return; }
      if r.None? {
        NotifiedNone(resources, GetVersion(), {id}, open, sent);
        return;
      }
      LedgerAfterRemove(sent, open, issued, id, r.value);
      NotifiedOne(resources, GetVersion(), id, open, sent, r.value);
      sent := sent + [(id, r.value)];
      if w.sub.wildcard {
        RemoveWildcardWatch(id);
      } else {
        RemoveWatch(id, w);
      }
    }

    /** The loop over the triggered watches; it stops at the first failure. */
    method AnswerEach(t: map<nat, Watch>) returns (ok: bool, ghost done: set<nat>)
      requires Valid() && Among(t, open)
      modifies this`resourceWatches, this`prefixWatches, this`wildcardWatches, this`watchCount, this`open, this`sent
      ensures Valid() && done <= t.Keys && (ok ==> done == t.Keys)
      ensures ok == forall id :: id in t ==> Versioned(resources, t[id])
      ensures forall id :: id in done ==> Versioned(resources, t[id])
      ensures visitedFirst in t ==> if Versioned(resources, t[visitedFirst]) then visitedFirst in done else done == {}
      ensures Notified(resources, versionPrefix + Decimal(version), done, old(open), old(sent), open, sent)
    {
      hide Valid, Notified, Versioned;
      var todo := t.Keys;
      done := {};
      NotifiedNone(resources, GetVersion(), {}, open, sent);
      while todo != {}
        invariant Valid() && todo <= t.Keys && done == t.Keys - todo
        invariant forall id :: id in todo ==> id in open && open[id] == t[id]
        invariant forall id :: id in done ==> Versioned(resources, t[id])
        invariant visitedFirst in todo ==> done == {}
        invariant Notified(resources, GetVersion(), done, old(open), old(sent), open, sent)
      {
        var id :| id in todo;
        if visitedFirst in todo { id := visitedFirst; }
        todo := todo - {id};
        ghost var open1, sent1 := open, sent;
        ok := Answer(id, t[id]);
        NotifiedKeeps(resources, GetVersion(), if ok then {id} else {}, open1, sent1, open, sent);
        NotifiedThen(resources, GetVersion(), done, if ok then {id}
            else {}, old(open), old(sent), open1, sent1, open, sent);
        if !ok {
          assert done + {} == done;
          return;
        }
        done := done + {id};
      }
      ok := true;
      assert done == t.Keys;
    }

    /** Tells the watches a change concerns: first those filed under the modified names, then the wildcard
        ones. It succeeds exactly when each of them can be given a version of all it covers. */
    method NotifyAll(modified: seq<Name>) returns (ok: bool, ghost done: set<nat>)
      requires Valid()
      modifies this`resourceWatches, this`prefixWatches, this`wildcardWatches, this`watchCount, this`open, this`sent
      ensures Valid()
      ensures Told(resources, NamesIn(modified), old(open), ok, done)
      ensures VisitsFirst(resources, NamesIn(modified), old(open), visitedFirst, done)
      ensures Notified(resources, versionPrefix + Decimal(version), done, old(open), old(sent), open, sent)
    {
      hide Notified, Versioned, Concerned, Valid, Books, NamesIn, Told, ConcernedIds;
      ValidBooks();
      var triggered := Triggered(modified);
      ok, done := AnswerEach(triggered);
      ghost var open1, sent1 := open, sent;
      NotifiedKeeps(resources, GetVersion(), done, old(open), old(sent), open, sent);
      ValidBooks();
      WildcardsSurvive(old(open), open, triggered, modified, wildcardWatches);
      ghost var wild := wildcardWatches;
      if !ok {
        ToldHalf(resources, NamesIn(modified), old(open), triggered, wild, done);
        return;
      }
      ghost var more;
      ok, more := AnswerEach(wildcardWatches);
      ToldInTwo(resources, NamesIn(modified), old(open), triggered, wild, done, ok, more);
      NotifiedThen(resources, GetVersion(), done, more, old(open), old(sent), open1, sent1, open, sent);
      done := done + more;
    }

    lemma ValidBooks()
      requires Valid()
      ensures Books(resourceWatches, prefixWatches, wildcardWatches, open) && wildcardWatches == Wildcards(open)
    {
    }

    // -------------------------------------------------------------- changing resources

    /** What every change guarantees. */
    twostate predicate Announced(modified: set<Name>, ok: bool, done: set<nat>)
      reads this
    {
      && Valid() && version == old(version) + 1
      && issued == old(issued) && cancelled == old(cancelled) && staleCancels == old(staleCancels)
      && Differ(old(resources), resources, modified)
      && Told(resources, modified, old(open), ok, done)
      && VisitsFirst(resources, modified, old(open), old(visitedFirst), done)
      && Notified(resources, versionPrefix + Decimal(version), done, old(open), old(sent), open, sent)
      && (Quiet(old(resources), old(open)) ==> (ok <==> Quiet(resources, open)))
    }

    /** The notification that ends every change of resources. */
    method Announce(modified: seq<Name>, ghost before: map<Name, Resource>) returns (ok: bool, ghost done: set<nat>)
      requires Valid() && Differ(before, resources, NamesIn(modified))
      modifies this`resourceWatches, this`prefixWatches, this`wildcardWatches, this`watchCount, this`open, this`sent
      ensures Valid() && Told(resources, NamesIn(modified), old(open), ok, done)
      ensures VisitsFirst(resources, NamesIn(modified), old(open), visitedFirst, done)
      ensures Notified(resources, versionPrefix + Decimal(version), done, old(open), old(sent), open, sent)
      ensures Quiet(before, old(open)) ==> (ok <==> Quiet(resources, open))
    {
      hide Notified, Differ, Quiet, Valid, Told, VisitsFirst;
      ok, done := NotifyAll(modified);
      if Quiet(before, old(open)) {
        QuietExactly(before, resources, GetVersion(), NamesIn(modified), ok, done, old(open), old(sent), open, sent);
      }
    }

    /** A missing resource is refused and changes nothing. */
    method UpdateResource(name: Name, content: Option<Option<Version>>) returns (ok: bool, ghost done: set<nat>)
      requires Valid()
      modifies this
      ensures content.None? ==> !ok && unchanged(this)
      ensures content.Some? ==> Announced({name}, ok, done)
      ensures content.Some? ==>
                resources == old(resources)[name := Resource(versionPrefix + Decimal(version), content.value)]
    {
      hide Notified, Told, VisitsFirst, Quiet, Valid, Decimal, Differ, Stamped, NamesIn;
      if content.None? { return false, {}; }
      version := version + 1;
      resources := resources[name := Resource(GetVersion(), content.value)];
      OneName(name, old(resources), resources);
      ok, done := Announce([name], old(resources));
    }

    method DeleteResource(name: Name) returns (ok: bool, ghost done: set<nat>)
      requires Valid()
      modifies this
      ensures Announced({name}, ok, done) && resources == old(resources) - {name}
    {
      hide Notified, Told, VisitsFirst, Quiet, Valid, Decimal, Differ, Stamped, NamesIn;
      version := version + 1;
      resources := resources - {name};
      OneName(name, old(resources), resources);
      ok, done := Announce([name], old(resources));
    }

    /** Updates first, then deletions: a name in both is deleted. */
    method UpdateResources(toUpdate: map<Name, Option<Version>>, toDelete: seq<Name>)
      returns (ok: bool, ghost done: set<nat>)
      requires Valid()
      modifies this
      ensures Announced(toUpdate.Keys + NamesIn(toDelete), ok, done)
      ensures resources == (old(resources) + Stamped(toUpdate, GetVersion())) - NamesIn(toDelete)
      ensures forall n :: n in resources <==> n !in toDelete && (n in toUpdate || n in old(resources))
      ensures forall n :: n in resources ==>
                resources[n] == if n in toUpdate then Resource(versionPrefix + Decimal(version), toUpdate[n])
                                else old(resources)[n]
    {
      hide Notified, Told, VisitsFirst, Quiet, Valid, Decimal, Differ, Stamped, NamesIn;
      version := version + 1;
      var stored, updated := StoreAll(resources, toUpdate, GetVersion());
      var left, modified := DropAll(stored, toDelete, updated);
      resources := left;
      StampedKeys(toUpdate, GetVersion());
      DifferAfterUpdate(old(resources), Stamped(toUpdate, GetVersion()), NamesIn(toDelete));
      StoredSpelledOut(old(resources), toUpdate, GetVersion(), toDelete);
      ok, done := Announce(modified, old(resources));
    }

    /** The collection becomes exactly the given one; what it no longer holds is announced too. */
    method SetResources(content: map<Name, Option<Version>>) returns (ok: bool, ghost done: set<nat>)
      requires Valid()
      modifies this
      ensures Announced(old(resources).Keys + content.Keys, ok, done)
      ensures resources == Stamped(content, GetVersion()) && resources.Keys == content.Keys
      ensures forall n :: n in content ==> resources[n] == Resource(versionPrefix + Decimal(version), content[n])
    {
      hide Notified, Told, VisitsFirst, Quiet, Valid, Decimal, Differ, Stamped, NamesIn;
      version := version + 1;
      var kept, gone := DropMissing(resources, content.Keys);
      var all, updated := StoreAll(kept, content, GetVersion());
      resources := all;
      NamesInConcat(gone, updated);
      DifferAfterSet(old(resources), kept, content, GetVersion());
      StampedKeys(content, GetVersion());
      assert NamesIn(gone + updated) == old(resources).Keys + content.Keys;
      ok, done := Announce(gone + updated, old(resources));
    }

    // -------------------------------------------------------------- requests

    /** A watch that has something to hear is answered at once; otherwise it is parked, and only then
        does it enter the books. */
    method OpenWatch(w: Watch, replyEvenIfEmpty: bool) returns (c: Created)
      requires Valid()
      modifies this`resourceWatches, this`prefixWatches, this`wildcardWatches, this`currentWatchID, this`watchCount,
          this`open, this`issued
      ensures Valid() && Opened(resources, versionPrefix + Decimal(version), w, replyEvenIfEmpty, c)
      ensures if c.Parked? then c.id !in old(issued) && issued == old(issued)[c.id := w] && open == old(open)[c.id := w]
              else issued == old(issued) && open == old(open) && watchCount == old(watchCount)
    {
      hide Valid, Decimal, Pending, Versioned, Tells, ResponseFor;
      var r, ok := ComputeResponse(resources, w, replyEvenIfEmpty, GetVersion());
      if !ok { return Refused; }
      if r.Some? { return Replied(r.value); }
      var id := TrackWatch(w);
      c := Parked(id);
    }

    /** State of the world: a first request, or one carrying the version of another cache, is always answered. */
    method CreateWatch(requestType: string, versionInfo: Version, sub: Subscription) returns (c: Created)
      requires Valid()
      modifies this`resourceWatches, this`prefixWatches, this`wildcardWatches, this`currentWatchID, this`watchCount,
          this`open, this`issued
      ensures Valid()
      ensures requestType != typeURL ==> c.Refused?
      ensures var w := Watch(false, typeURL == CLUSTER_TYPE || typeURL == LISTENER_TYPE, sub);
              && (requestType == typeURL ==>
                    Opened(resources, versionPrefix + Decimal(version), w,
                        versionInfo == "" || !(versionPrefix <= versionInfo), c))
              && if c.Parked? then c.id !in old(issued) && issued == old(issued)[c.id := w]
                                   && open == old(open)[c.id := w]
                 else issued == old(issued) && open == old(open) && watchCount == old(watchCount)
    {
      hide Valid, Opened;
      if requestType != typeURL { return Refused; }
      var replyEvenIfEmpty := versionInfo == "";
      if !(versionPrefix <= versionInfo) { replyEvenIfEmpty := true; }
      c := OpenWatch(Watch(false, RequiresFullState(typeURL), sub), replyEvenIfEmpty);
    }

    /** Delta: only the first request of a wildcard subscription is always answered. */
    method CreateDeltaWatch(requestType: string, nonce: string, sub: Subscription) returns (c: Created)
      requires Valid()
      modifies this`resourceWatches, this`prefixWatches, this`wildcardWatches, this`currentWatchID, this`watchCount,
          this`open, this`issued
      ensures Valid()
      ensures requestType != typeURL ==> c.Refused?
      ensures requestType == typeURL ==> Opened(resources, versionPrefix + Decimal(version), Watch(true, false, sub),
          sub.wildcard && nonce == "", c)
      ensures if c.Parked? then c.id !in old(issued) && issued == old(issued)[c.id := Watch(true, false, sub)]
                                && open == old(open)[c.id := Watch(true, false, sub)]
              else issued == old(issued) && open == old(open) && watchCount == old(watchCount)
    {
      hide Valid, Opened;
      if requestType != typeURL { return Refused; }
      c := OpenWatch(Watch(true, false, sub), sub.wildcard && nonce == "");
    }

    // -------------------------------------------------------------- whole runs

    /** A change of the collection. */
    method Change(op: Op) returns (ok: bool)
      requires Valid() && IsChange(op)
      modifies this
      ensures Valid() && issued == old(issued) && old(sent) <= sent
      ensures Quiet(old(resources), old(open)) ==> (ok <==> Quiet(resources, open))
      ensures Hashable(old(resources)) && HashableOp(op) ==> ok && Hashable(resources)
    {
      hide Valid, Quiet, Notified, Told, VisitsFirst, Hashable, HashableAll, Decimal, Stamped, Differ;
      ghost var modified: set<Name>, done: set<nat> := {}, {};
      match op {
        case Update(name, content) =>
          if content.None? { return true; }
          ok, done := UpdateResource(name, content);
          modified := {name};
          HashableOne(old(resources), name, Resource(GetVersion(), content.value));
        case Delete(name) =>
          ok, done := DeleteResource(name);
          modified := {name};
          HashableOne(old(resources), name, Resource(GetVersion(), None));
        case UpdateMany(toUpdate, toDelete) =>
          ok, done := UpdateResources(toUpdate, toDelete);
          modified := toUpdate.Keys + NamesIn(toDelete);
          HashableStore(old(resources), toUpdate, GetVersion(), NamesIn(toDelete));
        case SetAll(content) =>
          ok, done := SetResources(content);
          modified := old(resources).Keys + content.Keys;
          HashableStamped(content, GetVersion());
      }
      NotifiedGrows(resources, GetVersion(), done, old(open), old(sent), open, sent);
      if Hashable(resources) { HashableIsTold(resources, modified, old(open), ok, done); }
    }

    /** A request or a cancellation. Handles are the cancellation functions in the clients' hands. */
    method Serve(op: Op, handles: map<nat, Watch>) returns (next: map<nat, Watch>)
      requires Valid() && !IsChange(op) && Among(handles, issued)
      modifies this
      ensures Valid() && Among(next, issued) && resources == old(resources) && sent == old(sent)
      ensures Quiet(old(resources), old(open)) ==> Quiet(resources, open)
    {
      hide Valid, Pending, Versioned, Tells;
      next := handles;
      match op {
        case Subscribe(requestType, versionInfo, sub) =>
          var c := CreateWatch(requestType, versionInfo, sub);
          if c.Parked? { next := next[c.id := Watch(false, RequiresFullState(typeURL), sub)]; }
        case SubscribeDelta(requestType, nonce, sub) =>
          var c := CreateDeltaWatch(requestType, nonce, sub);
          if c.Parked? { next := next[c.id := Watch(true, false, sub)]; }
        case Drop(id) =>
          if id in handles { Cancel(id, handles[id]); }
      }
    }

    /** Any run at all keeps the books: one answer per watch, every watch ever parked is open, answered or
        cancelled, and the count is off by exactly the stale cancellations. As long as every change could
        be announced, no open watch misses an update, and every client that can be told of removals holds
        exactly the current versions; that is so in every run over resources that marshal. */
    method Run(ops: seq<Op>) returns (ok: bool)
      requires Valid() && Quiet(resources, open)
      modifies this
      ensures Valid() && old(sent) <= sent
      ensures ok ==> Quiet(resources, open) && InSync(resources, open)
      ensures Hashable(old(resources)) && (forall k :: 0 <= k < |ops| ==> HashableOp(ops[k])) ==> ok
    {
      hide Valid, Quiet, InSync, Hashable, HashableOp;
      ok := true;
      var handles: map<nat, Watch> := map[];
      for i := 0 to |ops|
        invariant Valid() && Among(handles, issued) && old(sent) <= sent
        invariant ok ==> Quiet(resources, open)
        invariant Hashable(old(resources)) && (forall k :: 0 <= k < i ==> HashableOp(ops[k])) ==>
            ok && Hashable(resources)
      {
        if ops[i].Update? || ops[i].Delete? || ops[i].UpdateMany? || ops[i].SetAll? {
          var told := Change(ops[i]);
          ok := ok && told;
        } else {
          handles := Serve(ops[i], handles);
        }
      }
      if ok { QuietIsInSync(resources, open); }
    }
  }

  // ---------------------------------------------------------------- what the specification implies

  /** The number that a string of digits denotes. */
  function DigitsValue(s: string): int {
    if s == [] then 0 else DigitsValue(s[..|s| - 1]) * 10 + (s[|s| - 1] as int - '0' as int)
  }

  /** Versions are counted in decimal notation: digits that denote the number, without leading zeros. */
  lemma {:induction false} DecimalNotation(n: nat)
    ensures |Decimal(n)| > 0 && DigitsValue(Decimal(n)) == n
    ensures forall i :: 0 <= i < |Decimal(n)| ==> '0' <= Decimal(n)[i] <= '9'
    ensures Decimal(n)[0] == '0' ==> n == 0
  {
    var d := Decimal(n);
    if n < 10 {
      assert d[..|d| - 1] == [];
    } else {
      DecimalNotation(n / 10);
      assert d[..|d| - 1] == Decimal(n / 10);
    }
  }

  lemma DecimalInjective(a: nat, b: nat)
    requires Decimal(a) == Decimal(b)
    ensures a == b
  {
    hide Decimal;
    DecimalNotation(a);
    DecimalNotation(b);
  }

  lemma NothingNew(res: map<Name, Resource>, w: Watch, name: Name, r: Resource)
    requires !Stale(res[name := r], w, name) && Subscribed(w.sub, name)
    ensures StaleNames(res[name := r], w) <= StaleNames(res, w) && GoneNames(res[name := r], w) <= GoneNames(res, w)
  {
  }

  /** Cache versions never repeat, so an update is always news to a state-of-the-world watch whose
      knowledge came from this cache; a delta watch hears of it exactly when the content changed. */
  lemma UpdateIsNews(res: map<Name, Resource>, w: Watch, name: Name, prefix: string, version: nat,
      hash: Option<Version>)
    requires Subscribed(w.sub, name) && !Pending(res, w)
    requires !w.delta && name in w.sub.known ==>
        exists k: nat :: k < version && w.sub.known[name] == prefix + Decimal(k)
    ensures Pending(res[name := Resource(prefix + Decimal(version), hash)], w)
       <==> !w.delta || name !in w.sub.known || hash != Some(w.sub.known[name])
  {
    var after := res[name := Resource(prefix + Decimal(version), hash)];
    if !w.delta && name in w.sub.known {
      var k: nat :| k < version && w.sub.known[name] == prefix + Decimal(k);
      if prefix + Decimal(version) == prefix + Decimal(k) {
        assert (prefix + Decimal(version))[|prefix|..] == Decimal(version);
        assert (prefix + Decimal(k))[|prefix|..] == Decimal(k);
        DecimalInjective(version, k);
      }
    }
    assert Stale(after, w, name) <==> !w.delta || name !in w.sub.known || hash != Some(w.sub.known[name]);
    if Stale(after, w, name) {
      assert name in StaleNames(after, w);
    } else {
      NothingNew(res, w, name, after[name]);
    }
  }

  /** Cancelling a watch that was already answered, as a stream does before it opens the next one, makes
      the count of watches negative. */
  method CountGoesNegative() returns (count: int)
    ensures count == -1
  {
    hide Decimal, Books, Numbered, SentOnce, Among, Differ, Quiet, Told, Notified, VisitsFirst, Pending, Versioned,
         Concerned;
    var sub := Subscription(false, {"a"}, {}, map[]);
    var w := Watch(true, false, sub);
    var c := new Cache("type", "", map[]);
    NothingToHear(c.resources, w);
    var parked := c.CreateDeltaWatch("type", "", sub);
    ghost var before, was := c.open, c.sent;
    var ok, done := c.UpdateResource("a", Some(Some("h")));
    NewsFor(c.resources, w);
    OnlyOneTold(c.resources, c.GetVersion(), {"a"}, ok, done, parked.id, w, before, was, c.open, c.sent);
    c.Cancel(parked.id, w);
    count := c.watchCount;
  }

  lemma NewsFor(res: map<Name, Resource>, w: Watch)
    requires res.Keys == {"a"} && res["a"].hash.Some? && w.delta && w.sub == Subscription(false, {"a"}, {}, map[])
    ensures Versioned(res, w) && Pending(res, w) && Concerned(w, {"a"})
  {
    assert "a" in StaleNames(res, w);
    assert Subscribed(w.sub, "a");
  }

  lemma OnlyOneTold(res: map<Name, Resource>, v: Version, modified: set<Name>, ok: bool, done: set<nat>, id: nat,
      w: Watch,
                    open0: map<nat, Watch>, sent0: seq<(nat, Response)>, open1: map<nat, Watch>,
                        sent1: seq<(nat, Response)>)
    requires Told(res, modified, open0, ok, done) && Notified(res, v, done, open0, sent0, open1, sent1)
    requires open0 == map[id := w] && Concerned(w, modified) && Versioned(res, w) && Pending(res, w)
    ensures ok && open1 == map[]
  {
    hide Concerned, Versioned, Pending, Answers, NamedIds, NamedVersioned;
    assert id in ConcernedIds(open0, modified);
  }

  /** A watch that cannot be versioned ends the notification, and a watch after it is left open with an
      update it was not told about, although it can be versioned and every resource it waits for
      can be marshalled. */
  method UpdateGoesMissing() returns (c: Cache, ok: bool, ghost left: nat)
    ensures !ok && left in c.open && Versioned(c.resources, c.open[left]) && Pending(c.resources, c.open[left])
    ensures forall n :: n in c.resources && Subscribed(c.open[left].sub, n) ==> c.resources[n].hash.Some?
  {
    hide Books, Numbered, SentOnce, Among, Differ, Quiet, Told, Pending, Versioned, Concerned, Decimal, Stamped,
         Subscribed,
         NamesIn, Notified, VisitsFirst, InSync;
    var both := Watch(true, false, Subscription(false, {"a", "b"}, {}, map["a" := "h", "b" := "g"]));
    var one := Watch(true, false, Subscription(false, {"a"}, {}, map["a" := "h"]));
    var first;
    c, first, left := ParkTwo(both, one);
    ghost var res, before, was := c.resources, c.open, c.sent;
    c.visitedFirst := first;
    ghost var done;
    var content := map["a" := Some("h2"), "b" := None];
    ok, done := c.UpdateResources(content, []);
    assert NamesIn([]) == {} by { NoNamesIn(); }
    BreaksOne(res, content, c.GetVersion(), c.resources, both, one);
    FirstFailureSkipsAll(c.resources, c.GetVersion(), {"a", "b"}, ok, done, first, before, was, c.open, c.sent);
  }

  method ParkTwo(both: Watch, one: Watch) returns (c: Cache, first: nat, second: nat)
    requires both.delta && !both.fullStateType && one.delta && !one.fullStateType
    requires both.sub == Subscription(false, {"a", "b"}, {}, map["a" := "h", "b" := "g"])
    requires one.sub == Subscription(false, {"a"}, {}, map["a" := "h"])
    ensures fresh(c) && c.Valid() && first != second && c.open == map[first := both, second := one]
    ensures c.resources.Keys == {"a", "b"}
  {
    hide Books, Numbered, SentOnce, Pending, Versioned, Tells, Decimal, Subscribed;
    c := new Cache("type", "", map["a" := Some("h"), "b" := Some("g")]);
    KnowsAll(c.resources, both);
    KnowsAll(c.resources, one);
    var a := c.CreateDeltaWatch("type", "1", both.sub);
    var b := c.CreateDeltaWatch("type", "1", one.sub);
    first, second := a.id, b.id;
  }

  lemma KnowsAll(res: map<Name, Resource>, w: Watch)
    requires res.Keys == {"a", "b"} && res["a"].hash == Some("h") && res["b"].hash == Some("g")
    requires w.delta && !w.sub.wildcard && w.sub.prefixes == {} && w.sub.names == w.sub.known.Keys <= {"a", "b"}
    requires forall n :: n in w.sub.known ==> res[n].hash == Some(w.sub.known[n])
    ensures Versioned(res, w) && !Pending(res, w)
  {
  }

  lemma NoNamesIn()
    ensures NamesIn([]) == {}
  {
  }

  lemma BreaksOne(before: map<Name, Resource>, content: map<Name, Option<Version>>, version: Version, res: map<Name,
      Resource>,
                  both: Watch, one: Watch)
    requires before.Keys == {"a", "b"} && content == map["a" := Some("h2"), "b" := None]
    requires res == (before + Stamped(content, version)) - {}
    requires both.delta && !both.sub.wildcard && both.sub.names == {"a", "b"}
    requires one.delta && one.sub == Subscription(false, {"a"}, {}, map["a" := "h"])
    ensures content.Keys + {} == {"a", "b"}
    ensures !Versioned(res, both) && Concerned(both, {"a", "b"})
    ensures Versioned(res, one) && Pending(res, one)
    ensures forall n :: n in res && Subscribed(one.sub, n) ==> res[n].hash.Some?
  {
    assert res["a"] == Resource(version, Some("h2")) && res["b"] == Resource(version, None);
    assert Subscribed(both.sub, "b");
    assert "a" in StaleNames(res, one);
  }

  lemma NothingToHear(res: map<Name, Resource>, w: Watch)
    requires res.Keys == {} && w.sub.known == map[]
    ensures Versioned(res, w) && !Pending(res, w)
  {
  }
}
