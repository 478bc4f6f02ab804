/** Building, validating and merging the immutable record of a finished diagnosis. */
module CompletionRecords {
  import opened Common
  import opened Workpad
  import opened Sorting
  import opened DiagnosticReport
  import opened ArtifactReferences

  // ---------------------------------------------------------------- merging owned entries

  /** The last entry under an id, as a map built from the list would hold it. */
  function LastWith<T(==)>(idOf: T -> Identifier, s: seq<T>, id: Identifier): (r: Option<T>)
    ensures r.Some? <==> exists x :: x in s && idOf(x) == id
    ensures r.Some? ==> r.value in s && idOf(r.value) == id
  {
    if |s| == 0 then None
    else
      assert s == s[..|s| - 1] + [s[|s| - 1]];
      if idOf(s[|s| - 1]) == id then Some(s[|s| - 1]) else LastWith(idOf, s[..|s| - 1], id)
  }

  /** One addition: new ids are appended, known ids must carry the same content. */
  function MergeOne<T(==)>(idOf: T -> Identifier, merged: seq<T>, x: T): Option<seq<T>> {
    match LastWith(idOf, merged, idOf(x))
    case None => Some(merged + [x])
    case Some(prior) => if prior == x then Some(merged) else None
  }

  function Merge<T(==)>(idOf: T -> Identifier, existing: seq<T>, additions: seq<T>): Option<seq<T>> {
    if |additions| == 0 then Some(existing)
    else
      match Merge(idOf, existing, additions[..|additions| - 1])
      case None => None
      case Some(merged) => MergeOne(idOf, merged, additions[|additions| - 1])
  }

  ghost predicate DistinctBy<T>(idOf: T -> Identifier, s: seq<T>) {
    forall i, j :: 0 <= i < j < |s| ==> idOf(s[i]) != idOf(s[j])
  }

  ghost predicate IndexedBy<T(!new)>(idOf: T -> Identifier, s: seq<T>, byId: map<Identifier, T>) {
    forall id :: (id in byId <==> LastWith(idOf, s, id).Some?) && (id in byId ==> LastWith(idOf, s, id) == Some(byId[id]))
  }

  lemma LastAfterAppend<T>(idOf: T -> Identifier, s: seq<T>, x: T, id: Identifier)
    ensures LastWith(idOf, s + [x], id) == if idOf(x) == id then Some(x) else LastWith(idOf, s, id)
  {
    assert (s + [x])[..|s|] == s;
  }

  /** The loop of `mergeOwnedEntries`. */
  method MergeOwnedEntries<T(==, !new)>(idOf: T -> Identifier, existing: seq<T>, additions: seq<T>) returns (r: Option<seq<T>>)
    ensures r == Merge(idOf, existing, additions)
  {
    hide LastWith;
    var byId: map<Identifier, T> := map[];
    EmptyIndex(idOf);
    assert existing[..0] == [];
    for i := 0 to |existing|
      invariant IndexedBy(idOf, existing[..i], byId)
    {
      assert existing[..i + 1] == existing[..i] + [existing[i]];
      IndexAfterAppend(idOf, existing[..i], byId, existing[i]);
      byId := byId[idOf(existing[i]) := existing[i]];
    }
    assert existing[..|existing|] == existing;
    var merged := existing;
    for i := 0 to |additions|
      invariant Merge(idOf, existing, additions[..i]) == Some(merged)
      invariant IndexedBy(idOf, merged, byId)
    {
      var addition := additions[i];
      assert additions[..i + 1][..i] == additions[..i];
      if idOf(addition) !in byId {
        IndexAfterAppend(idOf, merged, byId, addition);
        byId := byId[idOf(addition) := addition];
        merged := merged + [addition];
      } else if byId[idOf(addition)] != addition {
        ConflictStays(idOf, existing, additions, i + 1);
        return None;
      }
    }
    assert additions[..|additions|] == additions;
    r := Some(merged);
  }

  lemma EmptyIndex<T(!new)>(idOf: T -> Identifier)
    ensures IndexedBy(idOf, [], map[])
  {
  }

  lemma IndexAfterAppend<T(!new)>(idOf: T -> Identifier, s: seq<T>, byId: map<Identifier, T>, x: T)
    requires IndexedBy(idOf, s, byId)
    ensures IndexedBy(idOf, s + [x], byId[idOf(x) := x])
  {
    forall id
      ensures LastWith(idOf, s + [x], id) == if idOf(x) == id then Some(x) else LastWith(idOf, s, id)
    {
      LastAfterAppend(idOf, s, x, id);
    }
  }

  lemma {:induction false} ConflictStays<T>(idOf: T -> Identifier, existing: seq<T>, additions: seq<T>, i: nat)
    requires i <= |additions| && Merge(idOf, existing, additions[..i]).None?
    ensures Merge(idOf, existing, additions).None?
    decreases |additions|
  {
    if i == |additions| {
      assert additions[..i] == additions;
    } else {
      assert additions[..|additions| - 1][..i] == additions[..i];
      ConflictStays(idOf, existing, additions[..|additions| - 1], i);
    }
  }

  /** Merging keeps the existing entries as a prefix, adds only additions, and misses none of them. */
  lemma {:induction false} MergeIsConservative<T>(idOf: T -> Identifier, existing: seq<T>, additions: seq<T>)
    requires Merge(idOf, existing, additions).Some?
    ensures var m := Merge(idOf, existing, additions).value;
            && existing <= m
            && (forall x :: x in additions ==> x in m)
            && (forall x :: x in m ==> x in existing || x in additions)
            && (DistinctBy(idOf, existing) ==> DistinctBy(idOf, m))
  {
    if |additions| > 0 {
      var init, last := additions[..|additions| - 1], additions[|additions| - 1];
      MergeIsConservative(idOf, existing, init);
      assert additions == init + [last];
      var before := Merge(idOf, existing, init).value;
      if LastWith(idOf, before, idOf(last)).None? {
        assert forall k :: 0 <= k < |before| ==> before[k] in before;
      }
    }
  }

  ghost predicate Conflicting<T(!new)>(idOf: T -> Identifier, existing: seq<T>, additions: seq<T>) {
    exists x, y :: x in existing + additions && y in additions && idOf(x) == idOf(y) && x != y
  }

  /** With distinct existing ids, merging fails exactly on an id that comes with differing content. */
  lemma {:induction false} MergeFailsOnConflict<T(!new)>(idOf: T -> Identifier, existing: seq<T>, additions: seq<T>)
    requires DistinctBy(idOf, existing)
    ensures Merge(idOf, existing, additions).None? <==> Conflicting(idOf, existing, additions)
  {
    if |additions| > 0 {
      var init, last := additions[..|additions| - 1], additions[|additions| - 1];
      assert additions == init + [last];
      MergeFailsOnConflict(idOf, existing, init);
      if Merge(idOf, existing, init).Some? {
        LastConflict(idOf, existing, init, last);
      } else {
        var x, y :| x in existing + init && y in init && idOf(x) == idOf(y) && x != y;
        assert x in existing + additions && y in additions;
      }
    }
  }

  lemma LastConflict<T(!new)>(idOf: T -> Identifier, existing: seq<T>, init: seq<T>, last: T)
    requires DistinctBy(idOf, existing) && Merge(idOf, existing, init).Some? && !Conflicting(idOf, existing, init)
    ensures MergeOne(idOf, Merge(idOf, existing, init).value, last).None? <==> Conflicting(idOf, existing, init + [last])
  {
    var m := Merge(idOf, existing, init).value;
    MergeIsConservative(idOf, existing, init);
    if MergeOne(idOf, m, last).None? {
      var prior := LastWith(idOf, m, idOf(last)).value;
      assert prior in existing + (init + [last]) && last in init + [last];
    }
    if Conflicting(idOf, existing, init + [last]) {
      var x, y :| x in existing + (init + [last]) && y in init + [last] && idOf(x) == idOf(y) && x != y;
      var other := if x == last then y else x;
      assert other in m;
      OnlyOneWith(idOf, m, other);
    }
  }

  lemma {:induction false} OnlyOneWith<T>(idOf: T -> Identifier, s: seq<T>, x: T)
    requires DistinctBy(idOf, s) && x in s
    ensures LastWith(idOf, s, idOf(x)) == Some(x)
  {
    var n := |s| - 1;
    if s[n] != x {
      var k :| 0 <= k < |s| && s[k] == x;
      assert x in s[..n];
      OnlyOneWith(idOf, s[..n], x);
    }
  }

  /** Merging the same additions again changes nothing. */
  lemma {:induction false} MergeAgain<T>(idOf: T -> Identifier, merged: seq<T>, additions: seq<T>)
    requires DistinctBy(idOf, merged) && forall x :: x in additions ==> x in merged
    ensures Merge(idOf, merged, additions) == Some(merged)
  {
    if |additions| > 0 {
      MergeAgain(idOf, merged, additions[..|additions| - 1]);
      OnlyOneWith(idOf, merged, additions[|additions| - 1]);
    }
  }

  lemma MergeIsIdempotent<T>(idOf: T -> Identifier, existing: seq<T>, additions: seq<T>)
    requires DistinctBy(idOf, existing) && Merge(idOf, existing, additions).Some?
    ensures var m := Merge(idOf, existing, additions).value; Merge(idOf, m, additions) == Some(m)
  {
    MergeIsConservative(idOf, existing, additions);
    MergeAgain(idOf, Merge(idOf, existing, additions).value, additions);
  }

  // ---------------------------------------------------------------- canonical outcomes

  /** Artifact rules, the collation of ids and the digest that names a binding. */
  datatype Host = Host(rules: Rules, before: (Identifier, Identifier) -> bool, identity: Binding -> Identifier)

  ghost predicate HostOk(h: Host) {
    && StrictOrder(h.before)
    && (forall a, b :: a == b || h.before(a, b) || h.before(b, a))
  }

  function EvidenceId(e: Evidence): Identifier {
    e.id
  }

  function ItemId(i: Item): Identifier {
    i.id
  }

  function ById<T>(h: Host, idOf: T -> Identifier): (T, T) -> bool {
    (a, b) => h.before(idOf(a), idOf(b))
  }

  ghost predicate OutcomeIdsOk(o: Outcome) {
    && DistinctBy(EvidenceId, o.evidence) && DistinctBy(EvidenceId, o.operationEvidence)
    && DistinctBy(ItemId, o.hypotheses) && DistinctBy(ItemId, o.experiments)
    && forall x, y :: x in o.evidence && y in o.operationEvidence ==> x.id != y.id
  }

  function SortedOutcome(h: Host, o: Outcome): Outcome {
    o.(evidence := Sort(ById(h, EvidenceId), o.evidence),
       operationEvidence := Sort(ById(h, EvidenceId), o.operationEvidence),
       hypotheses := Sort(ById(h, ItemId), o.hypotheses),
       experiments := Sort(ById(h, ItemId), o.experiments))
  }

  /** `normalizeDiagnosticCompletionOutcome`; `None` where it throws. */
  ghost function CanonicalOutcome(h: Host, reportId: Identifier, o: Outcome): Option<Outcome> {
    if OutcomeIdsOk(o) then NormalizeOutcome(h.rules, reportId, SortedOutcome(h, o)) else None
  }

  method AssertUniqueIds<T(!new)>(idOf: T -> Identifier, entries: seq<T>) returns (ok: bool)
    ensures ok <==> DistinctBy(idOf, entries)
  {
    var ids: set<Identifier> := {};
    for i := 0 to |entries|
      invariant forall id :: id in ids <==> exists k :: 0 <= k < i && idOf(entries[k]) == id
      invariant forall j, k :: 0 <= j < k < i ==> idOf(entries[j]) != idOf(entries[k])
    {
      if idOf(entries[i]) in ids {
        return false;
      }
      ids := ids + {idOf(entries[i])};
    }
    ok := true;
  }

  method NormalizeDiagnosticOutcome(h: Host, reportId: Identifier, o: Outcome) returns (r: Option<Outcome>)
    ensures r == CanonicalOutcome(h, reportId, o)
  {
    hide DistinctBy, NormalizeOutcome, SortedOutcome;
    var evidence := AssertUniqueIds(EvidenceId, o.evidence);
    var operations := AssertUniqueIds(EvidenceId, o.operationEvidence);
    var hypotheses := AssertUniqueIds(ItemId, o.hypotheses);
    var experiments := AssertUniqueIds(ItemId, o.experiments);
    var evidenceIds := set e | e in o.evidence :: e.id;
    if !evidence || !operations || !hypotheses || !experiments || exists e :: e in o.operationEvidence && e.id in evidenceIds {
      return None;
    }
    r := NormalizeOutcome(h.rules, reportId, SortedOutcome(h, o));
  }

  lemma DistinctIsTotal<T(!new)>(h: Host, idOf: T -> Identifier, s: seq<T>)
    requires HostOk(h) && DistinctBy(idOf, s)
    ensures StrictOrder(ById(h, idOf)) && TotalOn(ById(h, idOf), s)
  {
    forall a, b | a in s && b in s
      ensures a == b || ById(h, idOf)(a, b) || ById(h, idOf)(b, a)
    {
      var i :| 0 <= i < |s| && s[i] == a;
      var j :| 0 <= j < |s| && s[j] == b;
      assert i < j ==> idOf(s[i]) != idOf(s[j]);
      assert j < i ==> idOf(s[j]) != idOf(s[i]);
    }
  }

  lemma SortByIdForgetsOrder<T(!new)>(h: Host, idOf: T -> Identifier, a: seq<T>, b: seq<T>)
    requires HostOk(h) && DistinctBy(idOf, a) && multiset(a) == multiset(b)
    ensures Sort(ById(h, idOf), a) == Sort(ById(h, idOf), b)
  {
    DistinctIsTotal(h, idOf, a);
    SortForgetsOrder(ById(h, idOf), a, b);
  }

  /** Equivalent evidence in another order makes the same canonical outcome. */
  lemma OutcomeForgetsOrder(h: Host, reportId: Identifier, a: Outcome, b: Outcome)
    requires HostOk(h) && OutcomeIdsOk(a) && OutcomeIdsOk(b)
    requires a.status == b.status && a.conclusion == b.conclusion
    requires multiset(a.evidence) == multiset(b.evidence) && multiset(a.operationEvidence) == multiset(b.operationEvidence)
    requires multiset(a.hypotheses) == multiset(b.hypotheses) && multiset(a.experiments) == multiset(b.experiments)
    ensures CanonicalOutcome(h, reportId, a) == CanonicalOutcome(h, reportId, b)
  {
    hide HostOk, DistinctBy, NormalizeOutcome;
    SortByIdForgetsOrder(h, EvidenceId, a.evidence, b.evidence);
    SortByIdForgetsOrder(h, EvidenceId, a.operationEvidence, b.operationEvidence);
    SortByIdForgetsOrder(h, ItemId, a.hypotheses, b.hypotheses);
    SortByIdForgetsOrder(h, ItemId, a.experiments, b.experiments);
  }

  // ---------------------------------------------------------------- canonical outcomes are fixed points

  lemma SortOfAscending<T(!new)>(h: Host, idOf: T -> Identifier, s: seq<T>)
    requires HostOk(h) && DistinctBy(idOf, s) && Ascending(ById(h, idOf), s)
    ensures Sort(ById(h, idOf), s) == s
  {
    DistinctIsTotal(h, idOf, s);
    SortAscends(ById(h, idOf), s);
    OneAscending(ById(h, idOf), s, Sort(ById(h, idOf), s));
  }

  lemma {:induction false} NormalizedKeepsIds(rules: Rules, reportId: Identifier, slotFor: Identifier -> string, s: seq<Evidence>)
    requires NormalizeEvidence(rules, reportId, slotFor, s).Some?
    ensures var n := NormalizeEvidence(rules, reportId, slotFor, s).value;
            |n| == |s| && forall i :: 0 <= i < |s| ==> n[i].id == s[i].id
  {
    if |s| > 0 {
      NormalizedKeepsIds(rules, reportId, slotFor, s[..|s| - 1]);
    }
  }

  lemma SortKeepsDistinct<T(!new)>(h: Host, idOf: T -> Identifier, s: seq<T>)
    requires HostOk(h) && DistinctBy(idOf, s)
    ensures DistinctBy(idOf, Sort(ById(h, idOf), s)) && Ascending(ById(h, idOf), Sort(ById(h, idOf), s))
  {
    DistinctIsTotal(h, idOf, s);
    var r := Sort(ById(h, idOf), s);
    SortAscends(ById(h, idOf), s);
    DistinctByMultiset(idOf, s, r);
  }

  lemma DistinctByMultiset<T(!new)>(idOf: T -> Identifier, a: seq<T>, b: seq<T>)
    requires DistinctBy(idOf, a) && multiset(a) == multiset(b)
    ensures DistinctBy(idOf, b)
  {
    MultisetMembers(a, b);
    forall i, j | 0 <= i < j < |b|
      ensures idOf(b[i]) != idOf(b[j])
    {
      if idOf(b[i]) == idOf(b[j]) {
        assert b[i] in a && b[j] in a;
        OnlyOneWith(idOf, a, b[i]);
        OnlyOneWith(idOf, a, b[j]);
        TwiceCounts(b, i, j);
        DistinctCounts(idOf, a, b[i]);
      }
    }
  }

  lemma TwiceCounts<T>(s: seq<T>, i: nat, j: nat)
    requires i < j < |s| && s[i] == s[j]
    ensures multiset(s)[s[i]] >= 2
  {
    assert s == s[..i] + [s[i]] + s[i + 1..j] + [s[j]] + s[j + 1..];
  }

  lemma {:induction false} DistinctCounts<T>(idOf: T -> Identifier, s: seq<T>, x: T)
    requires DistinctBy(idOf, s)
    ensures multiset(s)[x] <= 1
  {
    if |s| > 0 {
      var init, last := s[..|s| - 1], s[|s| - 1];
      assert s == init + [last];
      DistinctCounts(idOf, init, x);
      if last == x {
        assert x !in init;
        assert x !in multiset(init);
      }
    }
  }

  /** One sorted and normalised evidence list is already canonical. */
  lemma EvidenceIsCanonical(h: Host, reportId: Identifier, slotFor: Identifier -> string, s: seq<Evidence>)
    requires HostOk(h) && DistinctBy(EvidenceId, s)
    requires NormalizeEvidence(h.rules, reportId, slotFor, Sort(ById(h, EvidenceId), s)).Some?
    ensures var n := NormalizeEvidence(h.rules, reportId, slotFor, Sort(ById(h, EvidenceId), s)).value;
            DistinctBy(EvidenceId, n) && Sort(ById(h, EvidenceId), n) == n
  {
    var sorted := Sort(ById(h, EvidenceId), s);
    SortKeepsDistinct(h, EvidenceId, s);
    NormalizedKeepsIds(h.rules, reportId, slotFor, sorted);
    SortOfAscending(h, EvidenceId, NormalizeEvidence(h.rules, reportId, slotFor, sorted).value);
  }

  lemma {:induction false} MembersById(s: seq<Evidence>, n: seq<Evidence>, x: Evidence) returns (y: Evidence)
    requires |n| == |s| && (forall i :: 0 <= i < |s| ==> n[i].id == s[i].id) && x in n
    ensures y in s && y.id == x.id
  {
    var i :| 0 <= i < |n| && n[i] == x;
    y := s[i];
  }

  /** A stored outcome that is fed back in stays as it is, or is refused for a credential-like handle. */
  lemma CanonicalOutcomeTwice(h: Host, reportId: Identifier, o: Outcome)
    requires HostOk(h) && CanonicalOutcome(h, reportId, o).Some?
    ensures var n := CanonicalOutcome(h, reportId, o).value;
            CanonicalOutcome(h, reportId, n) == if OutcomeClean(h.rules, n) then Some(n) else None
  {
    hide HostOk, DistinctBy, Sort, NormalizeEvidence, OutcomeClean;
    var sorted, n := SortedOutcome(h, o), CanonicalOutcome(h, reportId, o).value;
    EvidenceIsCanonical(h, reportId, EvidenceSlot, o.evidence);
    EvidenceIsCanonical(h, reportId, OperationSlot, o.operationEvidence);
    SortKeepsDistinct(h, ItemId, o.hypotheses);
    SortKeepsDistinct(h, ItemId, o.experiments);
    SortOfAscending(h, ItemId, n.hypotheses);
    SortOfAscending(h, ItemId, n.experiments);
    CanonicalIdsDisjoint(h, reportId, o, n);
    assert SortedOutcome(h, n) == n;
    OutcomeTwice(h.rules, reportId, sorted);
  }

  lemma CanonicalIdsDisjoint(h: Host, reportId: Identifier, o: Outcome, n: Outcome)
    requires OutcomeIdsOk(o) && CanonicalOutcome(h, reportId, o) == Some(n)
    ensures forall x, y :: x in n.evidence && y in n.operationEvidence ==> x.id != y.id
  {
    var sorted := SortedOutcome(h, o);
    NormalizedKeepsIds(h.rules, reportId, EvidenceSlot, sorted.evidence);
    NormalizedKeepsIds(h.rules, reportId, OperationSlot, sorted.operationEvidence);
    MultisetMembers(sorted.evidence, o.evidence);
    MultisetMembers(sorted.operationEvidence, o.operationEvidence);
    forall x, y | x in n.evidence && y in n.operationEvidence
      ensures x.id != y.id
    {
      var x' := MembersById(sorted.evidence, n.evidence, x);
      var y' := MembersById(sorted.operationEvidence, n.operationEvidence, y);
    }
  }
}
