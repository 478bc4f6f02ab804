/**
 * What a handle gives away: never the location it stands for, always the place of the artifact in the
 * report, and the same place for evidence that a report shares with its completion.
 */
module ArtifactHandles {
  import opened Common
  import opened Decimal
  import opened Workpad
  import opened DiagnosticReport
  import opened ArtifactReferences
  import opened CompletionRecords

  // ---------------------------------------------------------------- locations do not show

  /** The location is replaced by a handle. */
  predicate Concealed(rules: Rules, a: Artifact) {
    !rules.credential(a.ref) && !a.sensitivity.Public? && !IsOpaque(a.ref)
  }

  /** Equal but for a concealed location. */
  predicate Alike(rules: Rules, a: Artifact, b: Artifact) {
    a == b || (Concealed(rules, a) && Concealed(rules, b) && b == a.(ref := b.ref))
  }

  predicate AlikeEvidence(rules: Rules, e: Evidence, f: Evidence) {
    && f == e.(artifacts := f.artifacts) && |f.artifacts| == |e.artifacts|
    && forall k :: 0 <= k < |e.artifacts| ==> Alike(rules, e.artifacts[k], f.artifacts[k])
  }

  predicate AllAlike(rules: Rules, s: seq<Evidence>, t: seq<Evidence>) {
    |s| == |t| && forall i :: 0 <= i < |s| ==> AlikeEvidence(rules, s[i], t[i])
  }

  predicate AlikeOutcomes(rules: Rules, o: Outcome, p: Outcome) {
    && p == o.(evidence := p.evidence, operationEvidence := p.operationEvidence)
    && AllAlike(rules, o.evidence, p.evidence) && AllAlike(rules, o.operationEvidence, p.operationEvidence)
  }

  predicate AlikeCompletions(rules: Rules, cs: seq<Completion>, ds: seq<Completion>) {
    && |cs| == |ds|
    && forall i :: 0 <= i < |cs| ==> ds[i] == cs[i].(outcome := ds[i].outcome) && AlikeOutcomes(rules, cs[i].outcome, ds[i].outcome)
  }

  predicate AlikeInputs(rules: Rules, s: seq<Input>, t: seq<Input>) {
    |s| == |t| && forall i :: 0 <= i < |s| ==> t[i].id == s[i].id && Alike(rules, s[i].artifact, t[i].artifact)
  }

  predicate AlikeReports(rules: Rules, r: FailureReport, q: FailureReport) {
    && q == r.(inputs := q.inputs, evidence := q.evidence, completions := q.completions)
    && AlikeInputs(rules, r.inputs, q.inputs) && AllAlike(rules, r.evidence, q.evidence)
    && AlikeCompletions(rules, r.completions, q.completions)
  }

  lemma AlikeNormalised(rules: Rules, reportId: Identifier, slot: string, a: Artifact, b: Artifact)
    requires Alike(rules, a, b)
    ensures NormalizeArtifact(rules, reportId, slot, a) == NormalizeArtifact(rules, reportId, slot, b)
  {
  }

  lemma {:induction false} ArtifactsNormalised(rules: Rules, reportId: Identifier, slot: string, s: seq<Artifact>, t: seq<Artifact>)
    requires |s| == |t| && forall k :: 0 <= k < |s| ==> Alike(rules, s[k], t[k])
    ensures NormalizeArtifacts(rules, reportId, slot, s) == NormalizeArtifacts(rules, reportId, slot, t)
  {
    hide Alike, NormalizeArtifact;
    if |s| > 0 {
      var n := |s| - 1;
      ArtifactsNormalised(rules, reportId, slot, s[..n], t[..n]);
      AlikeNormalised(rules, reportId, ArtifactSlot(slot, n), s[n], t[n]);
    }
  }

  lemma {:induction false} EvidenceNormalised(rules: Rules, reportId: Identifier, slotFor: Identifier -> string,
                                              s: seq<Evidence>, t: seq<Evidence>)
    requires AllAlike(rules, s, t)
    ensures NormalizeEvidence(rules, reportId, slotFor, s) == NormalizeEvidence(rules, reportId, slotFor, t)
  {
    hide Alike, NormalizeArtifacts;
    if |s| > 0 {
      var n := |s| - 1;
      EvidenceNormalised(rules, reportId, slotFor, s[..n], t[..n]);
      ArtifactsNormalised(rules, reportId, slotFor(s[n].id), s[n].artifacts, t[n].artifacts);
    }
  }

  lemma OutcomesNormalised(rules: Rules, reportId: Identifier, o: Outcome, p: Outcome)
    requires AlikeOutcomes(rules, o, p)
    ensures NormalizeOutcome(rules, reportId, o) == NormalizeOutcome(rules, reportId, p)
  {
    EvidenceNormalised(rules, reportId, EvidenceSlot, o.evidence, p.evidence);
    EvidenceNormalised(rules, reportId, OperationSlot, o.operationEvidence, p.operationEvidence);
    hide AllAlike, NormalizeEvidence;
  }

  lemma {:induction false} CompletionsNormalised(rules: Rules, reportId: Identifier, cs: seq<Completion>, ds: seq<Completion>)
    requires AlikeCompletions(rules, cs, ds)
    ensures NormalizeCompletions(rules, reportId, cs) == NormalizeCompletions(rules, reportId, ds)
  {
    hide AlikeOutcomes, NormalizeOutcome;
    if |cs| > 0 {
      var n := |cs| - 1;
      CompletionsNormalised(rules, reportId, cs[..n], ds[..n]);
      OutcomesNormalised(rules, reportId, cs[n].outcome, ds[n].outcome);
    }
  }

  lemma {:induction false} InputsNormalised(rules: Rules, reportId: Identifier, s: seq<Input>, t: seq<Input>)
    requires AlikeInputs(rules, s, t)
    ensures NormalizeInputs(rules, reportId, s) == NormalizeInputs(rules, reportId, t)
  {
    hide Alike, NormalizeArtifact;
    if |s| > 0 {
      var n := |s| - 1;
      InputsNormalised(rules, reportId, s[..n], t[..n]);
      AlikeNormalised(rules, reportId, "input/" + s[n].id.text, s[n].artifact, t[n].artifact);
      NormalizedKeepsRest(rules, reportId, "input/" + s[n].id.text, s[n], t[n]);
    }
  }

  lemma NormalizedKeepsRest(rules: Rules, reportId: Identifier, slot: string, a: Input, b: Input)
    requires b.id == a.id
    requires NormalizeArtifact(rules, reportId, slot, a.artifact) == NormalizeArtifact(rules, reportId, slot, b.artifact)
    ensures NormalizeArtifact(rules, reportId, slot, a.artifact).Some? ==>
              var x := NormalizeArtifact(rules, reportId, slot, a.artifact).value; a.(artifact := x) == b.(artifact := x)
  {
  }

  /** Slots come from ids alone. */
  lemma {:induction false} SameSlots(rules: Rules, slotFor: Identifier -> string, s: seq<Evidence>, t: seq<Evidence>,
                                     before: map<Identifier, string>)
    requires AllAlike(rules, s, t)
    ensures SlotsOf(slotFor, s, before) == SlotsOf(slotFor, t, before)
  {
    hide Alike;
    if |s| > 0 {
      SameSlots(rules, slotFor, s[..|s| - 1], t[..|t| - 1], before);
    }
  }

  lemma {:induction false} SameCompletionSlots(rules: Rules, cs: seq<Completion>, ds: seq<Completion>)
    requires AlikeCompletions(rules, cs, ds)
    ensures CompletionSlots(cs) == CompletionSlots(ds)
  {
    hide AllAlike, SlotsOf;
    if |cs| > 0 {
      var n := |cs| - 1;
      var before := CompletionSlots(cs[..n]);
      SameCompletionSlots(rules, cs[..n], ds[..n]);
      SameSlots(rules, EvidenceSlot, cs[n].outcome.evidence, ds[n].outcome.evidence, before);
      SameSlots(rules, OperationSlot, cs[n].outcome.operationEvidence, ds[n].outcome.operationEvidence,
                SlotsOf(EvidenceSlot, cs[n].outcome.evidence, before));
    }
  }

  /** What is published says nothing about a concealed location: reports that differ in such locations only are published alike. */
  lemma LocationsDoNotShow(rules: Rules, r: FailureReport, q: FailureReport)
    requires AlikeReports(rules, r, q)
    ensures NormalizeReport(rules, r) == NormalizeReport(rules, q)
  {
    InputsNormalised(rules, r.id, r.inputs, q.inputs);
    CompletionsNormalised(rules, r.id, r.completions, q.completions);
    SameCompletionSlots(rules, r.completions, q.completions);
    var slots := CompletionSlots(r.completions);
    EvidenceNormalised(rules, r.id, id => SlotIn(slots, id), r.evidence, q.evidence);
    hide AlikeInputs, AllAlike, AlikeCompletions, NormalizeInputs, NormalizeEvidence, NormalizeCompletions, CompletionSlots;
    assert NormalizeOwned(rules, r.id, slots, r.evidence) == NormalizeOwned(rules, r.id, slots, q.evidence);
  }

  // ---------------------------------------------------------------- handles name one place

  /** Digests are hexadecimal; all that matters is that they hold no slash. */
  ghost predicate PlainDigests(rules: Rules) {
    forall id: Identifier, slot: string :: '/' !in rules.digest(id, slot)
  }

  lemma SlashAt(a: string, x: string)
    requires '/' !in x
    ensures var s := a + "/" + x; s[|a|] == '/' && forall k :: |a| < k < |s| ==> s[k] != '/'
  {
    var s := a + "/" + x;
    assert forall k :: |a| < k < |s| ==> s[k] == x[k - |a| - 1];
  }

  /** The part behind the last slash is read off from the right. */
  lemma LastSlash(a: string, x: string, b: string, y: string)
    requires '/' !in x && '/' !in y && a + "/" + x == b + "/" + y
    ensures a == b && x == y
  {
    var s := a + "/" + x;
    SlashAt(a, x);
    SlashAt(b, y);
    assert |a| == |b|;
    assert a == s[..|a|] && b == s[..|b|] && x == s[|a| + 1..] && y == s[|b| + 1..];
  }

  lemma {:induction false} TextHasNoSlash(n: nat)
    ensures '/' !in Text(n)
  {
    if n >= 10 {
      TextHasNoSlash(n / 10);
    }
  }

  lemma HandleTellsSlot(rules: Rules, reportId: Identifier, slot: string, other: string)
    requires PlainDigests(rules) && Handle(rules, reportId, slot) == Handle(rules, reportId, other)
    ensures slot == other
  {
    var a, b := PROTECTED + "failure-report/" + slot, PROTECTED + "failure-report/" + other;
    assert Handle(rules, reportId, slot) == a + "/" + rules.digest(reportId, slot);
    assert Handle(rules, reportId, other) == b + "/" + rules.digest(reportId, other);
    LastSlash(a, rules.digest(reportId, slot), b, rules.digest(reportId, other));
    var front := PROTECTED + "failure-report/";
    assert a[|front|..] == slot && b[|front|..] == other;
  }

  lemma SlotTellsIndex(slot: string, i: nat, other: string, j: nat)
    requires ArtifactSlot(slot, i) == ArtifactSlot(other, j)
    ensures slot == other && i == j
  {
    TextHasNoSlash(i);
    TextHasNoSlash(j);
    assert ArtifactSlot(slot, i) == (slot + "/artifact") + "/" + Text(i);
    assert ArtifactSlot(other, j) == (other + "/artifact") + "/" + Text(j);
    LastSlash(slot + "/artifact", Text(i), other + "/artifact", Text(j));
    TextIsInjective(i, j);
    assert (slot + "/artifact")[..|slot|] == slot && (other + "/artifact")[..|other|] == other;
  }

  /** The two lists of an outcome and the ids in them have slots of their own. */
  lemma SlotTellsEntry(a: Identifier, b: Identifier)
    ensures EvidenceSlot(a) == EvidenceSlot(b) ==> a == b
    ensures OperationSlot(a) == OperationSlot(b) ==> a == b
    ensures EvidenceSlot(a) != OperationSlot(b)
  {
    assert EvidenceSlot(a)[20..] == a.text && EvidenceSlot(b)[20..] == b.text;
    assert OperationSlot(a)[30..] == a.text && OperationSlot(b)[30..] == b.text;
    assert EvidenceSlot(a)[11] == 'e' && OperationSlot(b)[11] == 'o';
  }

  /** An artifact of an outcome: one of the two lists, the entry in it and the artifact of the entry. */
  datatype Place = Place(operation: bool, entry: nat, artifact: nat)

  function ListOf(o: Outcome, operation: bool): seq<Evidence> {
    if operation then o.operationEvidence else o.evidence
  }

  predicate Exists(o: Outcome, at: Place) {
    at.entry < |ListOf(o, at.operation)| && at.artifact < |ListOf(o, at.operation)[at.entry].artifacts|
  }

  function ArtifactAt(o: Outcome, at: Place): Artifact
    requires Exists(o, at)
  {
    ListOf(o, at.operation)[at.entry].artifacts[at.artifact]
  }

  function SlotAt(o: Outcome, at: Place): string
    requires Exists(o, at)
  {
    var id := ListOf(o, at.operation)[at.entry].id;
    ArtifactSlot(if at.operation then OperationSlot(id) else EvidenceSlot(id), at.artifact)
  }

  lemma {:induction false} ArtifactNormalisedAt(rules: Rules, reportId: Identifier, slot: string, s: seq<Artifact>, k: nat)
    requires NormalizeArtifacts(rules, reportId, slot, s).Some? && k < |s|
    ensures NormalizeArtifact(rules, reportId, ArtifactSlot(slot, k), s[k])
            == Some(NormalizeArtifacts(rules, reportId, slot, s).value[k])
  {
    hide NormalizeArtifact;
    if k < |s| - 1 {
      ArtifactNormalisedAt(rules, reportId, slot, s[..|s| - 1], k);
    }
  }

  lemma {:induction false} EvidenceNormalisedAt(rules: Rules, reportId: Identifier, slotFor: Identifier -> string, s: seq<Evidence>, i: nat)
    requires NormalizeEvidence(rules, reportId, slotFor, s).Some? && i < |s|
    ensures var e := NormalizeEvidence(rules, reportId, slotFor, s).value[i];
            && NormalizeArtifacts(rules, reportId, slotFor(s[i].id), s[i].artifacts) == Some(e.artifacts)
            && e == s[i].(artifacts := e.artifacts)
  {
    hide NormalizeArtifacts;
    if i < |s| - 1 {
      EvidenceNormalisedAt(rules, reportId, slotFor, s[..|s| - 1], i);
    }
  }

  lemma NormalisedAt(rules: Rules, reportId: Identifier, o: Outcome, at: Place)
    requires NormalizeOutcome(rules, reportId, o).Some? && Exists(o, at)
    ensures var n := NormalizeOutcome(rules, reportId, o).value;
            Exists(n, at) && NormalizeArtifact(rules, reportId, SlotAt(o, at), ArtifactAt(o, at)) == Some(ArtifactAt(n, at))
  {
    hide NormalizeEvidence, NormalizeArtifacts, NormalizeArtifact;
    var s := ListOf(o, at.operation);
    var slotFor := if at.operation then OperationSlot else EvidenceSlot;
    EvidenceNormalisedAt(rules, reportId, slotFor, s, at.entry);
    ArtifactNormalisedAt(rules, reportId, slotFor(s[at.entry].id), s[at.entry].artifacts, at.artifact);
  }

  /** Two concealed locations of an outcome get the same handle only if they are the same artifact of the same entry. */
  lemma HandlesAreDistinct(rules: Rules, reportId: Identifier, o: Outcome, a: Place, b: Place)
    requires PlainDigests(rules) && NormalizeOutcome(rules, reportId, o).Some? && Exists(o, a) && Exists(o, b)
    requires DistinctBy((e: Evidence) => e.id, o.evidence) && DistinctBy((e: Evidence) => e.id, o.operationEvidence)
    requires Concealed(rules, ArtifactAt(o, a)) && Concealed(rules, ArtifactAt(o, b))
    ensures var n := NormalizeOutcome(rules, reportId, o).value;
            && Exists(n, a) && Exists(n, b)
            && (ArtifactAt(n, a).ref == ArtifactAt(n, b).ref ==> a == b)
  {
    var n := NormalizeOutcome(rules, reportId, o).value;
    NormalisedAt(rules, reportId, o, a);
    NormalisedAt(rules, reportId, o, b);
    if ArtifactAt(n, a).ref == ArtifactAt(n, b).ref {
      hide NormalizeOutcome;
      SameHandleSamePlace(rules, reportId, o, a, b);
    }
  }

  lemma SameHandleSamePlace(rules: Rules, reportId: Identifier, o: Outcome, a: Place, b: Place)
    requires PlainDigests(rules) && Exists(o, a) && Exists(o, b)
    requires DistinctBy((e: Evidence) => e.id, o.evidence) && DistinctBy((e: Evidence) => e.id, o.operationEvidence)
    requires Handle(rules, reportId, SlotAt(o, a)) == Handle(rules, reportId, SlotAt(o, b))
    ensures a == b
  {
    var s, t := ListOf(o, a.operation), ListOf(o, b.operation);
    HandleTellsSlot(rules, reportId, SlotAt(o, a), SlotAt(o, b));
    SlotTellsIndex(if a.operation then OperationSlot(s[a.entry].id) else EvidenceSlot(s[a.entry].id), a.artifact,
                   if b.operation then OperationSlot(t[b.entry].id) else EvidenceSlot(t[b.entry].id), b.artifact);
    SlotTellsEntry(s[a.entry].id, t[b.entry].id);
    SlotTellsEntry(t[b.entry].id, s[a.entry].id);
    hide EvidenceSlot, OperationSlot, ArtifactSlot, Handle, PlainDigests;
  }

  // ---------------------------------------------------------------- evidence shared with a completion

  /** Some completion lists the id in one of its two lists. */
  predicate Owned(cs: seq<Completion>, operation: bool, id: Identifier) {
    exists c :: c in cs && exists e :: e in ListOf(c.outcome, operation) && e.id == id
  }

  lemma {:induction false} SlotsGain(slotFor: Identifier -> string, s: seq<Evidence>, before: map<Identifier, string>, id: Identifier)
    ensures var slots := SlotsOf(slotFor, s, before);
            if exists e :: e in s && e.id == id then id in slots && slots[id] == slotFor(id)
            else (id in slots <==> id in before) && (id in before ==> slots[id] == before[id])
  {
    if |s| > 0 {
      SlotsGain(slotFor, s[..|s| - 1], before, id);
      assert s == s[..|s| - 1] + [s[|s| - 1]];
    }
  }

  /** An id that completions list in one way only has the slot of that list. */
  lemma {:induction false} OwnedSlot(cs: seq<Completion>, operation: bool, id: Identifier)
    requires !Owned(cs, !operation, id)
    ensures Owned(cs, operation, id) ==>
              id in CompletionSlots(cs) && CompletionSlots(cs)[id] == if operation then OperationSlot(id) else EvidenceSlot(id)
    ensures !Owned(cs, operation, id) ==> id !in CompletionSlots(cs)
  {
    hide EvidenceSlot, OperationSlot;
    if |cs| > 0 {
      var init, o := cs[..|cs| - 1], cs[|cs| - 1].outcome;
      assert cs == init + [cs[|cs| - 1]];
      OwnedSnoc(init, cs[|cs| - 1], operation, id);
      OwnedSnoc(init, cs[|cs| - 1], !operation, id);
      OwnedSlot(init, operation, id);
      SlotsGain(EvidenceSlot, o.evidence, CompletionSlots(init), id);
      SlotsGain(OperationSlot, o.operationEvidence, SlotsOf(EvidenceSlot, o.evidence, CompletionSlots(init)), id);
      hide Owned;
    }
  }

  lemma OwnedSnoc(cs: seq<Completion>, c: Completion, operation: bool, id: Identifier)
    ensures Owned(cs + [c], operation, id)
            <==> Owned(cs, operation, id) || exists e :: e in ListOf(c.outcome, operation) && e.id == id
  {
  }

  lemma {:induction false} CompletionNormalisedAt(rules: Rules, reportId: Identifier, cs: seq<Completion>, j: nat)
    requires NormalizeCompletions(rules, reportId, cs).Some? && j < |cs|
    ensures NormalizeOutcome(rules, reportId, cs[j].outcome) == Some(NormalizeCompletions(rules, reportId, cs).value[j].outcome)
  {
    hide NormalizeOutcome;
    if j < |cs| - 1 {
      CompletionNormalisedAt(rules, reportId, cs[..|cs| - 1], j);
    }
  }

  lemma OutcomeListNormalised(rules: Rules, reportId: Identifier, o: Outcome, operation: bool, k: nat)
    requires NormalizeOutcome(rules, reportId, o).Some? && k < |ListOf(o, operation)|
    ensures var n, e := NormalizeOutcome(rules, reportId, o).value, ListOf(o, operation)[k];
            && k < |ListOf(n, operation)|
            && ListOf(n, operation)[k] == e.(artifacts := ListOf(n, operation)[k].artifacts)
            && NormalizeArtifacts(rules, reportId, if operation then OperationSlot(e.id) else EvidenceSlot(e.id), e.artifacts)
               == Some(ListOf(n, operation)[k].artifacts)
  {
    hide NormalizeEvidence, NormalizeArtifacts;
    EvidenceNormalisedAt(rules, reportId, if operation then OperationSlot else EvidenceSlot, ListOf(o, operation), k);
  }

  /**
   * Evidence that a report shares with a completion is published alike in both places, handles included,
   * provided that no completion lists its id in the other way too.
   */
  lemma SharedEvidenceStaysShared(rules: Rules, r: FailureReport, i: nat, j: nat, operation: bool, k: nat)
    requires NormalizeReport(rules, r).Some? && i < |r.evidence| && j < |r.completions|
    requires k < |ListOf(r.completions[j].outcome, operation)|
    requires r.evidence[i] == ListOf(r.completions[j].outcome, operation)[k] && !Owned(r.completions, !operation, r.evidence[i].id)
    ensures var n := NormalizeReport(rules, r).value;
            && i < |n.evidence| && j < |n.completions| && k < |ListOf(n.completions[j].outcome, operation)|
            && n.evidence[i] == ListOf(n.completions[j].outcome, operation)[k]
  {
    var slots, o := CompletionSlots(r.completions), r.completions[j].outcome;
    OwnedSlot(r.completions, operation, r.evidence[i].id);
    assert Owned(r.completions, operation, r.evidence[i].id);
    hide Owned, CompletionSlots, NormalizeEvidence, NormalizeOutcome, NormalizeArtifacts, NormalizeInputs;
    EvidenceNormalisedAt(rules, r.id, id => SlotIn(slots, id), r.evidence, i);
    CompletionNormalisedAt(rules, r.id, r.completions, j);
    OutcomeListNormalised(rules, r.id, o, operation, k);
  }
}
