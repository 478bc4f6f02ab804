/**
 * The public boundary for artifacts: non-public locations become handles derived from report
 * identities. Publishing repeats the step, so replay comparison rests on its stability.
 */
module ArtifactReferences {
  import opened Common
  import opened Decimal
  import opened Workpad
  import opened DiagnosticReport

  /** The credential pattern, the public URL test and the digest of a report's slot. */
  datatype Rules = Rules(credential: string -> bool, publicUrl: string -> bool, digest: (Identifier, string) -> string)

  predicate IsAlphanumeric(c: char) {
    'a' <= c <= 'z' || 'A' <= c <= 'Z' || '0' <= c <= '9'
  }

  predicate IsLogical(ref: string) {
    && |ref| > 0 && IsAlphanumeric(ref[0])
    && forall i :: 0 <= i < |ref| ==> IsAlphanumeric(ref[i]) || ref[i] == '.' || ref[i] == '_' || ref[i] == '-'
  }

  const PROTECTED := "protected://"

  predicate IsOpaque(ref: string) {
    PROTECTED <= ref || IsLogical(ref)
  }

  function Handle(rules: Rules, reportId: Identifier, slot: string): (h: string)
    ensures IsOpaque(h)
  {
    var h := PROTECTED + ("failure-report/" + slot + "/" + rules.digest(reportId, slot));
    assert h[..|PROTECTED|] == PROTECTED;
    h
  }

  /** `normalizeArtifact`; `None` where it throws. */
  function NormalizeArtifact(rules: Rules, reportId: Identifier, slot: string, a: Artifact): Option<Artifact> {
    if rules.credential(a.ref) then None
    else if a.sensitivity.Public? then
      if IsOpaque(a.ref) || rules.publicUrl(a.ref) then Some(a) else None
    else if IsOpaque(a.ref) then Some(a)
    else Some(a.(ref := Handle(rules, reportId, slot)))
  }

  /** A second pass never changes a reference; it can only refuse one whose handle looks like a credential. */
  lemma ArtifactTwice(rules: Rules, reportId: Identifier, slot: string, other: string, a: Artifact)
    requires NormalizeArtifact(rules, reportId, slot, a).Some?
    ensures var b := NormalizeArtifact(rules, reportId, slot, a).value;
            NormalizeArtifact(rules, reportId, other, b) == if rules.credential(b.ref) then None else Some(b)
  {
  }

  /** Normalising an artifact is idempotent exactly if it kept its reference or the handle is no credential. */
  lemma ArtifactIdempotence(rules: Rules, reportId: Identifier, slot: string, a: Artifact)
    requires NormalizeArtifact(rules, reportId, slot, a).Some?
    ensures var once := NormalizeArtifact(rules, reportId, slot, a);
            NormalizeArtifact(rules, reportId, slot, once.value) == once
            <==> (a.sensitivity.Public? || IsOpaque(a.ref) || !rules.credential(Handle(rules, reportId, slot)))
  {
    ArtifactTwice(rules, reportId, slot, slot, a);
  }

  function ArtifactSlot(slot: string, index: nat): string {
    slot + "/artifact/" + Text(index)
  }

  function NormalizeArtifacts(rules: Rules, reportId: Identifier, slot: string, s: seq<Artifact>): (r: Option<seq<Artifact>>)
    ensures r.Some? ==> |r.value| == |s|
  {
    if |s| == 0 then Some([])
    else
      var n := |s| - 1;
      match (NormalizeArtifacts(rules, reportId, slot, s[..n]), NormalizeArtifact(rules, reportId, ArtifactSlot(slot, n), s[n]))
      case (Some(done), Some(last)) => Some(done + [last])
      case (_, _) => None
  }

  function NormalizeEvidence(rules: Rules, reportId: Identifier, slotFor: Identifier -> string, s: seq<Evidence>)
    : (r: Option<seq<Evidence>>)
    ensures r.Some? ==> |r.value| == |s|
  {
    if |s| == 0 then Some([])
    else
      var last := s[|s| - 1];
      match (NormalizeEvidence(rules, reportId, slotFor, s[..|s| - 1]),
             NormalizeArtifacts(rules, reportId, slotFor(last.id), last.artifacts))
      case (Some(done), Some(artifacts)) => Some(done + [last.(artifacts := artifacts)])
      case (_, _) => None
  }

  function EvidenceSlot(id: Identifier): string {
    "completion/evidence/" + id.text
  }

  function OperationSlot(id: Identifier): string {
    "completion/operation-evidence/" + id.text
  }

  /** `normalizeCompletionOutcomeArtifacts`. */
  function NormalizeOutcome(rules: Rules, reportId: Identifier, o: Outcome): Option<Outcome> {
    match (NormalizeEvidence(rules, reportId, EvidenceSlot, o.evidence),
           NormalizeEvidence(rules, reportId, OperationSlot, o.operationEvidence))
    case (Some(evidence), Some(operations)) => Some(o.(evidence := evidence, operationEvidence := operations))
    case (_, _) => None
  }

  // ---------------------------------------------------------------- what is published

  /**
   * `b` is `a` as the public may see it: a location that is public or opaque stays, any other one
   * becomes a protected handle, and nothing else of the artifact changes.
   */
  predicate PublicForm(rules: Rules, a: Artifact, b: Artifact) {
    && !rules.credential(a.ref) && b == a.(ref := b.ref)
    && (IsOpaque(b.ref) || (b.sensitivity.Public? && rules.publicUrl(b.ref)))
    && if IsOpaque(a.ref) || a.sensitivity.Public? then b.ref == a.ref else PROTECTED <= b.ref
  }

  lemma ArtifactIsPublic(rules: Rules, reportId: Identifier, slot: string, a: Artifact)
    requires NormalizeArtifact(rules, reportId, slot, a).Some?
    ensures PublicForm(rules, a, NormalizeArtifact(rules, reportId, slot, a).value)
  {
    var h := Handle(rules, reportId, slot);
    assert h[..|PROTECTED|] == PROTECTED;
  }

  ghost predicate PublicEvidence(rules: Rules, a: Evidence, b: Evidence) {
    && b == a.(artifacts := b.artifacts) && |b.artifacts| == |a.artifacts|
    && forall i :: 0 <= i < |a.artifacts| ==> PublicForm(rules, a.artifacts[i], b.artifacts[i])
  }

  lemma {:induction false} ArtifactsArePublic(rules: Rules, reportId: Identifier, slot: string, s: seq<Artifact>)
    requires NormalizeArtifacts(rules, reportId, slot, s).Some?
    ensures var n := NormalizeArtifacts(rules, reportId, slot, s).value;
            forall i :: 0 <= i < |s| ==> PublicForm(rules, s[i], n[i])
  {
    hide PublicForm, NormalizeArtifact;
    if |s| > 0 {
      ArtifactsArePublic(rules, reportId, slot, s[..|s| - 1]);
      ArtifactIsPublic(rules, reportId, ArtifactSlot(slot, |s| - 1), s[|s| - 1]);
    }
  }

  /** Normalised evidence is the same evidence in public form, one by one. */
  lemma {:induction false} EvidenceIsPublic(rules: Rules, reportId: Identifier, slotFor: Identifier -> string, s: seq<Evidence>)
    requires NormalizeEvidence(rules, reportId, slotFor, s).Some?
    ensures var n := NormalizeEvidence(rules, reportId, slotFor, s).value;
            forall i :: 0 <= i < |s| ==> PublicEvidence(rules, s[i], n[i])
  {
    hide NormalizeArtifacts, PublicForm;
    if |s| > 0 {
      EvidenceIsPublic(rules, reportId, slotFor, s[..|s| - 1]);
      ArtifactsArePublic(rules, reportId, slotFor(s[|s| - 1].id), s[|s| - 1].artifacts);
    }
  }

  lemma PublicEvidenceTransitive(rules: Rules, a: Evidence, b: Evidence, c: Evidence)
    requires PublicEvidence(rules, a, b) && PublicEvidence(rules, b, c)
    ensures PublicEvidence(rules, a, c)
  {
    forall i | 0 <= i < |a.artifacts|
      ensures PublicForm(rules, a.artifacts[i], c.artifacts[i])
    {
      assert PublicForm(rules, a.artifacts[i], b.artifacts[i]) && PublicForm(rules, b.artifacts[i], c.artifacts[i]);
    }
  }

  // ---------------------------------------------------------------- stability

  ghost predicate ArtifactsClean(rules: Rules, s: seq<Artifact>) {
    forall i :: 0 <= i < |s| ==> !rules.credential(s[i].ref)
  }

  ghost predicate EvidenceClean(rules: Rules, s: seq<Evidence>) {
    forall i :: 0 <= i < |s| ==> ArtifactsClean(rules, s[i].artifacts)
  }

  lemma {:induction false} ArtifactsTwice(rules: Rules, reportId: Identifier, slot: string, other: string, s: seq<Artifact>)
    requires NormalizeArtifacts(rules, reportId, slot, s).Some?
    ensures var once := NormalizeArtifacts(rules, reportId, slot, s).value;
            NormalizeArtifacts(rules, reportId, other, once) == if ArtifactsClean(rules, once) then Some(once) else None
  {
    if |s| > 0 {
      var n, once := |s| - 1, NormalizeArtifacts(rules, reportId, slot, s).value;
      ArtifactsTwice(rules, reportId, slot, other, s[..n]);
      ArtifactTwice(rules, reportId, ArtifactSlot(slot, n), ArtifactSlot(other, n), s[n]);
      var done := NormalizeArtifacts(rules, reportId, slot, s[..n]).value;
      assert once[..n] == done && once == done + [once[n]];
      assert ArtifactsClean(rules, once) <==> ArtifactsClean(rules, done) && !rules.credential(once[n].ref);
    }
  }

  /** Whatever slots the two passes use, the second keeps the list or refuses it. */
  lemma {:induction false} EvidenceTwice(rules: Rules, reportId: Identifier, slotFor: Identifier -> string,
                                         other: Identifier -> string, s: seq<Evidence>)
    requires NormalizeEvidence(rules, reportId, slotFor, s).Some?
    ensures var once := NormalizeEvidence(rules, reportId, slotFor, s).value;
            NormalizeEvidence(rules, reportId, other, once) == if EvidenceClean(rules, once) then Some(once) else None
  {
    hide NormalizeArtifacts, ArtifactsClean;
    if |s| > 0 {
      var n, once := |s| - 1, NormalizeEvidence(rules, reportId, slotFor, s).value;
      EvidenceTwice(rules, reportId, slotFor, other, s[..n]);
      ArtifactsTwice(rules, reportId, slotFor(s[n].id), other(s[n].id), s[n].artifacts);
      var done := NormalizeEvidence(rules, reportId, slotFor, s[..n]).value;
      assert once[..n] == done && once == done + [once[n]];
      assert EvidenceClean(rules, once) <==> EvidenceClean(rules, done) && ArtifactsClean(rules, once[n].artifacts);
    }
  }

  ghost predicate OutcomeClean(rules: Rules, o: Outcome) {
    EvidenceClean(rules, o.evidence) && EvidenceClean(rules, o.operationEvidence)
  }

  /** A normalised outcome is a fixed point unless one of its handles looks like a credential. */
  lemma OutcomeTwice(rules: Rules, reportId: Identifier, o: Outcome)
    requires NormalizeOutcome(rules, reportId, o).Some?
    ensures var once := NormalizeOutcome(rules, reportId, o).value;
            NormalizeOutcome(rules, reportId, once) == if OutcomeClean(rules, once) then Some(once) else None
  {
    hide NormalizeEvidence, EvidenceClean;
    EvidenceTwice(rules, reportId, EvidenceSlot, EvidenceSlot, o.evidence);
    EvidenceTwice(rules, reportId, OperationSlot, OperationSlot, o.operationEvidence);
  }

  // ---------------------------------------------------------------- whole reports

  /** The slots that completions give to the evidence they own; later entries win. */
  function SlotsOf(slotFor: Identifier -> string, s: seq<Evidence>, before: map<Identifier, string>): map<Identifier, string> {
    if |s| == 0 then before
    else
      var last := s[|s| - 1];
      SlotsOf(slotFor, s[..|s| - 1], before)[last.id := slotFor(last.id)]
  }

  function CompletionSlots(cs: seq<Completion>): map<Identifier, string> {
    if |cs| == 0 then map[]
    else
      var o := cs[|cs| - 1].outcome;
      SlotsOf(OperationSlot, o.operationEvidence, SlotsOf(EvidenceSlot, o.evidence, CompletionSlots(cs[..|cs| - 1])))
  }

  function SlotIn(slots: map<Identifier, string>, id: Identifier): string {
    if id in slots then slots[id] else "evidence/" + id.text
  }

  function NormalizeInputs(rules: Rules, reportId: Identifier, s: seq<Input>): Option<seq<Input>> {
    if |s| == 0 then Some([])
    else
      var last := s[|s| - 1];
      match (NormalizeInputs(rules, reportId, s[..|s| - 1]),
             NormalizeArtifact(rules, reportId, "input/" + last.id.text, last.artifact))
      case (Some(done), Some(artifact)) => Some(done + [last.(artifact := artifact)])
      case (_, _) => None
  }

  function NormalizeCompletions(rules: Rules, reportId: Identifier, cs: seq<Completion>): (r: Option<seq<Completion>>)
    ensures r.Some? ==> |r.value| == |cs|
  {
    if |cs| == 0 then Some([])
    else
      var last := cs[|cs| - 1];
      match (NormalizeCompletions(rules, reportId, cs[..|cs| - 1]), NormalizeOutcome(rules, reportId, last.outcome))
      case (Some(done), Some(outcome)) => Some(done + [last.(outcome := outcome)])
      case (_, _) => None
  }

  function NormalizeOwned(rules: Rules, reportId: Identifier, slots: map<Identifier, string>, s: seq<Evidence>): Option<seq<Evidence>> {
    NormalizeEvidence(rules, reportId, id => SlotIn(slots, id), s)
  }

  function NormalizeReport(rules: Rules, r: FailureReport): Option<FailureReport> {
    match (NormalizeInputs(rules, r.id, r.inputs), NormalizeOwned(rules, r.id, CompletionSlots(r.completions), r.evidence),
           NormalizeCompletions(rules, r.id, r.completions))
    case (Some(inputs), Some(evidence), Some(completions)) =>
      Some(r.(inputs := inputs, evidence := evidence, completions := completions))
    case (_, _, _) => None
  }

  /** The loop that fills `completionSlots`, and the maps over the rest. */
  method NormalizeFailureReport(rules: Rules, r: FailureReport) returns (n: Option<FailureReport>)
    ensures n == NormalizeReport(rules, r)
  {
    var slots: map<Identifier, string> := map[];
    for i := 0 to |r.completions|
      invariant slots == CompletionSlots(r.completions[..i])
    {
      ghost var before := slots;
      var o := r.completions[i].outcome;
      for j := 0 to |o.evidence|
        invariant slots == SlotsOf(EvidenceSlot, o.evidence[..j], before)
      {
        assert o.evidence[..j + 1][..j] == o.evidence[..j];
        slots := slots[o.evidence[j].id := EvidenceSlot(o.evidence[j].id)];
      }
      assert o.evidence[..|o.evidence|] == o.evidence;
      ghost var middle := slots;
      for j := 0 to |o.operationEvidence|
        invariant slots == SlotsOf(OperationSlot, o.operationEvidence[..j], middle)
      {
        assert o.operationEvidence[..j + 1][..j] == o.operationEvidence[..j];
        slots := slots[o.operationEvidence[j].id := OperationSlot(o.operationEvidence[j].id)];
      }
      assert o.operationEvidence[..|o.operationEvidence|] == o.operationEvidence;
      assert r.completions[..i + 1][..i] == r.completions[..i];
    }
    assert r.completions[..|r.completions|] == r.completions;
    var inputs, evidence := NormalizeInputs(rules, r.id, r.inputs), NormalizeOwned(rules, r.id, slots, r.evidence);
    var completions := NormalizeCompletions(rules, r.id, r.completions);
    if inputs.None? || evidence.None? || completions.None? {
      return None;
    }
    n := Some(r.(inputs := inputs.value, evidence := evidence.value, completions := completions.value));
  }

  /** Completions whose outcomes were already normalised are published unchanged or not at all. */
  lemma {:induction false} CompletionsStable(rules: Rules, reportId: Identifier, cs: seq<Completion>)
    requires forall i :: 0 <= i < |cs| ==> NormalizedOutcome(rules, reportId, cs[i].outcome)
    ensures var n := NormalizeCompletions(rules, reportId, cs); n.Some? ==> n.value == cs
  {
    hide NormalizeOutcome, NormalizedOutcome;
    if |cs| > 0 && NormalizeCompletions(rules, reportId, cs).Some? {
      CompletionsStable(rules, reportId, cs[..|cs| - 1]);
      StableOutcome(rules, reportId, cs[|cs| - 1].outcome);
    }
  }

  /** The outcome came out of a normalisation. */
  ghost predicate NormalizedOutcome(rules: Rules, reportId: Identifier, o: Outcome) {
    exists raw :: NormalizeOutcome(rules, reportId, raw) == Some(o)
  }

  lemma StableOutcome(rules: Rules, reportId: Identifier, o: Outcome)
    requires NormalizedOutcome(rules, reportId, o)
    ensures NormalizeOutcome(rules, reportId, o).Some? ==> NormalizeOutcome(rules, reportId, o) == Some(o)
  {
    hide NormalizeOutcome;
    var raw :| NormalizeOutcome(rules, reportId, raw) == Some(o);
    OutcomeTwice(rules, reportId, raw);
  }

  lemma {:induction false} InputsTwice(rules: Rules, reportId: Identifier, s: seq<Input>)
    requires NormalizeInputs(rules, reportId, s).Some?
    ensures var once := NormalizeInputs(rules, reportId, s).value;
            NormalizeInputs(rules, reportId, once).Some? ==> NormalizeInputs(rules, reportId, once) == Some(once)
  {
    if |s| > 0 {
      var n, once := |s| - 1, NormalizeInputs(rules, reportId, s).value;
      InputsTwice(rules, reportId, s[..n]);
      var slot := "input/" + s[n].id.text;
      ArtifactTwice(rules, reportId, slot, slot, s[n].artifact);
      var done := NormalizeInputs(rules, reportId, s[..n]).value;
      assert once[..|done|] == done && once == done + [once[|done|]];
    }
  }

  lemma {:induction false} CompletionsAreNormalized(rules: Rules, reportId: Identifier, cs: seq<Completion>)
    requires NormalizeCompletions(rules, reportId, cs).Some?
    ensures var n := NormalizeCompletions(rules, reportId, cs).value;
            forall i :: 0 <= i < |n| ==> NormalizedOutcome(rules, reportId, n[i].outcome)
  {
    hide NormalizeOutcome;
    if |cs| > 0 {
      CompletionsAreNormalized(rules, reportId, cs[..|cs| - 1]);
      var n := NormalizeCompletions(rules, reportId, cs).value;
      assert NormalizeOutcome(rules, reportId, cs[|cs| - 1].outcome) == Some(n[|n| - 1].outcome);
    }
  }

  /** Publishing a published report changes no artifact: a second normalisation keeps it or refuses it. */
  lemma ReportTwice(rules: Rules, r: FailureReport)
    requires NormalizeReport(rules, r).Some?
    ensures var once := NormalizeReport(rules, r).value;
            NormalizeReport(rules, once).Some? ==> NormalizeReport(rules, once) == Some(once)
  {
    hide NormalizeInputs, NormalizeEvidence, NormalizeCompletions, CompletionSlots, NormalizedOutcome, EvidenceClean;
    var once := NormalizeReport(rules, r).value;
    InputsTwice(rules, r.id, r.inputs);
    var before, after := CompletionSlots(r.completions), CompletionSlots(once.completions);
    EvidenceTwice(rules, r.id, id => SlotIn(before, id), id => SlotIn(after, id), r.evidence);
    CompletionsAreNormalized(rules, r.id, r.completions);
    CompletionsStable(rules, r.id, once.completions);
  }
}
