/** A reported completion is a shown one: the stored report carries the whole diagnosis in public form. */
module DiagnosisShown {
  import opened Common
  import opened Workpad
  import opened Sorting
  import opened DiagnosticReport
  import opened ArtifactReferences
  import opened CompletionRecords
  import opened Reconciliation
  import opened ReconciliationRuns
  import opened ReconciliationLoop

  // ---------------------------------------------------------------- the diagnosis as recorded

  /** Every entry of `s` is in `t` in public form, and `t` holds nothing else. */
  ghost predicate PublicVersion(rules: Rules, s: seq<Evidence>, t: seq<Evidence>) {
    && (forall e :: e in s ==> exists p :: p in t && PublicEvidence(rules, e, p))
    && (forall p :: p in t ==> exists e :: e in s && PublicEvidence(rules, e, p))
  }

  lemma NormalizedIsPublic(rules: Rules, reportId: Identifier, slotFor: Identifier -> string, s: seq<Evidence>)
    requires NormalizeEvidence(rules, reportId, slotFor, s).Some?
    ensures PublicVersion(rules, s, NormalizeEvidence(rules, reportId, slotFor, s).value)
  {
    hide NormalizeEvidence, PublicEvidence;
    EvidenceIsPublic(rules, reportId, slotFor, s);
    var n := NormalizeEvidence(rules, reportId, slotFor, s).value;
    forall e | e in s
      ensures exists p :: p in n && PublicEvidence(rules, e, p)
    {
      var i :| 0 <= i < |s| && s[i] == e;
      assert n[i] in n;
    }
    forall p | p in n
      ensures exists e :: e in s && PublicEvidence(rules, e, p)
    {
      var i :| 0 <= i < |n| && n[i] == p;
      assert s[i] in s;
    }
  }

  /** The recorded outcome is the one the turn reported: sorted, with its artifacts in public form. */
  ghost predicate Records(rules: Rules, raw: Outcome, o: Outcome) {
    && o.status == raw.status && o.conclusion == raw.conclusion
    && multiset(o.hypotheses) == multiset(raw.hypotheses) && multiset(o.experiments) == multiset(raw.experiments)
    && PublicVersion(rules, raw.evidence, o.evidence) && PublicVersion(rules, raw.operationEvidence, o.operationEvidence)
  }

  lemma CanonicalRecords(h: Host, reportId: Identifier, raw: Outcome)
    requires CanonicalOutcome(h, reportId, raw).Some?
    ensures Records(h.rules, raw, CanonicalOutcome(h, reportId, raw).value)
  {
    hide NormalizeEvidence, PublicEvidence, OutcomeIdsOk;
    var sorted := SortedOutcome(h, raw);
    NormalizedIsPublic(h.rules, reportId, EvidenceSlot, sorted.evidence);
    NormalizedIsPublic(h.rules, reportId, OperationSlot, sorted.operationEvidence);
    MultisetMembers(sorted.evidence, raw.evidence);
    MultisetMembers(sorted.operationEvidence, raw.operationEvidence);
  }

  // ---------------------------------------------------------------- the diagnosis as stored

  /** The stored report shows what the turn reported, on top of everything the report held before. */
  ghost predicate ShowsDiagnosis(rules: Rules, before: FailureReport, raw: Outcome, stored: FailureReport) {
    && PublicVersion(rules, before.evidence + raw.evidence + raw.operationEvidence, stored.evidence)
    && |before.evidence| <= |stored.evidence|
    && (forall i :: 0 <= i < |before.evidence| ==> PublicEvidence(rules, before.evidence[i], stored.evidence[i]))
    && Extends(before.hypotheses, raw.hypotheses, stored.hypotheses)
    && Extends(before.experiments, raw.experiments, stored.experiments)
    && stored.status == (if raw.status.Some? then raw.status.value else before.status)
    && stored.conclusion == (if raw.conclusion.Some? then raw.conclusion.value else before.conclusion)
    && stored.id == before.id && stored.target == before.target && stored.hasContext == before.hasContext
    && stored.rest == before.rest
  }

  lemma EvidenceShown(rules: Rules, before: seq<Evidence>, raw: seq<Evidence>, operations: seq<Evidence>, recorded: seq<Evidence>,
                      recordedOperations: seq<Evidence>, projected: seq<Evidence>, stored: seq<Evidence>)
    requires PublicVersion(rules, raw, recorded) && PublicVersion(rules, operations, recordedOperations)
    requires Extends(before, recorded + recordedOperations, projected) && |stored| == |projected|
    requires forall i :: 0 <= i < |projected| ==> PublicEvidence(rules, projected[i], stored[i])
    ensures PublicVersion(rules, before + raw + operations, stored)
  {
    hide PublicEvidence;
    forall e | e in before + raw + operations
      ensures exists p :: p in stored && PublicEvidence(rules, e, p)
    {
      var m := if e in before then e
               else if e in raw then var m :| m in recorded && PublicEvidence(rules, e, m); m
               else var m :| m in recordedOperations && PublicEvidence(rules, e, m); m;
      assert m in projected;
      var i :| 0 <= i < |projected| && projected[i] == m;
      if e !in before {
        PublicEvidenceTransitive(rules, e, m, stored[i]);
      }
      assert stored[i] in stored;
    }
    forall p | p in stored
      ensures exists e :: e in before + raw + operations && PublicEvidence(rules, e, p)
    {
      var i :| 0 <= i < |stored| && stored[i] == p;
      var m := projected[i];
      assert m in projected;
      if m !in before {
        if m in recorded {
          var e :| e in raw && PublicEvidence(rules, e, m);
          PublicEvidenceTransitive(rules, e, m, p);
        } else {
          var e :| e in operations && PublicEvidence(rules, e, m);
          PublicEvidenceTransitive(rules, e, m, p);
        }
      }
    }
  }

  lemma MultisetExtends<T(!new)>(before: seq<T>, a: seq<T>, b: seq<T>, after: seq<T>)
    requires Extends(before, a, after) && multiset(a) == multiset(b)
    ensures Extends(before, b, after)
  {
    MultisetMembers(a, b);
  }

  /** Publication of a projected report keeps what it shows, in public form. */
  lemma StoredShows(h: Host, r: FailureReport, raw: Outcome, o: Outcome, next: FailureReport, stored: FailureReport)
    requires Records(h.rules, raw, o) && ShowsOutcome(r, o, next) && SameOtherwise(r, next)
    requires NormalizeReport(h.rules, next) == Some(stored)
    ensures ShowsDiagnosis(h.rules, r, raw, stored) && stored.session == next.session
  {
    hide PublicEvidence, NormalizeInputs, NormalizeCompletions, NormalizeEvidence, PublicVersion, CompletionSlots;
    var slots := CompletionSlots(next.completions);
    EvidenceIsPublic(h.rules, next.id, id => SlotIn(slots, id), next.evidence);
    EvidenceShown(h.rules, r.evidence, raw.evidence, raw.operationEvidence, o.evidence, o.operationEvidence, next.evidence, stored.evidence);
    MultisetExtends(r.hypotheses, o.hypotheses, raw.hypotheses, stored.hypotheses);
    MultisetExtends(r.experiments, o.experiments, raw.experiments, stored.experiments);
  }

  /** What one publication of a finished turn stores. */
  lemma PublishedShowsDiagnosis(h: Host, r: FailureReport, captured: Captured, f: Finish, stored: FailureReport)
    requires Decide(h, r, captured, f).Publishing? && NormalizeReport(h.rules, Decide(h, r, captured, f).next) == Some(stored)
    ensures ShowsDiagnosis(h.rules, r, OutcomeOf(f), stored)
    ensures stored.session == Some(DiagnosedSession(r, captured))
  {
    DecidedFacts(h, r, captured, f);
    hide Decide, StateOk, Regresses, Projected, CanonicalOutcome, NormalizeReport, FindCompletion, Records, ShowsOutcome, ShowsDiagnosis;
    var a := Decide(h, r, captured, f);
    CanonicalRecords(h, r.id, OutcomeOf(f));
    ProjectionShowsOutcome(h, r, DiagnosedSession(r, captured), a.candidate);
    StoredShows(h, r, OutcomeOf(f), a.candidate.outcome, a.next, stored);
  }

  // ---------------------------------------------------------------- the loop

  /** The report after what others published before the reads of the given rounds. */
  function EditedBy(r: FailureReport, rounds: seq<Round>): FailureReport
    decreases |rounds|
  {
    if |rounds| == 0 then r else EditedBy(RevisedAll(r, rounds[0].edits), rounds[1..])
  }

  /**
   * Whenever the loop reports a new completion, the report it leaves shows the whole diagnosis, on
   * top of the report that others had edited up to the last read.
   */
  lemma {:induction false} DoneShowsDiagnosis(h: Host, r: FailureReport, f: Finish, head: Option<Revision>, captured: Option<Captured>,
                                             rounds: seq<Round>, past: nat)
    requires Inv(h, r) && past < |rounds|
    requires var (answer, _) := Reconcile(h, r, f, head, captured, rounds, past); answer.Done? && !answer.idempotent
    ensures var (answer, stored) := Reconcile(h, r, f, head, captured, rounds, past);
            && r.completions == [] && past < answer.attempts <= |rounds|
            && ShowsDiagnosis(h.rules, EditedBy(r, rounds[past..answer.attempts]), OutcomeOf(f), stored)
            && stored.completions == [answer.completion]
    decreases |rounds| - past
  {
    hide Inv, Decide, NormalizeReport, ShowsDiagnosis, RevisedAll;
    var round := rounds[past];
    var current := RevisedAll(r, round.edits);
    EditsKeepDiagnosis(h, r, round.edits);
    var c := CapturedBy(current, head, captured, round.now).value;
    var next := Decide(h, current, c, f).next;
    var stored := NormalizeReport(h.rules, next).value;
    PublishingFacts(h, current, c, f);
    if round.write.Accepted? {
      PublishedShowsDiagnosis(h, current, c, f, stored);
      assert rounds[past..past + 1] == [round];
      assert EditedBy(r, [round]) == current;
    } else {
      var after := if round.write.applied then stored else current;
      DoneShowsDiagnosis(h, after, f, head, Some(c), rounds, past + 1);
      var n := Reconcile(h, r, f, head, captured, rounds, past).0.attempts;
      assert rounds[past..n][1..] == rounds[past + 1..n];
    }
  }

  /** The same for a whole call. */
  lemma ReportedDiagnosisIsStored(h: Host, r: FailureReport, f: Finish, head: Option<Revision>, rounds: seq<Round>)
    requires Inv(h, r) && |rounds| > 0
    ensures var (answer, stored) := Reconcile(h, r, f, head, None, rounds, 0);
            answer.Done? && !answer.idempotent ==>
              && answer.attempts <= |rounds|
              && ShowsDiagnosis(h.rules, EditedBy(r, rounds[..answer.attempts]), OutcomeOf(f), stored)
  {
    hide Inv, Reconcile, ShowsDiagnosis;
    var (answer, stored) := Reconcile(h, r, f, head, None, rounds, 0);
    if answer.Done? && !answer.idempotent {
      DoneShowsDiagnosis(h, r, f, head, None, rounds, 0);
      assert rounds[0..answer.attempts] == rounds[..answer.attempts];
    }
  }
}
