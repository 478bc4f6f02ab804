/** What every publication of the diagnostic workpad keeps, and the reconciliation loop itself. */
module ReconciliationRuns {
  import opened Common
  import opened Workpad
  import opened DiagnosticReport
  import opened ArtifactReferences
  import opened CompletionRecords
  import opened Reconciliation

  ghost predicate IsCanonical(h: Host, reportId: Identifier, o: Outcome) {
    exists raw :: CanonicalOutcome(h, reportId, raw) == Some(o)
  }

  /** A diagnosis has at most one completion, and it describes the head the session records. */
  ghost predicate Inv(h: Host, r: FailureReport) {
    && ReportOk(r) && |r.completions| <= 1
    && (r.session.Some? && r.session.value.lifecycle.Finalized? ==> r.session.value.lifecycle.branch == r.session.value.head)
    && (|r.completions| == 0 && r.session.Some? ==> r.session.value.lastDiagnosed.None?)
    && (|r.completions| == 1 ==>
          && r.session.Some? && HistoryOk(h, r)
          && r.completions[0].binding.head == r.session.value.head
          && r.session.value.lastDiagnosed == Some(r.completions[0].completedAt)
          && IsCanonical(h, r.id, r.completions[0].outcome))
  }

  // ---------------------------------------------------------------- publishing

  /** Normalising for publication touches only artifacts. */
  lemma NormalizeTouchesArtifacts(rules: Rules, r: FailureReport)
    requires NormalizeReport(rules, r).Some?
    ensures var n := NormalizeReport(rules, r).value;
            n == r.(inputs := n.inputs, evidence := n.evidence, completions := n.completions)
  {
  }

  lemma CanonicalIsNormalized(h: Host, reportId: Identifier, o: Outcome)
    requires IsCanonical(h, reportId, o)
    ensures NormalizedOutcome(h.rules, reportId, o)
  {
    var raw :| CanonicalOutcome(h, reportId, raw) == Some(o);
    assert NormalizeOutcome(h.rules, reportId, SortedOutcome(h, raw)) == Some(o);
  }

  /** Canonical completions survive publication unchanged. */
  lemma PublishedKeepsCompletions(h: Host, r: FailureReport)
    requires NormalizeReport(h.rules, r).Some?
    requires forall i :: 0 <= i < |r.completions| ==> IsCanonical(h, r.id, r.completions[i].outcome)
    ensures NormalizeReport(h.rules, r).value.completions == r.completions
  {
    hide IsCanonical, NormalizeCompletions, NormalizedOutcome, NormalizeInputs, NormalizeOwned;
    forall i | 0 <= i < |r.completions|
      ensures NormalizedOutcome(h.rules, r.id, r.completions[i].outcome)
    {
      CanonicalIsNormalized(h, r.id, r.completions[i].outcome);
    }
    CompletionsStable(h.rules, r.id, r.completions);
  }

  lemma PublishedKeepsInv(h: Host, r: FailureReport)
    requires Inv(h, r) && NormalizeReport(h.rules, r).Some?
    ensures Inv(h, NormalizeReport(h.rules, r).value) && NormalizeReport(h.rules, r).value.completions == r.completions
  {
    hide NormalizeReport, IsCanonical;
    PublishedKeepsCompletions(h, r);
    NormalizeTouchesArtifacts(h.rules, r);
  }

  // ---------------------------------------------------------------- a completion

  lemma DecidedFacts(h: Host, r: FailureReport, captured: Captured, f: Finish)
    requires Decide(h, r, captured, f).Publishing?
    ensures r.session.Some? && r.session.value.lifecycle.Active? && f.thread.Some? && StateOk(h, r, captured, f)
    ensures var a := Decide(h, r, captured, f);
            && RecordFor(h, r, captured, f, captured.completedAt) == Some(a.candidate)
            && FindCompletion(r.completions, a.candidate.id).None? && !Regresses(r, captured)
            && Projected(h, r, DiagnosedSession(r, captured), a.candidate) == Some(a.next)
  {
    hide StateOk, RecordFor, Projected, Replay, Regresses;
  }

  /** Without regressing the head, a record for an already completed session repeats its identity. */
  lemma RecordRepeatsIdentity(h: Host, r: FailureReport, captured: Captured, f: Finish, candidate: Completion)
    requires Inv(h, r) && |r.completions| == 1 && f.thread.Some? && StateOk(h, r, captured, f)
    requires RecordFor(h, r, captured, f, captured.completedAt) == Some(candidate) && !Regresses(r, captured)
    ensures FindCompletion(r.completions, candidate.id).Some?
  {
    hide CanonicalOutcome, IsCanonical, ReportOk;
    assert RecordBelongs(h, r, r.completions[0]);
    assert r.completions[0] in r.completions;
  }

  /** A second completion is impossible: it would repeat the identity or regress the head. */
  lemma OnlyFirstCompletionIsPublished(h: Host, r: FailureReport, captured: Captured, f: Finish)
    requires Inv(h, r) && Decide(h, r, captured, f).Publishing?
    ensures r.completions == []
  {
    DecidedFacts(h, r, captured, f);
    hide Decide, Projected, RecordFor, StateOk, Regresses, FindCompletion;
    if |r.completions| == 1 {
      RecordRepeatsIdentity(h, r, captured, f, Decide(h, r, captured, f).candidate);
    }
  }

  lemma CompletionKeepsInv(h: Host, r: FailureReport, captured: Captured, f: Finish)
    requires Inv(h, r) && Decide(h, r, captured, f).Publishing?
    ensures var a := Decide(h, r, captured, f);
            && Inv(h, a.next) && a.next.completions == [a.candidate]
            && a.next.session == Some(DiagnosedSession(r, captured))
            && a.candidate.binding.head == captured.session.head && Some(a.candidate.binding.thread) == f.thread
            && a.next.id == r.id && a.next.target == r.target && a.next.hasContext == r.hasContext
  {
    OnlyFirstCompletionIsPublished(h, r, captured, f);
    DecidedFacts(h, r, captured, f);
    hide Decide, CanonicalOutcome, Merge;
    var a := Decide(h, r, captured, f);
    assert IsCanonical(h, r.id, a.candidate.outcome);
    assert a.next.completions == [a.candidate];
  }

  // ---------------------------------------------------------------- replay

  /** The replayed finish carries what the stored record carries. */
  ghost predicate SameContent(h: Host, r: FailureReport, c: Completion, f: Finish) {
    && (if f.outcome.Some? then CanonicalOutcome(h, r.id, f.outcome.value) == Some(c.outcome) else OutcomeClean(h.rules, c.outcome))
    && (f.finishReason.None? || f.finishReason == c.finishReason)
  }

  lemma EmptyOutcomeIsCanonical(h: Host, reportId: Identifier)
    ensures CanonicalOutcome(h, reportId, EmptyOutcome) == Some(EmptyOutcome)
  {
  }

  /**
   * Finishing the same turn again on the same head returns the stored record exactly if the
   * replay omits its payload or repeats it; an omitted payload needs handles that are no credentials.
   */
  lemma ReplayReturnsRecord(h: Host, r: FailureReport, captured: Captured, f: Finish)
    requires HostOk(h) && Inv(h, r) && |r.completions| == 1 && r.session.value.lifecycle.Active?
    requires StateOk(h, r, captured, f) && captured.session.head == r.completions[0].binding.head
    requires f.thread == Some(r.completions[0].binding.thread)
    ensures Decide(h, r, captured, f) == Replayed(r.completions[0]) <==> SameContent(h, r, r.completions[0], f)
  {
    hide HostOk, StateOk, NormalizeOutcome, SortedOutcome, OutcomeClean, OutcomeIdsOk, Projected;
    var c := r.completions[0];
    var binding := BindingOf(r, captured, f.thread.value);
    SameBinding(h, r, captured, f);
    assert RecordBelongs(h, r, c);
    var raw :| CanonicalOutcome(h, r.id, raw) == Some(c.outcome);
    CanonicalOutcomeTwice(h, r.id, raw);
    EmptyOutcomeIsCanonical(h, r.id);
    assert c in r.completions;
    var first := RecordFor(h, r, captured, f, captured.completedAt);
    if first.Some? {
      assert FindCompletion(r.completions, first.value.id) == Some(c);
    }
  }

  lemma SameBinding(h: Host, r: FailureReport, captured: Captured, f: Finish)
    requires |r.completions| == 1 && StateOk(h, r, captured, f) && captured.session.head == r.completions[0].binding.head
    requires f.thread == Some(r.completions[0].binding.thread)
    ensures BindingOf(r, captured, f.thread.value) == r.completions[0].binding
  {
    assert RecordBelongs(h, r, r.completions[0]);
  }

  // ---------------------------------------------------------------- runs of publications

  /** Another Root publication: everything but the session and the completions may change. */
  datatype Edit = Edit(status: Status, inputs: seq<Input>, evidence: seq<Evidence>, hypotheses: seq<Item>, experiments: seq<Item>,
                       conclusion: string, rest: string)

  function Revised(r: FailureReport, e: Edit): FailureReport {
    r.(status := e.status, inputs := e.inputs, evidence := e.evidence, hypotheses := e.hypotheses, experiments := e.experiments,
       conclusion := e.conclusion, rest := e.rest)
  }

  datatype Step =
    | EditReport(e: Edit)
    | NewSession(s: Session)
    | Rehydrate(base: Revision, head: Revision)
    | RecordThread(thread: ThreadId)
    | RecordApproval(a: Approval)
    | Complete(captured: Captured, f: Finish)
    | Finalize

  /** The report a step wants to publish; `None` where the code refuses before writing. */
  ghost function Wanted(h: Host, r: FailureReport, step: Step): Option<FailureReport> {
    match step
    case EditReport(e) => Some(Revised(r, e))
    case NewSession(s) =>
      if r.session.None? && s.lifecycle.Active? && s.thread.None? && s.lastDiagnosed.None? && s.approvals == []
      then Some(r.(session := Some(s))) else None
    case Rehydrate(base, head) =>
      if r.session.None? then None
      else
        var s := r.session.value;
        if s.lifecycle.Active? && SameRevision(s.base, r.target) && SameRevision(s.head, s.base)
        then Some(r.(session := Some(s.(thread := None, base := base, head := head)))) else None
    case RecordThread(thread) =>
      if r.session.Some? && r.session.value.lifecycle.Active? && r.session.value.thread.None?
      then Some(r.(session := Some(r.session.value.(thread := Some(thread))))) else None
    case RecordApproval(a) =>
      if r.session.Some? && r.session.value.lifecycle.Active? && (forall x :: x in r.session.value.approvals ==> x.id != a.id)
      then Some(r.(session := Some(r.session.value.(approvals := r.session.value.approvals + [a])))) else None
    case Complete(captured, f) =>
      if Decide(h, r, captured, f).Publishing? then Some(Decide(h, r, captured, f).next) else None
    case Finalize =>
      if r.session.Some? && r.session.value.lifecycle.Active?
      then Some(r.(session := Some(r.session.value.(lifecycle := Finalized(r.session.value.head))))) else None
  }

  /** A publication: wanted, accepted by the schema, normalised and stored. */
  ghost predicate Next(h: Host, r: FailureReport, step: Step, t: FailureReport) {
    var wanted := Wanted(h, r, step);
    wanted.Some? && ReportOk(wanted.value) && NormalizeReport(h.rules, wanted.value) == Some(t)
  }

  lemma WantedKeepsInv(h: Host, r: FailureReport, step: Step)
    requires Inv(h, r) && Wanted(h, r, step).Some? && ReportOk(Wanted(h, r, step).value)
    ensures var w := Wanted(h, r, step).value; Inv(h, w) && r.completions <= w.completions
  {
    hide IsCanonical, Decide;
    match step
    case Complete(captured, f) =>
      CompletionKeepsInv(h, r, captured, f);
      OnlyFirstCompletionIsPublished(h, r, captured, f);
    case _ =>
      SessionStepKeepsHistory(h, r, step);
  }

  lemma SessionStepKeepsHistory(h: Host, r: FailureReport, step: Step)
    requires Inv(h, r) && !step.Complete? && Wanted(h, r, step).Some? && ReportOk(Wanted(h, r, step).value)
    ensures var w := Wanted(h, r, step).value; w.completions == r.completions && (|r.completions| == 1 ==> HistoryOk(h, w))
  {
    hide IsCanonical;
    var w := Wanted(h, r, step).value;
    if |r.completions| == 1 {
      assert RecordBelongs(h, r, r.completions[0]);
    }
  }

  lemma NextKeepsInv(h: Host, r: FailureReport, step: Step, t: FailureReport)
    requires Inv(h, r) && Next(h, r, step, t)
    ensures Inv(h, t) && r.completions <= t.completions
  {
    hide Inv, Wanted, NormalizeReport, ReportOk;
    WantedKeepsInv(h, r, step);
    PublishedKeepsInv(h, Wanted(h, r, step).value);
  }

  ghost predicate IsRun(h: Host, states: seq<FailureReport>, steps: seq<Step>) {
    && |states| == |steps| + 1
    && states[0].session.None? && states[0].completions == []
    && forall i :: 0 <= i < |steps| ==> Next(h, states[i], steps[i], states[i + 1])
  }

  /**
   * Over every run of publications a report holds at most one completion, whose observed head is
   * the head its session records; once there, it is never replaced, changed or dropped.
   */
  lemma {:induction false} RunKeepsOneCompletion(h: Host, states: seq<FailureReport>, steps: seq<Step>, i: nat)
    requires IsRun(h, states, steps) && i <= |steps|
    ensures Inv(h, states[|steps|])
    ensures states[i].completions <= states[|steps|].completions
    decreases |steps|
  {
    hide Next, Inv;
    if |steps| == 0 {
      FreshReportInv(h, states[0]);
    } else {
      var n := |steps| - 1;
      assert forall k :: 0 <= k < n ==> steps[..n][k] == steps[k] && states[..n + 1][k + 1] == states[k + 1];
      RunKeepsOneCompletion(h, states[..n + 1], steps[..n], if i <= n then i else n);
      NextKeepsInv(h, states[n], steps[n], states[n + 1]);
    }
  }

  lemma FreshReportInv(h: Host, r: FailureReport)
    requires r.session.None? && r.completions == []
    ensures Inv(h, r)
  {
  }

  lemma CompletionMatchesSession(h: Host, states: seq<FailureReport>, steps: seq<Step>)
    requires IsRun(h, states, steps)
    ensures var r := states[|steps|];
            && |r.completions| <= 1
            && (|r.completions| == 1 ==> r.session.Some? && r.completions[0].binding.head == r.session.value.head
                                         && Some(r.completions[0].binding.thread) == r.session.value.thread)
            && (|r.completions| == 1 && r.session.value.lifecycle.Finalized? ==>
                  r.session.value.lifecycle.branch == r.completions[0].binding.head)
  {
    RunKeepsOneCompletion(h, states, steps, 0);
  }

  /** A worktree rebuilt without its thread can only be published while nothing is completed. */
  lemma RehydrationNeedsNoCompletion(h: Host, r: FailureReport, base: Revision, head: Revision)
    requires Inv(h, r) && Wanted(h, r, Rehydrate(base, head)).Some?
    ensures ReportOk(Wanted(h, r, Rehydrate(base, head)).value) <==> r.completions == []
  {
    hide IsCanonical;
    if |r.completions| == 1 {
      assert RecordBelongs(h, r, r.completions[0]);
      assert !ReportOk(Wanted(h, r, Rehydrate(base, head)).value);
    }
  }
}
