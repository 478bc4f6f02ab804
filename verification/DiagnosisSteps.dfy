/** What each publication of a diagnosis stores, what stays stored, and exactly when a finished turn is published. */
module DiagnosisSteps {
  import opened Common
  import opened Workpad
  import opened DiagnosticReport
  import opened ArtifactReferences
  import opened CompletionRecords
  import opened Reconciliation
  import opened ReconciliationRuns

  // ---------------------------------------------------------------- one publication

  /** The session that a step other than a completion leaves, given the one before. */
  predicate LeavesSession(before: Option<Session>, step: Step, after: Option<Session>) {
    match step
    case EditReport(_) => after == before
    case NewSession(s) => before.None? && after == Some(s)
    case RecordThread(thread) =>
      && before.Some? && before.value.lifecycle.Active? && before.value.thread.None?
      && after == Some(before.value.(thread := Some(thread)))
    case RecordApproval(a) =>
      && before.Some? && before.value.lifecycle.Active? && (forall x :: x in before.value.approvals ==> x.id != a.id)
      && after == Some(before.value.(approvals := before.value.approvals + [a]))
    case Rehydrate(base, head) =>
      && before.Some? && before.value.lifecycle.Active?
      && after == Some(before.value.(thread := None, base := base, head := head))
    case Finalize =>
      && before.Some? && before.value.lifecycle.Active?
      && after == Some(before.value.(lifecycle := Finalized(before.value.head)))
    case Complete(captured, _) =>
      && before.Some? && before.value.lifecycle.Active?
      && after == Some(before.value.(head := captured.session.head, lastDiagnosed := Some(captured.completedAt)))
  }

  /** Each step stores the session it is for, and leaves the completions to completing steps. */
  lemma StepLeavesSession(h: Host, r: FailureReport, step: Step, t: FailureReport)
    requires Inv(h, r) && Next(h, r, step, t)
    ensures LeavesSession(r.session, step, t.session)
    ensures !step.Complete? ==> t.completions == r.completions
    ensures step.Rehydrate? ==> SameRevision(r.session.value.base, r.target) && SameRevision(r.session.value.head, r.session.value.base)
    ensures step.NewSession? ==> step.s.lifecycle.Active? && step.s.thread.None? && step.s.lastDiagnosed.None? && step.s.approvals == []
    ensures step.EditReport? ==>
              && t.status == step.e.status && t.hypotheses == step.e.hypotheses && t.experiments == step.e.experiments
              && t.conclusion == step.e.conclusion && t.rest == step.e.rest
  {
    hide Decide, NormalizeReport, IsCanonical;
    WantedKeepsInv(h, r, step);
    PublishedKeepsInv(h, Wanted(h, r, step).value);
    NormalizeTouchesArtifacts(h.rules, Wanted(h, r, step).value);
    if step.Complete? {
      CompletionKeepsInv(h, r, step.captured, step.f);
      DecidedFacts(h, r, step.captured, step.f);
    }
  }

  // ---------------------------------------------------------------- what stays

  /** Approvals are only ever added, and a recorded thread only goes with the worktree it ran in. */
  predicate Continues(a: Option<Session>, b: Option<Session>) {
    a.Some? ==> b.Some? && a.value.approvals <= b.value.approvals && a.value.identity == b.value.identity
                && a.value.backend == b.value.backend && a.value.branchSlug == b.value.branchSlug
                && (a.value.lifecycle.Finalized? ==> b == a)
  }

  lemma StepContinues(h: Host, r: FailureReport, step: Step, t: FailureReport)
    requires Inv(h, r) && Next(h, r, step, t)
    ensures Continues(r.session, t.session)
    ensures r.session.Some? && r.session.value.thread.Some? && !step.Rehydrate? ==> t.session.value.thread == r.session.value.thread
  {
    hide Inv, Next;
    StepLeavesSession(h, r, step, t);
  }

  lemma InvAt(h: Host, states: seq<FailureReport>, steps: seq<Step>, n: nat)
    requires IsRun(h, states, steps) && n <= |steps|
    ensures Inv(h, states[n])
  {
    hide Next, Inv;
    assert forall k :: 0 <= k < n ==> steps[..n][k] == steps[k] && states[..n + 1][k + 1] == states[k + 1];
    RunKeepsOneCompletion(h, states[..n + 1], steps[..n], 0);
  }

  /** Over every run a session keeps its identity and every approval recorded in it, and once finalized it never changes. */
  lemma {:induction false} RunContinues(h: Host, states: seq<FailureReport>, steps: seq<Step>, i: nat, n: nat)
    requires IsRun(h, states, steps) && i <= n <= |steps|
    ensures Continues(states[i].session, states[n].session)
    decreases n
  {
    hide Next, Inv;
    if i < n {
      RunContinues(h, states, steps, i, n - 1);
      InvAt(h, states, steps, n - 1);
      StepContinues(h, states[n - 1], steps[n - 1], states[n]);
    }
  }

  /** A recorded approval is in the session ever after. */
  lemma RecordedApprovalStays(h: Host, states: seq<FailureReport>, steps: seq<Step>, i: nat, n: nat)
    requires IsRun(h, states, steps) && i < n <= |steps| && steps[i].RecordApproval?
    ensures states[n].session.Some? && steps[i].a in states[n].session.value.approvals
  {
    hide Inv;
    InvAt(h, states, steps, i);
    assert Next(h, states[i], steps[i], states[i + 1]);
    hide Next;
    StepLeavesSession(h, states[i], steps[i], states[i + 1]);
    RunContinues(h, states, steps, i + 1, n);
    var before, after := states[i + 1].session.value.approvals, states[n].session.value.approvals;
    assert after[..|before|] == before && before[|before| - 1] == steps[i].a;
  }

  /** A recorded thread stays until a rehydration gives it up. */
  lemma {:induction false} RecordedThreadStays(h: Host, states: seq<FailureReport>, steps: seq<Step>, i: nat, n: nat)
    requires IsRun(h, states, steps) && i < n <= |steps| && steps[i].RecordThread?
    requires forall k :: i < k < n ==> !steps[k].Rehydrate?
    ensures states[n].session.Some? && states[n].session.value.thread == Some(steps[i].thread)
    decreases n
  {
    hide Inv;
    InvAt(h, states, steps, n - 1);
    assert Next(h, states[n - 1], steps[n - 1], states[n]);
    hide Next;
    if n == i + 1 {
      StepLeavesSession(h, states[i], steps[i], states[n]);
    } else {
      RecordedThreadStays(h, states, steps, i, n - 1);
      StepContinues(h, states[n - 1], steps[n - 1], states[n]);
    }
  }

  // ---------------------------------------------------------------- exactly when a turn is published

  /** The stored session is the one the turn ran in, unchanged since it was observed. */
  predicate SameSession(r: FailureReport, captured: Captured, f: Finish) {
    && r.session.Some?
    && var s, seen := r.session.value, captured.session;
       && s.lifecycle.Active? && s.base == r.target && r.target == captured.target
       && s.identity == seen.identity && s.backend == seen.backend && s.branchSlug == seen.branchSlug
       && s.extensions == seen.extensions && f.thread.Some? && s.thread == f.thread && seen.thread == f.thread
  }

  /** The observed head may be written: it is the stored one, or nothing was diagnosed and the stored head is the target. */
  predicate HeadMayMove(r: FailureReport, captured: Captured) {
    r.session.Some? ==>
      || r.session.value.head == captured.session.head
      || (r.session.value.lastDiagnosed.None? && r.completions == [] && r.session.value.head == r.target)
  }

  /**
   * A finished turn is published if and only if the session is the one it ran in, no completion is
   * stored yet, the head may move, the outcome is well formed and mergeable, and the report has its
   * shared context. In every other case it is replayed or needs an operator.
   */
  lemma PublishedIff(h: Host, r: FailureReport, captured: Captured, f: Finish)
    requires Inv(h, r)
    ensures Decide(h, r, captured, f).Publishing? <==>
            && SameSession(r, captured, f) && HeadMayMove(r, captured) && r.completions == [] && r.hasContext
            && RecordFor(h, r, captured, f, captured.completedAt).Some?
            && Projected(h, r, DiagnosedSession(r, captured), RecordFor(h, r, captured, f, captured.completedAt).value).Some?
  {
    hide Projected, RecordFor, IsCanonical, ReportOk, Replay;
    if Decide(h, r, captured, f).Publishing? {
      OnlyFirstCompletionIsPublished(h, r, captured, f);
      DecidedFacts(h, r, captured, f);
    }
  }

  /** What is published for the turn: its thread, the observed head, the first moment of completion and the reason it gave. */
  lemma PublishedRecordIs(h: Host, r: FailureReport, captured: Captured, f: Finish)
    requires Decide(h, r, captured, f).Publishing?
    ensures var c := Decide(h, r, captured, f).candidate;
            && c.binding == Binding(r.id, r.target, captured.session.identity, f.thread.value, captured.session.head)
            && c.id == h.identity(c.binding) && c.completedAt == captured.completedAt && c.finishReason == f.finishReason
            && Some(c.outcome) == CanonicalOutcome(h, r.id, OutcomeOf(f))
  {
    DecidedFacts(h, r, captured, f);
    hide Decide, CanonicalOutcome, StateOk, Projected;
  }
}
