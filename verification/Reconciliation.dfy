/**
 * Reconciling a finished diagnosis into the durable report: read, merge, write, read back, with
 * bounded retries over publications whose outcome may stay unknown.
 */
module Reconciliation {
  import opened Common
  import opened Workpad
  import opened DiagnosticReport
  import opened ArtifactReferences
  import opened CompletionRecords

  // ---------------------------------------------------------------- records

  /** What the backend reports when a turn finishes; a missing thread id is `None`. */
  datatype Finish = Finish(thread: Option<ThreadId>, outcome: Option<Outcome>, finishReason: Option<string>)

  const EmptyOutcome := Outcome(None, [], [], [], [], None)

  function OutcomeOf(f: Finish): Outcome {
    if f.outcome.Some? then f.outcome.value else EmptyOutcome
  }

  /** The session as observed once, with the worktree's head, and the moment of completion. */
  datatype Captured = Captured(session: Session, target: Revision, completedAt: int)

  function BindingOf(r: FailureReport, captured: Captured, thread: ThreadId): Binding {
    Binding(r.id, r.target, captured.session.identity, thread, captured.session.head)
  }

  /** `createDiagnosticCompletionRecord`; `None` where it throws. */
  ghost function RecordFor(h: Host, r: FailureReport, captured: Captured, f: Finish, completedAt: int): Option<Completion>
    requires f.thread.Some?
  {
    var binding := BindingOf(r, captured, f.thread.value);
    match CanonicalOutcome(h, r.id, OutcomeOf(f))
    case None => None
    case Some(o) => Some(Completion(h.identity(binding), binding, o, completedAt, f.finishReason))
  }

  method CreateRecord(h: Host, r: FailureReport, captured: Captured, f: Finish, completedAt: int) returns (c: Option<Completion>)
    requires f.thread.Some?
    ensures c == RecordFor(h, r, captured, f, completedAt)
  {
    var outcome := NormalizeDiagnosticOutcome(h, r.id, OutcomeOf(f));
    var binding := BindingOf(r, captured, f.thread.value);
    c := if outcome.None? then None
         else Some(Completion(h.identity(binding), binding, outcome.value, completedAt, f.finishReason));
  }

  // ---------------------------------------------------------------- history

  predicate RecordBelongs(h: Host, r: FailureReport, c: Completion) {
    && c.id == h.identity(c.binding)
    && c.binding.reportId == r.id && c.binding.target == r.target
    && r.session.Some? && c.binding.session == r.session.value.identity && Some(c.binding.thread) == r.session.value.thread
  }

  ghost predicate HistoryOk(h: Host, r: FailureReport) {
    DistinctCompletions(r.completions) && forall i :: 0 <= i < |r.completions| ==> RecordBelongs(h, r, r.completions[i])
  }

  method ValidateHistory(h: Host, r: FailureReport) returns (ok: bool)
    ensures ok <==> HistoryOk(h, r)
  {
    hide RecordBelongs;
    var seen: set<Identifier> := {};
    for i := 0 to |r.completions|
      invariant forall id :: id in seen <==> exists k :: 0 <= k < i && r.completions[k].id == id
      invariant forall j, k :: 0 <= j < k < i ==> r.completions[j].id != r.completions[k].id
      invariant forall k :: 0 <= k < i ==> RecordBelongs(h, r, r.completions[k])
    {
      if r.completions[i].id in seen || !RecordBelongs(h, r, r.completions[i]) {
        return false;
      }
      seen := seen + {r.completions[i].id};
    }
    ok := true;
  }

  function FindCompletion(cs: seq<Completion>, id: Identifier): (r: Option<Completion>)
    ensures r.Some? ==> r.value in cs && r.value.id == id
    ensures r.None? ==> forall c :: c in cs ==> c.id != id
  {
    if |cs| == 0 then None else if cs[0].id == id then Some(cs[0]) else FindCompletion(cs[1..], id)
  }

  // ---------------------------------------------------------------- projection

  predicate OwnsConclusion(cs: seq<Completion>) {
    exists i :: 0 <= i < |cs| && cs[i].outcome.conclusion.Some?
  }

  predicate OwnsStatus(cs: seq<Completion>) {
    exists i :: 0 <= i < |cs| && cs[i].outcome.status.Some?
  }

  /** `projectDiagnosticCompletion`; `None` is its needs_input. */
  ghost function Projected(h: Host, r: FailureReport, session: Session, c: Completion): Option<FailureReport> {
    var o := c.outcome;
    var evidence := Merge(EvidenceId, r.evidence, o.evidence + o.operationEvidence);
    var hypotheses, experiments := Merge(ItemId, r.hypotheses, o.hypotheses), Merge(ItemId, r.experiments, o.experiments);
    if !HistoryOk(h, r) || FindCompletion(r.completions, c.id).Some? || evidence.None? || hypotheses.None? || experiments.None?
    then None
    else if o.conclusion.Some? && o.conclusion.value != r.conclusion && OwnsConclusion(r.completions) then None
    else if o.status.Some? && o.status.value != r.status && OwnsStatus(r.completions) then None
    else
      var next := r.(status := if o.status.Some? then o.status.value else r.status,
                     conclusion := if o.conclusion.Some? then o.conclusion.value else r.conclusion,
                     evidence := evidence.value, hypotheses := hypotheses.value, experiments := experiments.value,
                     session := Some(session), completions := r.completions + [c]);
      if ReportOk(next) then Some(next) else None
  }

  /** `after` is `before` followed by additions, all of them and nothing else. */
  ghost predicate Extends<T(!new)>(before: seq<T>, additions: seq<T>, after: seq<T>) {
    before <= after && (forall x :: x in additions ==> x in after) && forall x :: x in after ==> x in before || x in additions
  }

  /** The report after a completion: each list extended by the outcome's entries of its kind, and what the outcome decides. */
  ghost predicate ShowsOutcome(before: FailureReport, o: Outcome, after: FailureReport) {
    && Extends(before.evidence, o.evidence + o.operationEvidence, after.evidence)
    && Extends(before.hypotheses, o.hypotheses, after.hypotheses)
    && Extends(before.experiments, o.experiments, after.experiments)
    && (o.status.Some? ==> after.status == o.status.value) && (o.status.None? ==> after.status == before.status)
    && (o.conclusion.Some? ==> after.conclusion == o.conclusion.value) && (o.conclusion.None? ==> after.conclusion == before.conclusion)
  }

  /** Nothing but the diagnosis differs. */
  predicate SameOtherwise(before: FailureReport, after: FailureReport) {
    && after.id == before.id && after.target == before.target && after.inputs == before.inputs
    && after.hasContext == before.hasContext && after.rest == before.rest
  }

  /** What a projection yields shows the completion and keeps the rest of the report. */
  lemma ProjectionShowsOutcome(h: Host, r: FailureReport, session: Session, c: Completion)
    requires Projected(h, r, session, c).Some?
    ensures var next := Projected(h, r, session, c).value;
            && ShowsOutcome(r, c.outcome, next) && SameOtherwise(r, next)
            && next.session == Some(session) && next.completions == r.completions + [c]
  {
    hide Merge, HistoryOk, ReportOk;
    var o := c.outcome;
    MergeIsConservative(EvidenceId, r.evidence, o.evidence + o.operationEvidence);
    MergeIsConservative(ItemId, r.hypotheses, o.hypotheses);
    MergeIsConservative(ItemId, r.experiments, o.experiments);
  }

  /** The entries of a report carry distinct ids. */
  ghost predicate EntriesDistinct(r: FailureReport) {
    DistinctBy(EvidenceId, r.evidence) && DistinctBy(ItemId, r.hypotheses) && DistinctBy(ItemId, r.experiments)
  }

  /** A new completion of a sound history is refused exactly for conflicting content, for a conclusion or status it may not change, or by the schema. */
  lemma ProjectionRefusedIff(h: Host, r: FailureReport, session: Session, c: Completion)
    requires EntriesDistinct(r) && HistoryOk(h, r) && FindCompletion(r.completions, c.id).None?
    ensures var o := c.outcome;
            Projected(h, r, session, c).None? <==>
              || Conflicting(EvidenceId, r.evidence, o.evidence + o.operationEvidence)
              || Conflicting(ItemId, r.hypotheses, o.hypotheses) || Conflicting(ItemId, r.experiments, o.experiments)
              || (o.conclusion.Some? && o.conclusion.value != r.conclusion
                  && exists x :: x in r.completions && x.outcome.conclusion.Some?)
              || (o.status.Some? && o.status.value != r.status && exists x :: x in r.completions && x.outcome.status.Some?)
              || !ReportOk(r.(session := Some(session), completions := r.completions + [c]))
  {
    hide Merge, HistoryOk, Conflicting, DistinctBy;
    var o := c.outcome;
    MergeFailsOnConflict(EvidenceId, r.evidence, o.evidence + o.operationEvidence);
    MergeFailsOnConflict(ItemId, r.hypotheses, o.hypotheses);
    MergeFailsOnConflict(ItemId, r.experiments, o.experiments);
    assert OwnsConclusion(r.completions) <==> exists x :: x in r.completions && x.outcome.conclusion.Some?;
    assert OwnsStatus(r.completions) <==> exists x :: x in r.completions && x.outcome.status.Some?;
  }

  /** The schema check of the report's session and completions. */
  method CheckReport(r: FailureReport) returns (ok: bool)
    ensures ok <==> ReportOk(r)
  {
    if r.session.Some? {
      var s := r.session.value;
      for i := 0 to |s.approvals|
        invariant forall k :: 0 <= k < i ==> s.approvals[k].backend == s.backend && s.approvals[k].session == s.identity
        invariant forall j, k :: 0 <= j < k < i ==> s.approvals[j].id != s.approvals[k].id
      {
        if s.approvals[i].backend != s.backend || s.approvals[i].session != s.identity
           || exists k :: 0 <= k < i && s.approvals[k].id == s.approvals[i].id
        {
          return false;
        }
      }
    }
    if |r.completions| == 0 {
      return true;
    }
    if r.session.None? {
      return false;
    }
    for i := 0 to |r.completions|
      invariant forall k :: 0 <= k < i ==>
                  && r.completions[k].binding.reportId == r.id && r.completions[k].binding.target == r.target
                  && r.completions[k].binding.session == r.session.value.identity
                  && Some(r.completions[k].binding.thread) == r.session.value.thread
      invariant forall j, k :: 0 <= j < k < i ==> r.completions[j].id != r.completions[k].id
    {
      var b := r.completions[i].binding;
      if b.reportId != r.id || b.target != r.target || b.session != r.session.value.identity
         || Some(b.thread) != r.session.value.thread || exists k :: 0 <= k < i && r.completions[k].id == r.completions[i].id
      {
        return false;
      }
    }
    ok := true;
  }

  method ProjectCompletion(h: Host, r: FailureReport, session: Session, c: Completion) returns (n: Option<FailureReport>)
    ensures n == Projected(h, r, session, c)
    ensures n.Some? ==> ShowsOutcome(r, c.outcome, n.value) && SameOtherwise(r, n.value)
  {
    ghost var spec := Projected(h, r, session, c);
    if spec.Some? {
      ProjectionShowsOutcome(h, r, session, c);
    }
    hide HistoryOk, ReportOk, Merge, ShowsOutcome;
    var valid := ValidateHistory(h, r);
    if !valid || FindCompletion(r.completions, c.id).Some? {
      return None;
    }
    var o := c.outcome;
    var evidence := MergeOwnedEntries(EvidenceId, r.evidence, o.evidence + o.operationEvidence);
    var hypotheses := MergeOwnedEntries(ItemId, r.hypotheses, o.hypotheses);
    var experiments := MergeOwnedEntries(ItemId, r.experiments, o.experiments);
    if evidence.None? || hypotheses.None? || experiments.None? {
      return None;
    }
    if o.conclusion.Some? && o.conclusion.value != r.conclusion && OwnsConclusion(r.completions) {
      return None;
    }
    if o.status.Some? && o.status.value != r.status && OwnsStatus(r.completions) {
      return None;
    }
    var next := r.(status := if o.status.Some? then o.status.value else r.status,
                   conclusion := if o.conclusion.Some? then o.conclusion.value else r.conclusion,
                   evidence := evidence.value, hypotheses := hypotheses.value, experiments := experiments.value,
                   session := Some(session), completions := r.completions + [c]);
    var ok := CheckReport(next);
    n := if ok then Some(next) else None;
  }

  // ---------------------------------------------------------------- one attempt

  /** `validateCompletionReconciliationState`. */
  ghost predicate StateOk(h: Host, r: FailureReport, captured: Captured, f: Finish) {
    && HistoryOk(h, r) && r.session.Some?
    && var s := r.session.value;
       && r.target == captured.target && s.identity == captured.session.identity && s.base == r.target
       && s.backend == captured.session.backend && s.branchSlug == captured.session.branchSlug
       && s.extensions == captured.session.extensions
       && s.thread == f.thread && captured.session.thread == f.thread
  }

  /** Writing the observed head would overwrite a head that a diagnosis already recorded. */
  predicate Regresses(r: FailureReport, captured: Captured)
    requires r.session.Some?
  {
    var s := r.session.value;
    s.head != captured.session.head && (s.lastDiagnosed.Some? || s.head != r.target || |r.completions| > 0)
  }

  function DiagnosedSession(r: FailureReport, captured: Captured): Session
    requires r.session.Some?
  {
    r.session.value.(head := captured.session.head, lastDiagnosed := Some(captured.completedAt))
  }

  datatype Attempt =
    | Refused
    | Replayed(existing: Completion)
    | Publishing(next: FailureReport, candidate: Completion)

  ghost function Replay(h: Host, r: FailureReport, captured: Captured, f: Finish, existing: Completion): Option<Completion>
    requires f.thread.Some?
  {
    RecordFor(h, r, captured,
              f.(outcome := Some(if f.outcome.Some? then f.outcome.value else existing.outcome),
                 finishReason := if f.finishReason.Some? then f.finishReason else existing.finishReason),
              existing.completedAt)
  }

  /** What one pass of the loop decides after its read. */
  ghost function Decide(h: Host, r: FailureReport, captured: Captured, f: Finish): Attempt {
    if r.session.None? || !r.session.value.lifecycle.Active? || f.thread.None? || !StateOk(h, r, captured, f) then Refused
    else match RecordFor(h, r, captured, f, captured.completedAt)
      case None => Refused
      case Some(candidate) =>
        match FindCompletion(r.completions, candidate.id)
        case Some(existing) => if Replay(h, r, captured, f, existing) == Some(existing) then Replayed(existing) else Refused
        case None =>
          if Regresses(r, captured) then Refused
          else match Projected(h, r, DiagnosedSession(r, captured), candidate)
            case None => Refused
            case Some(next) => if r.hasContext then Publishing(next, candidate) else Refused
  }

  method CheckState(h: Host, r: FailureReport, captured: Captured, f: Finish) returns (ok: bool)
    ensures ok <==> StateOk(h, r, captured, f)
  {
    hide HistoryOk;
    var history := ValidateHistory(h, r);
    if !history || r.session.None? {
      return false;
    }
    var s := r.session.value;
    ok := r.target == captured.target && s.identity == captured.session.identity && s.base == r.target
          && s.backend == captured.session.backend && s.branchSlug == captured.session.branchSlug
          && s.extensions == captured.session.extensions
          && s.thread == f.thread && captured.session.thread == f.thread;
  }

  method DecideAttempt(h: Host, r: FailureReport, captured: Captured, f: Finish) returns (a: Attempt)
    requires r.session.Some? && r.session.value.lifecycle.Active? && f.thread.Some?
    ensures a == Decide(h, r, captured, f)
  {
    hide StateOk, RecordFor, Projected, FindCompletion;
    var ok := CheckState(h, r, captured, f);
    if !ok {
      return Refused;
    }
    var candidate := CreateRecord(h, r, captured, f, captured.completedAt);
    if candidate.None? {
      return Refused;
    }
    var existing := FindCompletion(r.completions, candidate.value.id);
    if existing.Some? {
      var replay := CreateRecord(h, r, captured,
                                 f.(outcome := Some(if f.outcome.Some? then f.outcome.value else existing.value.outcome),
                                    finishReason := if f.finishReason.Some? then f.finishReason else existing.value.finishReason),
                                 existing.value.completedAt);
      return if replay == existing then Replayed(existing.value) else Refused;
    }
    if Regresses(r, captured) {
      return Refused;
    }
    var projected := ProjectCompletion(h, r, DiagnosedSession(r, captured), candidate.value);
    a := if projected.None? || !r.hasContext then Refused else Publishing(projected.value, candidate.value);
  }
}
