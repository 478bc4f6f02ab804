/** Why `reconcileCompletion` makes another attempt, and what it keeps from the first one. */
module ReconciliationAttempts {
  import opened Common
  import opened Workpad
  import opened DiagnosticReport
  import opened ArtifactReferences
  import opened CompletionRecords
  import opened Reconciliation
  import opened ReconciliationLoop

  /** The round read a workpad and its write failed in a way that may be tried again. */
  predicate Retried(round: Round) {
    round.read.Found? && round.write.Failed? && round.write.retryable
  }

  /** The moment of completion: the clock of the first attempt, however many follow. */
  function FirstMoment(captured: Option<Captured>, round: Round): int {
    if captured.Some? then captured.value.completedAt else round.now
  }

  lemma CandidateMoment(h: Host, r: FailureReport, captured: Captured, f: Finish)
    requires Decide(h, r, captured, f).Publishing?
    ensures Decide(h, r, captured, f).candidate.completedAt == captured.completedAt
  {
    hide StateOk, Projected, CanonicalOutcome, Replay;
  }

  /**
   * The loop goes on only after a failed write that may be tried again; it reports a new completion
   * only when its write was accepted, dated by the first attempt.
   */
  lemma {:induction false} AttemptsAreJustified(h: Host, r: FailureReport, f: Finish, head: Option<Revision>,
                                                captured: Option<Captured>, rounds: seq<Round>, past: nat)
    requires past < |rounds|
    ensures var answer := Reconcile(h, r, f, head, captured, rounds, past).0;
            && (!answer.Thrown? ==>
                  && past < answer.attempts <= |rounds|
                  && forall k :: past <= k < answer.attempts - 1 ==> Retried(rounds[k]))
            && (answer.Done? ==> rounds[answer.attempts - 1].read.Found? && f.thread.Some? && (captured.Some? || head.Some?))
            && (answer.Done? && !answer.idempotent ==>
                  && rounds[answer.attempts - 1].write.Accepted?
                  && answer.completion.completedAt == FirstMoment(captured, rounds[past]))
    decreases |rounds| - past
  {
    hide Decide, NormalizeReport, RevisedAll;
    var round := rounds[past];
    var current := RevisedAll(r, round.edits);
    if round.read.Found? && CanAttempt(current, f, head, captured) {
      var c := CapturedBy(current, head, captured, round.now).value;
      var decision := Decide(h, current, c, f);
      if decision.Publishing? && NormalizeReport(h.rules, decision.next).Some? {
        CandidateMoment(h, current, c, f);
        if round.write.Failed? && round.write.retryable && past + 1 < |rounds| {
          var after := if round.write.applied then NormalizeReport(h.rules, decision.next).value else current;
          AttemptsAreJustified(h, after, f, head, Some(c), rounds, past + 1);
        }
      }
    }
  }
}
