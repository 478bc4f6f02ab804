/** The bounded retry loop of `reconcileCompletion` over one stored report. */
module ReconciliationLoop {
  import opened Common
  import opened Workpad
  import opened DiagnosticReport
  import opened ArtifactReferences
  import opened CompletionRecords
  import opened Reconciliation
  import opened ReconciliationRuns

  /** What becomes of one publication: accepted, or failed in a way that may have been applied unseen. */
  datatype Write = Accepted | Failed(retryable: bool, applied: bool)

  datatype Publication = Published(report: FailureReport) | Unverified(retryable: bool) | Rejected

  /** The one stored report of an Issue, as the gateway reads and writes it. */
  class WorkpadStore {
    var report: FailureReport

    constructor (report: FailureReport)
      ensures this.report == report
    {
      this.report := report;
    }

    /** Other Root publications, each leaving the session and the completions alone. */
    method OthersPublish(edits: seq<Edit>)
      modifies this
      ensures report == RevisedAll(old(report), edits)
    {
      for i := 0 to |edits|
        invariant report == RevisedAll(old(report), edits[..i])
      {
        assert edits[..i + 1][..i] == edits[..i];
        report := Revised(report, edits[i]);
      }
      assert edits[..|edits|] == edits;
    }

    method Publish(h: Host, next: FailureReport, write: Write) returns (r: Publication)
      modifies this
      ensures NormalizeReport(h.rules, next).None? ==> r == Rejected && report == old(report)
      ensures NormalizeReport(h.rules, next).Some? ==>
                var n := NormalizeReport(h.rules, next).value;
                match write
                case Accepted => r == Published(n) && report == n
                case Failed(retryable, applied) => r == Unverified(retryable) && report == if applied then n else old(report)
    {
      var normalized := NormalizeFailureReport(h.rules, next);
      if normalized.None? {
        return Rejected;
      }
      if write.Accepted? || write.applied {
        report := normalized.value;
      }
      r := if write.Accepted? then Published(report) else Unverified(write.retryable);
    }
  }

  function RevisedAll(r: FailureReport, edits: seq<Edit>): FailureReport {
    if |edits| == 0 then r else Revised(RevisedAll(r, edits[..|edits| - 1]), edits[|edits| - 1])
  }

  lemma {:induction false} EditsKeepDiagnosis(h: Host, r: FailureReport, edits: seq<Edit>)
    requires Inv(h, r)
    ensures var e := RevisedAll(r, edits); Inv(h, e) && SameDiagnosis(r, e)
  {
    hide IsCanonical;
    if |edits| > 0 {
      var before := RevisedAll(r, edits[..|edits| - 1]);
      EditsKeepDiagnosis(h, r, edits[..|edits| - 1]);
      if |before.completions| == 1 {
        assert RecordBelongs(h, before, before.completions[0]);
      }
    }
  }

  predicate SameDiagnosis(a: FailureReport, b: FailureReport) {
    b.id == a.id && b.target == a.target && b.session == a.session && b.completions == a.completions && b.hasContext == a.hasContext
  }

  /** What becomes of the read of a round: a workpad, one that needs input, or another error. */
  datatype Read = Found | Unusable | Broken

  /** One round of the loop: what others publish before its read, the fates of its read and write, the clock. */
  datatype Round = Round(edits: seq<Edit>, read: Read, write: Write, now: int)

  datatype Reconciled =
    | Done(completion: Completion, idempotent: bool, attempts: nat)
    | NeedsOperator(attempts: nat)
    | Thrown

  /** What the loop has captured stays what the first attempt observed. */
  ghost predicate CapturedOk(captured: Option<Captured>, head: Option<Revision>, f: Finish) {
    captured.Some? ==> head == Some(captured.value.session.head)
  }

  /** The stored completion is the finished turn's: its thread, and the head observed after it. */
  predicate Describes(c: Completion, f: Finish, head: Option<Revision>) {
    f.thread == Some(c.binding.thread) && head == Some(c.binding.head)
  }

  /** Completions may appear once; existing ones stay. */
  ghost predicate Kept(before: FailureReport, after: FailureReport) {
    before.completions <= after.completions && after.id == before.id && after.target == before.target
  }

  /** What an attempt works with: the first observation, kept over all retries. */
  function CapturedBy(current: FailureReport, head: Option<Revision>, captured: Option<Captured>, now: int): Option<Captured>
    requires current.session.Some?
  {
    if captured.Some? then captured
    else if head.Some? then Some(Captured(current.session.value.(head := head.value), current.target, now))
    else None
  }

  predicate CanAttempt(current: FailureReport, f: Finish, head: Option<Revision>, captured: Option<Captured>) {
    && current.session.Some? && current.session.value.lifecycle.Active? && f.thread.Some?
    && (captured.Some? || head.Some?)
  }

  /** The rounds from number `past` on: the answer and the report they leave behind. */
  ghost function Reconcile(h: Host, r: FailureReport, f: Finish, head: Option<Revision>, captured: Option<Captured>,
                           rounds: seq<Round>, past: nat): (Reconciled, FailureReport)
    requires past < |rounds|
    decreases |rounds| - past
  {
    var round := rounds[past];
    var current := RevisedAll(r, round.edits);
    if round.read.Broken? then (Thrown, current)
    else if round.read.Unusable? || !CanAttempt(current, f, head, captured) then (NeedsOperator(past + 1), current)
    else
      var c := CapturedBy(current, head, captured, round.now).value;
      match Decide(h, current, c, f)
      case Refused => (NeedsOperator(past + 1), current)
      case Replayed(existing) => (Done(existing, true, past + 1), current)
      case Publishing(next, candidate) =>
        match NormalizeReport(h.rules, next)
        case None => (Thrown, current)
        case Some(stored) =>
          match round.write
          case Accepted => (Done(candidate, false, past + 1), stored)
          case Failed(retryable, applied) =>
            var after := if applied then stored else current;
            if retryable && past + 1 < |rounds| then Reconcile(h, after, f, head, Some(c), rounds, past + 1)
            else (NeedsOperator(past + 1), after)
  }

  /**
   * At most `retryLimit + 1` rounds. Whatever the writes do, a stored completion is never
   * replaced; a reported completion is the one stored, for the observed head and thread; and a
   * replay, even after a write whose outcome stayed unknown, returns its record and publishes nothing.
   */
  method ReconcileCompletion(h: Host, store: WorkpadStore, f: Finish, worktreeHead: Option<Revision>, retryLimit: nat,
                             rounds: seq<Round>) returns (r: Reconciled)
    requires |rounds| == retryLimit + 1 && Inv(h, store.report)
    modifies store
    ensures (r, store.report) == Reconcile(h, old(store.report), f, worktreeHead, None, rounds, 0)
    ensures Inv(h, store.report) && Kept(old(store.report), store.report)
    ensures r.Done? ==> 1 <= r.attempts <= retryLimit + 1
    ensures r.Done? ==> store.report.completions == [r.completion] && Describes(r.completion, f, worktreeHead)
    ensures r.Done? && !r.idempotent ==> old(store.report).completions == []
    ensures old(IsReplay(h, store.report, f, worktreeHead)) && rounds[0].read.Found? ==>
              && r == Done(old(store.report).completions[0], true, 1)
              && store.report == RevisedAll(old(store.report), rounds[0].edits)
  {
    hide Inv, Decide, StateOk, RecordFor, Projected, NormalizeReport, SameContent;
    ghost var before := store.report;
    ghost var replaying := IsReplay(h, before, f, worktreeHead) && rounds[0].read.Found?;
    var captured: Option<Captured> := None;
    var attempts := 1;
    while attempts <= retryLimit + 1
      invariant 1 <= attempts <= retryLimit + 1
      invariant Inv(h, store.report) && Kept(old(store.report), store.report)
      invariant CapturedOk(captured, worktreeHead, f)
      invariant Reconcile(h, old(store.report), f, worktreeHead, None, rounds, 0)
             == Reconcile(h, store.report, f, worktreeHead, captured, rounds, attempts - 1)
      invariant replaying ==> attempts == 1 && captured.None? && store.report == before
      decreases retryLimit + 2 - attempts
    {
      var round := rounds[attempts - 1];
      if replaying {
        ReplayIsDecided(h, before, round.edits, f, worktreeHead.value, round.now);
      }
      EditsKeepDiagnosis(h, store.report, round.edits);
      store.OthersPublish(round.edits);
      if round.read.Broken? {
        return Thrown;
      }
      if round.read.Unusable? {
        return NeedsOperator(attempts);
      }
      var current := store.report;
      if current.session.None? || !current.session.value.lifecycle.Active? || f.thread.None? {
        return NeedsOperator(attempts);
      }
      if captured.None? {
        if worktreeHead.None? {
          return NeedsOperator(attempts);
        }
        captured := Some(Captured(current.session.value.(head := worktreeHead.value), current.target, round.now));
      }
      var decision := DecideAttempt(h, current, captured.value, f);
      if decision.Refused? {
        return NeedsOperator(attempts);
      }
      if decision.Replayed? {
        ReplayedIsStored(h, current, captured.value, f);
        return Done(decision.existing, true, attempts);
      }
      PublishingFacts(h, current, captured.value, f);
      var published := store.Publish(h, decision.next, round.write);
      if published.Rejected? {
        return Thrown;
      }
      if published.Published? {
        var valid := ValidateHistory(h, published.report);
        PublishedHistory(h, published.report, decision.candidate);
        var persisted := FindCompletion(published.report.completions, decision.candidate.id);
        // The read-back always holds the candidate, since publishing leaves canonical records alone.
        if !valid || persisted != Some(decision.candidate) {
          assert false;
        }
        return Done(decision.candidate, false, attempts);
      }
      if !published.retryable || attempts == retryLimit + 1 {
        return NeedsOperator(attempts);
      }
      attempts := attempts + 1;
    }
    assert false;
  }

  lemma ReplayedIsStored(h: Host, r: FailureReport, captured: Captured, f: Finish)
    requires Inv(h, r) && Decide(h, r, captured, f).Replayed?
    ensures f.thread.Some? && r.completions == [Decide(h, r, captured, f).existing]
    ensures Describes(Decide(h, r, captured, f).existing, f, Some(captured.session.head))
  {
    hide CanonicalOutcome, IsCanonical, ReportOk, Projected, Regresses, StateOk;
    var c := Decide(h, r, captured, f).existing;
    assert c in r.completions;
    assert Replay(h, r, captured, f, c) == Some(c);
  }

  /** What the publication of a first completion stores. */
  lemma PublishingFacts(h: Host, r: FailureReport, captured: Captured, f: Finish)
    requires Inv(h, r) && Decide(h, r, captured, f).Publishing?
    ensures var a := Decide(h, r, captured, f);
            && r.completions == [] && a.next.completions == [a.candidate] && a.next.id == r.id && a.next.target == r.target
            && Describes(a.candidate, f, Some(captured.session.head))
            && (NormalizeReport(h.rules, a.next).Some? ==>
                  var n := NormalizeReport(h.rules, a.next).value;
                  Inv(h, n) && n.completions == [a.candidate] && n.id == r.id && n.target == r.target)
  {
    OnlyFirstCompletionIsPublished(h, r, captured, f);
    CompletionKeepsInv(h, r, captured, f);
    hide Inv, Decide, NormalizeReport;
    var next := Decide(h, r, captured, f).next;
    if NormalizeReport(h.rules, next).Some? {
      PublishedKeepsInv(h, next);
      NormalizeTouchesArtifacts(h.rules, next);
    }
  }

  lemma PublishedHistory(h: Host, r: FailureReport, c: Completion)
    requires Inv(h, r) && r.completions == [c]
    ensures HistoryOk(h, r) && FindCompletion(r.completions, c.id) == Some(c)
  {
    hide IsCanonical, ReportOk;
  }

  /** Finishing a turn again whose completion is stored: same thread, head and content, session still active. */
  ghost predicate IsReplay(h: Host, r: FailureReport, f: Finish, head: Option<Revision>) {
    && HostOk(h) && |r.completions| == 1 && r.session.Some? && r.session.value.lifecycle.Active?
    && r.session.value.base == r.target
    && Describes(r.completions[0], f, head) && SameContent(h, r, r.completions[0], f)
  }

  /** Whatever others published meanwhile and whatever the clock shows, the replay finds its record. */
  lemma ReplayIsDecided(h: Host, r: FailureReport, edits: seq<Edit>, f: Finish, head: Revision, now: int)
    requires Inv(h, r) && IsReplay(h, r, f, Some(head))
    ensures var current := RevisedAll(r, edits);
            && Inv(h, current) && SameDiagnosis(r, current)
            && Decide(h, current, Captured(current.session.value.(head := head), current.target, now), f)
               == Replayed(r.completions[0])
  {
    hide HostOk, Decide, IsCanonical, OutcomeClean, CanonicalOutcome;
    EditsKeepDiagnosis(h, r, edits);
    var current := RevisedAll(r, edits);
    var captured := Captured(current.session.value.(head := head), current.target, now);
    ReplayState(h, current, captured, f);
    ReplayReturnsRecord(h, current, captured, f);
  }

  lemma ReplayState(h: Host, r: FailureReport, captured: Captured, f: Finish)
    requires Inv(h, r) && |r.completions| == 1 && r.session.value.base == r.target
    requires captured.target == r.target && captured.session == r.session.value.(head := captured.session.head)
    requires f.thread == Some(r.completions[0].binding.thread)
    ensures StateOk(h, r, captured, f)
  {
    hide IsCanonical;
    assert RecordBelongs(h, r, r.completions[0]);
  }

  // ---------------------------------------------------------------- a write whose outcome stayed unknown

  lemma RecordCarriesFinish(h: Host, r: FailureReport, stored: FailureReport, captured: Captured, f: Finish, c: Completion)
    requires f.thread.Some? && RecordFor(h, r, captured, f, captured.completedAt) == Some(c) && stored.id == r.id
    ensures SameContent(h, stored, c, f)
  {
    EmptyOutcomeIsCanonical(h, r.id);
    hide CanonicalOutcome;
  }

  lemma StateAfterPublishing(h: Host, r: FailureReport, stored: FailureReport, captured: Captured, f: Finish)
    requires StateOk(h, r, captured, f) && HistoryOk(h, stored)
    requires stored.session == Some(DiagnosedSession(r, captured)) && stored.target == r.target
    ensures StateOk(h, stored, captured, f)
  {
    hide HistoryOk;
  }

  /** After a publication the finished turn carries what is stored. */
  lemma PublishedRepeatsFinish(h: Host, r: FailureReport, captured: Captured, f: Finish, stored: FailureReport)
    requires Inv(h, r) && Decide(h, r, captured, f).Publishing?
    requires NormalizeReport(h.rules, Decide(h, r, captured, f).next) == Some(stored)
    ensures stored.completions == [Decide(h, r, captured, f).candidate] && stored.session.Some?
    ensures stored.session.value.lifecycle.Active? && StateOk(h, stored, captured, f)
    ensures SameContent(h, stored, Decide(h, r, captured, f).candidate, f)
  {
    hide Decide, StateOk, RecordFor, SameContent, HistoryOk, Projected, NormalizeReport, Inv, Regresses;
    PublishingFacts(h, r, captured, f);
    CompletionKeepsInv(h, r, captured, f);
    DecidedFacts(h, r, captured, f);
    NormalizeTouchesArtifacts(h.rules, Decide(h, r, captured, f).next);
    PublishedHistory(h, stored, Decide(h, r, captured, f).candidate);
    StateAfterPublishing(h, r, stored, captured, f);
    RecordCarriesFinish(h, r, stored, captured, f, Decide(h, r, captured, f).candidate);
  }

  lemma SameDiagnosisSameState(h: Host, a: FailureReport, b: FailureReport, captured: Captured, f: Finish)
    requires SameDiagnosis(a, b) && StateOk(h, a, captured, f)
    ensures StateOk(h, b, captured, f)
  {
    forall i | 0 <= i < |b.completions|
      ensures RecordBelongs(h, b, b.completions[i])
    {
      assert RecordBelongs(h, a, a.completions[i]);
    }
  }

  /**
   * A completion that was stored although its write reported failure is found by the next round,
   * whatever others published in between: it is returned as done and nothing more is published.
   */
  lemma UnknownWriteIsFound(h: Host, r: FailureReport, f: Finish, head: Option<Revision>, captured: Option<Captured>,
                            rounds: seq<Round>, past: nat, stored: FailureReport)
    requires HostOk(h) && Inv(h, r) && past + 1 < |rounds| && rounds[past].write == Failed(true, true)
    requires rounds[past].read.Found? && rounds[past + 1].read.Found?
    requires var current := RevisedAll(r, rounds[past].edits);
             && CanAttempt(current, f, head, captured)
             && var a := Decide(h, current, CapturedBy(current, head, captured, rounds[past].now).value, f);
                a.Publishing? && NormalizeReport(h.rules, a.next) == Some(stored)
    ensures |stored.completions| == 1
    ensures Reconcile(h, r, f, head, captured, rounds, past)
         == (Done(stored.completions[0], true, past + 2), RevisedAll(stored, rounds[past + 1].edits))
  {
    hide Inv, Decide, StateOk, NormalizeReport, SameContent, HostOk, RevisedAll;
    EditsKeepDiagnosis(h, r, rounds[past].edits);
    var current := RevisedAll(r, rounds[past].edits);
    var c := CapturedBy(current, head, captured, rounds[past].now).value;
    PublishingFacts(h, current, c, f);
    PublishedRepeatsFinish(h, current, c, f, stored);
    EditsKeepDiagnosis(h, stored, rounds[past + 1].edits);
    StoredIsReplayed(h, stored, RevisedAll(stored, rounds[past + 1].edits), c, f);
  }

  lemma StoredIsReplayed(h: Host, stored: FailureReport, later: FailureReport, captured: Captured, f: Finish)
    requires HostOk(h) && Inv(h, later) && SameDiagnosis(stored, later) && |stored.completions| == 1
    requires stored.session.Some? && stored.session.value.lifecycle.Active? && StateOk(h, stored, captured, f)
    requires Describes(stored.completions[0], f, Some(captured.session.head)) && SameContent(h, stored, stored.completions[0], f)
    ensures later.session.Some? && later.session.value.lifecycle.Active? && f.thread.Some?
    ensures Decide(h, later, captured, f) == Replayed(stored.completions[0])
  {
    hide Decide, StateOk, HostOk, CanonicalOutcome, OutcomeClean, IsCanonical;
    SameDiagnosisSameState(h, stored, later, captured, f);
    ReplayReturnsRecord(h, later, captured, f);
  }

  /**
   * The same when the first call gives up after that write: a second call for the same turn on the
   * same head finds the record in its first round and publishes nothing.
   */
  lemma SecondCallFindsIt(h: Host, r: FailureReport, f: Finish, head: Option<Revision>, captured: Option<Captured>,
                          rounds: seq<Round>, past: nat, stored: FailureReport, again: seq<Round>)
    requires HostOk(h) && Inv(h, r) && CapturedOk(captured, head, f) && past < |rounds| && |again| > 0
    requires rounds[past].write.Failed? && rounds[past].write.applied && rounds[past].read.Found? && again[0].read.Found?
    requires !rounds[past].write.retryable || past + 1 == |rounds|
    requires var current := RevisedAll(r, rounds[past].edits);
             && CanAttempt(current, f, head, captured)
             && var a := Decide(h, current, CapturedBy(current, head, captured, rounds[past].now).value, f);
                a.Publishing? && NormalizeReport(h.rules, a.next) == Some(stored)
    ensures Reconcile(h, r, f, head, captured, rounds, past) == (NeedsOperator(past + 1), stored)
    ensures |stored.completions| == 1
    ensures Reconcile(h, stored, f, head, None, again, 0)
         == (Done(stored.completions[0], true, 1), RevisedAll(stored, again[0].edits))
  {
    hide Inv, Decide, StateOk, NormalizeReport, SameContent, HostOk, RevisedAll;
    EditsKeepDiagnosis(h, r, rounds[past].edits);
    var current := RevisedAll(r, rounds[past].edits);
    var c := CapturedBy(current, head, captured, rounds[past].now).value;
    PublishingFacts(h, current, c, f);
    PublishedRepeatsFinish(h, current, c, f, stored);
    BaseIsTarget(h, stored, c, f);
    ReplayIsDecided(h, stored, again[0].edits, f, head.value, again[0].now);
  }

  lemma BaseIsTarget(h: Host, r: FailureReport, captured: Captured, f: Finish)
    requires StateOk(h, r, captured, f)
    ensures r.session.Some? && r.session.value.base == r.target
  {
    hide HistoryOk;
  }
}
