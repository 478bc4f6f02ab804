/**
 * Which completed results a compaction keeps, and when a result survives the compaction that
 * runs as it is recorded.
 */
module Retention {
  import opened Common
  import opened RetiredFilter
  import opened RootLedger
  import opened LedgerInvariant

  /** Times as the mutations write them. */
  ghost predicate StampsOk(l: Ledger) {
    forall id :: id in l.operations ==>
      var op := l.operations[id];
      (op.Terminal? ==> op.base.updatedAt == op.completedAt) && (op.Cleaned? ==> op.cleanedAt == op.completedAt)
  }

  /** Some full record was completed no earlier than anything else. */
  ghost predicate NewestIsTerminal(l: Ledger) {
    CompletedIds(l) != {} ==>
      exists newest :: newest in TerminalIds(l) &&
        forall id :: id in CompletedIds(l) ==> Stamp(l, id) <= Stamp(l, newest)
  }

  ghost predicate RetentionOk(l: Ledger) {
    StampsOk(l) && NewestIsTerminal(l)
  }

  // ---------------------------------------------------------------- what a compaction keeps

  lemma AppliedSets(pre: Ledger, post: Ledger, clock: int, aged: set<RequestId>, dropped: set<RequestId>)
    requires aged <= TerminalIds(pre) && dropped <= CleanedIds(pre) + aged && Applied(pre, post, clock, aged, dropped)
    ensures TerminalIds(post) == TerminalIds(pre) - aged
    ensures CleanedIds(post) == CleanedIds(pre) + aged - dropped
    ensures CompletedIds(post) == CompletedIds(pre) - dropped
    ensures pre.operations.Keys - post.operations.Keys == dropped
    ensures forall id :: id in post.operations ==> Stamp(post, id) == Stamp(pre, id)
  {
  }

  /** The limits are met, and what was given up is never newer than what was kept in its place. */
  lemma CompactionKeepsNewest(pre: Ledger, post: Ledger, terminalLimit: nat, cleanedLimit: nat, clock: int)
    requires RecordsCompacted(pre, post, terminalLimit, cleanedLimit, clock)
    ensures |TerminalIds(post)| <= terminalLimit && |CleanedIds(post)| <= cleanedLimit
    ensures forall kept, aged :: kept in TerminalIds(post) && aged in TerminalIds(pre) && aged !in TerminalIds(post) ==>
              Stamp(pre, kept) >= Stamp(pre, aged)
    ensures forall kept, lost :: kept in CleanedIds(post) && lost in pre.operations && lost !in post.operations ==>
              Stamp(pre, kept) >= Stamp(pre, lost)
  {
    var aged, dropped :|
      Chosen(pre, terminalLimit, cleanedLimit, aged, dropped) && Applied(pre, post, clock, aged, dropped);
    AppliedSets(pre, post, clock, aged, dropped);
  }

  /** The results that remain are the ones that were stored. */
  lemma CompactionKeepsResults(pre: Ledger, post: Ledger, terminalLimit: nat, cleanedLimit: nat, clock: int)
    requires RecordsCompacted(pre, post, terminalLimit, cleanedLimit, clock)
    ensures forall id :: id in CompletedIds(post) ==>
              id in CompletedIds(pre) && post.operations[id].result == pre.operations[id].result
    ensures forall id :: id in pre.operations && id !in CompletedIds(pre) ==>
              id in post.operations && post.operations[id] == pre.operations[id]
  {
    CompactionAdvances(pre, post, terminalLimit, cleanedLimit, clock);
  }

  lemma CompactionKeepsRetentionOk(pre: Ledger, post: Ledger, terminalLimit: nat, cleanedLimit: nat, clock: int)
    requires RetentionOk(pre) && terminalLimit >= 1 && RecordsCompacted(pre, post, terminalLimit, cleanedLimit, clock)
    ensures RetentionOk(post)
  {
    var aged, dropped :|
      Chosen(pre, terminalLimit, cleanedLimit, aged, dropped) && Applied(pre, post, clock, aged, dropped);
    AppliedSets(pre, post, clock, aged, dropped);
    StampsSurvive(pre, post, clock, aged, dropped);
    if |CompletedIds(post)| > 0 {
      var some :| some in CompletedIds(post);
      var newest :| newest in TerminalIds(pre) &&
        forall id :: id in CompletedIds(pre) ==> Stamp(pre, id) <= Stamp(pre, newest);
      var kept := if newest in aged then KeptInstead(pre, aged, terminalLimit) else newest;
      assert Stamp(pre, kept) >= Stamp(pre, newest);
      assert kept in TerminalIds(post);
    }
  }

  lemma StampsSurvive(pre: Ledger, post: Ledger, clock: int, aged: set<RequestId>, dropped: set<RequestId>)
    requires StampsOk(pre) && aged <= TerminalIds(pre) && Applied(pre, post, clock, aged, dropped)
    ensures StampsOk(post)
  {
  }

  ghost function KeptInstead(pre: Ledger, aged: set<RequestId>, terminalLimit: nat): (kept: RequestId)
    requires terminalLimit >= 1 && aged != {} && KeepsNewest(pre, TerminalIds(pre), aged, terminalLimit)
    ensures kept in TerminalIds(pre) - aged
  {
    SubsetCardinality(aged, TerminalIds(pre));
    assert |TerminalIds(pre) - aged| > 0;
    var kept :| kept in TerminalIds(pre) - aged;
    kept
  }

  // ---------------------------------------------------------------- completion times

  /** Even when the clock runs backwards, a new completion is later than every stored one. */
  lemma CompletionTimesIncrease(l: Ledger, clock: int)
    requires RetentionOk(l)
    ensures forall id :: id in CompletedIds(l) ==> Stamp(l, id) < NextTimestamp(l, clock)
  {
  }

  lemma RecordTerminalKeepsRetentionOk(l: Ledger, request: RootRequest, result: RootResult, cursor: SessionState, clock: int)
    requires RetentionOk(l) && RecordTerminal(l, request, result, cursor, NextTimestamp(l, clock)).Some?
    ensures RetentionOk(RecordTerminal(l, request, result, cursor, NextTimestamp(l, clock)).value)
  {
    CompletionTimesIncrease(l, clock);
    var post := RecordTerminal(l, request, result, cursor, NextTimestamp(l, clock)).value;
    assert request.requestId in TerminalIds(post);
    assert CompletedIds(post) == CompletedIds(l) + {request.requestId};
  }

  /** `id` is later than everything else that was completed. */
  ghost predicate IsNewest(l: Ledger, id: RequestId) {
    && id in TerminalIds(l)
    && forall other :: other in CompletedIds(l) && other != id ==> Stamp(l, other) < Stamp(l, id)
  }

  lemma RecordedIsNewest(l: Ledger, request: RootRequest, result: RootResult, cursor: SessionState, now: int)
    requires forall id :: id in CompletedIds(l) ==> Stamp(l, id) < now
    requires RecordTerminal(l, request, result, cursor, now).Some?
    ensures IsNewest(RecordTerminal(l, request, result, cursor, now).value, request.requestId)
  {
    var post := RecordTerminal(l, request, result, cursor, now).value;
    forall other | other in CompletedIds(post) && other != request.requestId
      ensures Stamp(post, other) < now
    {
      assert other in CompletedIds(l);
    }
  }

  lemma NewestIsKept(l: Ledger, all: set<RequestId>, gone: set<RequestId>, limit: nat, id: RequestId)
    requires IsNewest(l, id) && id in all && all <= CompletedIds(l) && limit >= 1 && KeepsNewest(l, all, gone, limit)
    ensures id !in gone
  {
    SubsetCardinality({id}, all);
    assert |all - gone| >= 1;
    var kept :| kept in all - gone;
    assert Stamp(l, kept) <= Stamp(l, id);
  }

  /** The newest result outlives a compaction that keeps any record of its kind. */
  lemma NewestSurvives(mid: Ledger, post: Ledger, id: RequestId, terminalLimit: nat, cleanedLimit: nat, clock: int)
    requires IsNewest(mid, id) && cleanedLimit >= 1
    requires RecordsCompacted(mid, post, terminalLimit, cleanedLimit, clock)
    ensures id in post.operations && IsCompleted(post.operations[id])
    ensures post.operations[id].result == mid.operations[id].result
    ensures terminalLimit >= 1 ==> post.operations[id] == mid.operations[id]
  {
    var aged, dropped :|
      Chosen(mid, terminalLimit, cleanedLimit, aged, dropped) && Applied(mid, post, clock, aged, dropped);
    NewestIsChosen(mid, id, terminalLimit, cleanedLimit, aged, dropped);
  }

  lemma NewestIsChosen(mid: Ledger, id: RequestId, terminalLimit: nat, cleanedLimit: nat,
                       aged: set<RequestId>, dropped: set<RequestId>)
    requires IsNewest(mid, id) && cleanedLimit >= 1 && Chosen(mid, terminalLimit, cleanedLimit, aged, dropped)
    ensures id !in dropped && (terminalLimit >= 1 ==> id !in aged)
  {
    if id in aged {
      NewestIsKept(mid, CleanedIds(mid) + aged, dropped, cleanedLimit, id);
    }
    if terminalLimit >= 1 {
      NewestIsKept(mid, TerminalIds(mid), aged, terminalLimit, id);
    }
  }

  /** With at least one full record retained, a recorded result outlives its own compaction. */
  lemma RecordedResultSurvives(l: Ledger, post: Ledger, request: RootRequest, result: RootResult, cursor: SessionState,
                               clock: int, terminalLimit: nat, cleanedLimit: nat, clock': int)
    requires RetentionOk(l) && terminalLimit >= 1 && cleanedLimit >= 1
    requires RecordTerminal(l, request, result, cursor, NextTimestamp(l, clock)).Some?
    requires RecordsCompacted(RecordTerminal(l, request, result, cursor, NextTimestamp(l, clock)).value, post,
                              terminalLimit, cleanedLimit, clock')
    ensures request.requestId in post.operations && post.operations[request.requestId].Terminal?
    ensures post.operations[request.requestId].result == result
  {
    CompletionTimesIncrease(l, clock);
    RecordedIsNewest(l, request, result, cursor, NextTimestamp(l, clock));
    var mid := RecordTerminal(l, request, result, cursor, NextTimestamp(l, clock)).value;
    NewestSurvives(mid, post, request.requestId, terminalLimit, cleanedLimit, clock');
  }

  // ---------------------------------------------------------------- retention of no full record

  ghost function CompletedSince(l: Ledger, id: RequestId, time: int): set<RequestId> {
    set other | other in CompletedIds(l) && other != id && Stamp(l, other) >= time
  }

  ghost function CompletedAfter(l: Ledger, id: RequestId, time: int): set<RequestId> {
    set other | other in CompletedIds(l) && other != id && Stamp(l, other) > time
  }

  /**
   * With retention 0 a recorded result survives when fewer than `cleanedLimit` stored results
   * were completed at its time or later, and is lost when that many were completed later. If
   * nothing else was completed at its time this says exactly when it survives.
   */
  lemma SurvivalWithoutFullRecords(mid: Ledger, post: Ledger, id: RequestId, cleanedLimit: nat, clock: int)
    requires id in TerminalIds(mid) && RecordsCompacted(mid, post, 0, cleanedLimit, clock)
    ensures |CompletedSince(mid, id, Stamp(mid, id))| < cleanedLimit ==> id in post.operations
    ensures |CompletedAfter(mid, id, Stamp(mid, id))| >= cleanedLimit ==> id !in post.operations
    ensures (forall other :: other in CompletedIds(mid) && other != id ==> Stamp(mid, other) != Stamp(mid, id)) ==>
              (id in post.operations <==> |CompletedAfter(mid, id, Stamp(mid, id))| < cleanedLimit)
  {
    var aged, dropped :| Chosen(mid, 0, cleanedLimit, aged, dropped) && Applied(mid, post, clock, aged, dropped);
    hide KeepsNewest, CompletedSince, CompletedAfter;
    NothingKept(mid, TerminalIds(mid), aged);
    assert CleanedIds(mid) + aged == CompletedIds(mid);
    AppliedSets(mid, post, clock, aged, dropped);
    SurvivalByCount(mid, dropped, id, cleanedLimit);
    if forall other :: other in CompletedIds(mid) && other != id ==> Stamp(mid, other) != Stamp(mid, id) {
      SinceIsAfter(mid, id);
    }
  }

  lemma SinceIsAfter(l: Ledger, id: RequestId)
    requires forall other :: other in CompletedIds(l) && other != id ==> Stamp(l, other) != Stamp(l, id)
    ensures CompletedSince(l, id, Stamp(l, id)) == CompletedAfter(l, id, Stamp(l, id))
  {
    hide Stamp, CompletedIds;
  }

  lemma NothingKept(l: Ledger, all: set<RequestId>, gone: set<RequestId>)
    requires KeepsNewest(l, all, gone, 0)
    ensures gone == all
  {
    assert |all - gone| == 0;
    assert all - gone == {};
  }

  lemma SurvivalByCount(mid: Ledger, dropped: set<RequestId>, id: RequestId, limit: nat)
    requires id in CompletedIds(mid) && KeepsNewest(mid, CompletedIds(mid), dropped, limit)
    ensures |CompletedSince(mid, id, Stamp(mid, id))| < limit ==> id !in dropped
    ensures |CompletedAfter(mid, id, Stamp(mid, id))| >= limit ==> id in dropped
  {
    hide KeepsNewest;
    if id in dropped {
      DroppedHasEnoughSince(mid, dropped, id, limit);
    } else {
      KeptHasFewAfter(mid, dropped, id, limit);
    }
  }

  lemma DroppedHasEnoughSince(mid: Ledger, dropped: set<RequestId>, id: RequestId, limit: nat)
    requires id in dropped && KeepsNewest(mid, CompletedIds(mid), dropped, limit)
    ensures |CompletedSince(mid, id, Stamp(mid, id))| >= limit
  {
    var kept := CompletedIds(mid) - dropped;
    assert kept <= CompletedSince(mid, id, Stamp(mid, id));
    SubsetCardinality(kept, CompletedSince(mid, id, Stamp(mid, id)));
  }

  lemma KeptHasFewAfter(mid: Ledger, dropped: set<RequestId>, id: RequestId, limit: nat)
    requires id in CompletedIds(mid) - dropped && KeepsNewest(mid, CompletedIds(mid), dropped, limit)
    ensures |CompletedAfter(mid, id, Stamp(mid, id))| < limit
  {
    var kept, newer := CompletedIds(mid) - dropped, CompletedAfter(mid, id, Stamp(mid, id));
    assert newer + {id} <= kept;
    SubsetCardinality(newer + {id}, kept);
  }

  ghost predicate UpdatesCoverCompletions(l: Ledger) {
    forall id :: id in CompletedIds(l) ==> Stamp(l, id) <= l.operations[id].base.updatedAt
  }

  /** If every compaction clock has reached the completion times it wrote over, retention 0 is safe too. */
  lemma RecordedResultSurvivesWithSteadyClock(l: Ledger, post: Ledger, request: RootRequest, result: RootResult,
                                              cursor: SessionState, clock: int, cleanedLimit: nat, clock': int)
    requires UpdatesCoverCompletions(l) && cleanedLimit >= 1
    requires RecordTerminal(l, request, result, cursor, NextTimestamp(l, clock)).Some?
    requires RecordsCompacted(RecordTerminal(l, request, result, cursor, NextTimestamp(l, clock)).value, post,
                              0, cleanedLimit, clock')
    ensures request.requestId in post.operations && post.operations[request.requestId].result == result
  {
    RecordedIsNewest(l, request, result, cursor, NextTimestamp(l, clock));
    var mid := RecordTerminal(l, request, result, cursor, NextTimestamp(l, clock)).value;
    NewestSurvives(mid, post, request.requestId, 0, cleanedLimit, clock');
  }

  /** A compaction whose clock has reached every completion time keeps that premise. */
  lemma SteadyClockKeepsCover(mid: Ledger, post: Ledger, terminalLimit: nat, cleanedLimit: nat, clock: int)
    requires UpdatesCoverCompletions(mid) && RecordsCompacted(mid, post, terminalLimit, cleanedLimit, clock)
    requires forall id :: id in TerminalIds(mid) ==> Stamp(mid, id) <= clock
    ensures UpdatesCoverCompletions(post)
  {
    var aged, dropped :|
      Chosen(mid, terminalLimit, cleanedLimit, aged, dropped) && Applied(mid, post, clock, aged, dropped);
    AppliedKeepsCover(mid, post, clock, aged, dropped);
  }

  lemma AppliedKeepsCover(mid: Ledger, post: Ledger, clock: int, aged: set<RequestId>, dropped: set<RequestId>)
    requires UpdatesCoverCompletions(mid) && aged <= TerminalIds(mid) && dropped <= CleanedIds(mid) + aged
    requires Applied(mid, post, clock, aged, dropped)
    requires forall id :: id in TerminalIds(mid) ==> Stamp(mid, id) <= clock
    ensures UpdatesCoverCompletions(post)
  {
    AppliedSets(mid, post, clock, aged, dropped);
  }

  /**
   * Without a steady clock the premise fails: the record `a` completed at 10 was cleaned by a
   * clock showing 5, so `b`, completed next, is stamped 6 and lost while it is being recorded.
   */
  lemma RecordedResultCanBeLost(h: Hashes) returns (l: Ledger, post: Ledger, request: RootRequest, result: RootResult, cursor: SessionState)
    ensures LedgerOk(h, l) && StampsOk(l)
    ensures RecordTerminal(l, request, result, cursor, NextTimestamp(l, 6)).Some?
    ensures RecordsCompacted(RecordTerminal(l, request, result, cursor, NextTimestamp(l, 6)).value, post, 0, 1, 6)
    ensures request.requestId !in post.operations
  {
    hide RecordsCompacted, FilterOk;
    cursor := SessionState(None, Some("s"), 0);
    var a, b := RequestId("a"), RequestId("b");
    assert a.text[0] != b.text[0];
    request := RootRequest(b, None, "");
    result := RootResult(b, Completed, None, InvalidRootResult);
    l := LedgerOfTwo(h, a, request, result, cursor);
    assert NextTimestamp(l, 6) == 6;
    var mid := RecordTerminal(l, request, result, cursor, 6).value;
    post := mid.(operations := map[a := mid.operations[a]]);
    NewerOfTwoIsLost(mid, a, b);
  }

  /** An older cleaned record at completion time 10 beside the delivered request. */
  ghost function LedgerOfTwo(h: Hashes, a: RequestId, request: RootRequest, result: RootResult, cursor: SessionState): (l: Ledger)
    requires a != request.requestId && IsResumable(cursor) && result.requestId == request.requestId
    ensures LedgerOk(h, l) && StampsOk(l)
  {
    var older := Cleaned(OperationBase(a, "", 1, 5), result.(requestId := a), 10, 10);
    var delivered := Delivered(OperationBase(request.requestId, h.fingerprint(request), 2, 5), request, "o", 5, cursor);
    Ledger(Some(cursor), Some(request.requestId), [], map[a := older, request.requestId := delivered], None, None)
  }

  lemma NewerOfTwoIsLost(mid: Ledger, a: RequestId, b: RequestId)
    requires mid.operations.Keys == {a, b} && mid.operations[a].Cleaned? && mid.operations[b].Terminal?
    requires Stamp(mid, a) > Stamp(mid, b)
    ensures RecordsCompacted(mid, mid.(operations := map[a := mid.operations[a]]), 0, 1, 6)
  {
    hide KeepsNewest;
    OlderOfTwoIsDropped(mid, a, b);
    assert Applied(mid, mid.(operations := map[a := mid.operations[a]]), 6, {b}, {b});
  }

  lemma OlderOfTwoIsDropped(mid: Ledger, a: RequestId, b: RequestId)
    requires mid.operations.Keys == {a, b} && mid.operations[a].Cleaned? && mid.operations[b].Terminal?
    requires Stamp(mid, a) > Stamp(mid, b)
    ensures Chosen(mid, 0, 1, {b}, {b})
  {
    assert TerminalIds(mid) == {b};
    assert CleanedIds(mid) + {b} == {a, b};
    assert {a, b} - {b} == {a};
  }
}
