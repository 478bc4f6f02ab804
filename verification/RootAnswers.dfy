/** What a Root request is answered: the result its turn brought, for as long as the record is kept. */
module RootAnswers {
  import opened Common
  import opened RetiredFilter
  import opened RootLedger
  import opened LedgerInvariant
  import opened Retention
  import opened DeliveryProtocol
  import opened DeliverySafety
  import opened DeliveryRuns

  // ---------------------------------------------------------------- ledgers along a run

  /** A step changes the ledger by at most two mutations in a row. */
  ghost predicate Moves(h: Hashes, pre: Ledger, post: Ledger) {
    exists mid :: Evolves(h, pre, mid) && Evolves(h, mid, post)
  }

  lemma EvolvesInPlace(h: Hashes, l: Ledger)
    requires LedgerOk(h, l)
    ensures Evolves(h, l, l)
  {
  }

  lemma OneMove(h: Hashes, pre: Ledger, post: Ledger)
    requires Evolves(h, pre, post)
    ensures Moves(h, pre, post)
  {
    hide RecordsAdvance, LedgerOk;
    assert LedgerOk(h, post);
    EvolvesInPlace(h, post);
  }

  lemma NextMoves(h: Hashes, s: System, step: Step, t: System)
    requires Inv(h, s) && Next(h, s, step, t)
    ensures Moves(h, s.ledger, t.ledger)
  {
    hide Moves, Evolves, RegisteredOk, SingleEngagement, IdOk, Promote, Claim, Register, RecordDelivery,
         PersistDeliveredCursor, RecordTerminal, Block, WriteCursor, DecideTurn, LedgerOk, RequestsMatch;
    var l := s.ledger;
    if t.ledger == l {
      EvolvesInPlace(h, l);
      OneMove(h, l, l);
    } else if step.RegisterRequest? {
      RegisterMoves(h, s, step, t);
    } else if step.FinishTurn? {
      FinishMoves(h, s, step, t);
    } else {
      MutationMoves(h, s, step, t);
      OneMove(h, l, t.ledger);
    }
  }

  lemma RegisterMoves(h: Hashes, s: System, step: Step, t: System)
    requires LedgerOk(h, s.ledger) && step.RegisterRequest? && Next(h, s, step, t)
    ensures Moves(h, s.ledger, t.ledger)
  {
    hide Register, Compacted, RecordsAdvance, LedgerOk;
    CompactionEvolves(h, s.ledger, step.compacted, step.terminalLimit, step.cleanedLimit, step.compactionClock);
    RegisterEvolves(h, step.compacted, step.request, NextTimestamp(step.compacted, step.clock));
  }

  lemma FinishMoves(h: Hashes, s: System, step: Step, t: System)
    requires Inv(h, s) && step.FinishTurn? && Next(h, s, step, t) && t.ledger != s.ledger
    ensures Moves(h, s.ledger, t.ledger)
  {
    hide Compacted, RecordsAdvance, OwnersUsed, RegisteredOk, SingleEngagement, IdOk, DecideTurn;
    var request := s.live[step.owner].request;
    var result := DecideTurn(request, step.turn, s.live[step.owner].replays, step.canConsume).result;
    var now := NextTimestamp(s.ledger, step.clock);
    assert PumpOk(s, step.owner);
    RecordedResultAnswersItsRequest(request, step.turn, s.live[step.owner].replays, step.canConsume);
    RecordTerminalEvolves(h, s.ledger, request, result, step.turn.sessionState, now);
    var recorded := RecordTerminal(s.ledger, request, result, step.turn.sessionState, now).value;
    hide LedgerOk, RecordTerminal;
    CompactionEvolves(h, recorded, t.ledger, step.terminalLimit, step.cleanedLimit, step.compactionClock);
  }

  lemma MutationMoves(h: Hashes, s: System, step: Step, t: System)
    requires LedgerOk(h, s.ledger) && "" !in s.used && s.live.Keys <= s.used
    requires Next(h, s, step, t) && t.ledger != s.ledger && !step.RegisterRequest? && !step.FinishTurn?
    ensures Evolves(h, s.ledger, t.ledger)
  {
    hide Evolves, LedgerOk, Promote, Claim, RecordDelivery, PersistDeliveredCursor, Block, WriteCursor, Compacted, Register,
         RecordTerminal;
    var l := s.ledger;
    match step
    case FetchNext(_, clock, _) => PromoteEvolves(h, l, NextTimestamp(l, clock));
    case ClaimPrepared(o, clock, _) => ClaimEvolves(h, l, s.live[o].op.base.requestId, o, NextTimestamp(l, clock));
    case Deliver(o, cursor, clock, _) =>
      RecordDeliveryEvolves(h, l, s.live[o].op.base.requestId, o, cursor, NextTimestamp(l, clock));
    case BlockUndelivered(_, reason, _) => BlockEvolves(h, l, reason);
    case BlockOther(_, reason, _) => BlockEvolves(h, l, reason);
    case DrainStaleTurn(o, turn, clock, _) =>
      RecordedResultAnswersItsRequest(s.live[o].request, turn, s.live[o].replays, true);
      PersistDeliveredCursorEvolves(h, l, s.live[o].request.requestId, turn.sessionState, NextTimestamp(l, clock));
    case WriteCursorOnly(state) => WriteCursorEvolves(h, l, state);
    case Reload => ReloadAccepted(h, l);
  }

  lemma RunPrefixTo(h: Hashes, states: seq<System>, steps: seq<Step>, m: nat)
    requires IsRun(h, states, steps) && m <= |steps|
    ensures IsRun(h, states[..m + 1], steps[..m]) && Inv(h, states[m]) && states[m] == states[..m + 1][m]
  {
    hide Next, Inv;
    assert forall k :: 0 <= k < m ==> steps[..m][k] == steps[k] && states[..m + 1][k + 1] == states[k + 1];
    RunKeepsInv(h, states[..m + 1], steps[..m]);
  }

  // ---------------------------------------------------------------- a stored result stays

  /** The record of `id`, while there is one, holds this result for this request data. */
  predicate Shows(l: Ledger, id: RequestId, result: RootResult, fingerprint: string) {
    id in l.operations ==>
      && IsCompleted(l.operations[id]) && l.operations[id].result == result
      && l.operations[id].base.fingerprint == fingerprint
  }

  lemma EvolvesKeepsShown(h: Hashes, pre: Ledger, post: Ledger, id: RequestId, result: RootResult, fingerprint: string)
    requires Evolves(h, pre, post) && Known(h, pre, id) && Shows(pre, id, result, fingerprint)
    ensures FilterOk(post.retired) && Known(h, post, id) && Shows(post, id, result, fingerprint)
  {
    EvolvesKeepsKnown(h, pre, post, id);
    if id in pre.operations && id in post.operations {
      assert Advances(pre.operations[id], post.operations[id]);
    }
  }

  lemma {:induction false} ResultStays(h: Hashes, states: seq<System>, steps: seq<Step>, n: nat, m: nat, id: RequestId,
                                      result: RootResult, fingerprint: string)
    requires IsRun(h, states, steps) && n <= m <= |steps|
    requires id in states[n].registered && Shows(states[n].ledger, id, result, fingerprint)
    ensures id in states[m].registered && Shows(states[m].ledger, id, result, fingerprint)
    decreases m
  {
    hide Next, Shows, Inv, Evolves;
    if n < m {
      ResultStays(h, states, steps, n, m - 1, id, result, fingerprint);
      RunPrefixTo(h, states, steps, m - 1);
      var s, t := states[m - 1], states[m];
      NextMoves(h, s, steps[m - 1], t);
      NextKeepsRegistered(h, s, steps[m - 1], t);
      RegisteredIsKnown(h, s, id);
      var mid :| Evolves(h, s.ledger, mid) && Evolves(h, mid, t.ledger);
      EvolvesKeepsShown(h, s.ledger, mid, id, result, fingerprint);
      EvolvesKeepsShown(h, mid, t.ledger, id, result, fingerprint);
    }
  }

  lemma RegisteredIsKnown(h: Hashes, s: System, id: RequestId)
    requires Inv(h, s) && id in s.registered
    ensures FilterOk(s.ledger.retired) && Known(h, s.ledger, id)
  {
    hide PumpOk, IdOk, SingleEngagement, OwnersUsed, RequestsMatch;
  }

  // ---------------------------------------------------------------- what a finished turn stores

  /** Root answered this request, and with the Issue it was asked about unless it reports a failure. */
  predicate AnswersWell(request: RootRequest, turn: Turn) {
    && turn.data.Some? && turn.data.value.requestId == request.requestId
    && (turn.data.value.status == Failed || request.issueSelector.None? || turn.data.value.issue == request.issueSelector)
  }

  /** A turn that belongs to an earlier request and may be followed by another one. */
  predicate CanBeDrained(request: RootRequest, turn: Turn, replays: nat) {
    && turn.data.Some? && turn.data.value.requestId != request.requestId
    && replays < 8 && turn.status != TurnFailed && IsResumable(turn.sessionState)
  }

  /** The write of this finishing step takes effect. */
  ghost predicate Lands(s: System, step: Step) {
    && step.FinishTurn? && !step.write.Lost? && step.owner in s.live && s.live[step.owner].Draining?
    && IsDeliveredActive(s.ledger, s.live[step.owner].request.requestId)
  }

  /** What is stored for a turn: Root's own result if it answers well, and otherwise the failure that fits. */
  ghost predicate StoredFor(request: RootRequest, turn: Turn, stored: RootResult) {
    var id, data := request.requestId, turn.data;
    && (AnswersWell(request, turn) ==> stored == data.value)
    && (data.None? ==> stored == RootResult(id, Failed, None, InvalidRootResult))
    && (data.Some? && data.value.requestId != id ==> stored == RootResult(id, Failed, None, DifferentRequestResult))
    && (data.Some? && data.value.requestId == id && !AnswersWell(request, turn) ==>
          stored == RootResult(id, Failed, None, if data.value.issue.None? then SelectorWithoutIssue else SelectorOtherIssue))
  }

  lemma DecidedIsStored(request: RootRequest, turn: Turn, replays: nat, canConsume: bool)
    requires DecideTurn(request, turn, replays, canConsume).Record?
    ensures StoredFor(request, turn, DecideTurn(request, turn, replays, canConsume).result)
    ensures !(CanBeDrained(request, turn, replays) && canConsume)
  {
  }

  /** Root's summary is text; with that, each failure is stored exactly in its own case. */
  lemma StoredFailures(request: RootRequest, turn: Turn, stored: RootResult)
    requires StoredFor(request, turn, stored) && (turn.data.Some? ==> turn.data.value.summary.RootText?)
    ensures stored.requestId == request.requestId
    ensures stored.summary == InvalidRootResult <==> turn.data.None?
    ensures stored.summary == DifferentRequestResult <==> turn.data.Some? && turn.data.value.requestId != request.requestId
    ensures stored.summary == SelectorWithoutIssue <==>
              && turn.data.Some? && turn.data.value.requestId == request.requestId && turn.data.value.status != Failed
              && request.issueSelector.Some? && turn.data.value.issue.None?
    ensures stored.summary == SelectorOtherIssue <==>
              && turn.data.Some? && turn.data.value.requestId == request.requestId && turn.data.value.status != Failed
              && request.issueSelector.Some? && turn.data.value.issue.Some? && turn.data.value.issue != request.issueSelector
    ensures stored.summary.RootText? <==> AnswersWell(request, turn)
  {
  }

  /** The record that a finishing step leaves, if its compaction leaves one. */
  lemma FinishStores(h: Hashes, s: System, step: Step, t: System)
    requires Inv(h, s) && Next(h, s, step, t) && Lands(s, step)
    requires s.live[step.owner].request.requestId in t.ledger.operations
    ensures var request := s.live[step.owner].request; var record := t.ledger.operations[request.requestId];
            && IsCompleted(record) && record.base.fingerprint == h.fingerprint(request)
            && StoredFor(request, step.turn, record.result)
  {
    var request := s.live[step.owner].request;
    var decision := DecideTurn(request, step.turn, s.live[step.owner].replays, step.canConsume);
    DecidedIsStored(request, step.turn, s.live[step.owner].replays, step.canConsume);
    DeliveredFingerprint(h, s, step.owner);
    hide Inv, Compacted, DecideTurn, StoredFor, OperationOk;
    var recorded := RecordTerminal(s.ledger, request, decision.result, step.turn.sessionState, NextTimestamp(s.ledger, step.clock)).value;
    CompactedIsRecords(h, recorded, t.ledger, step.terminalLimit, step.cleanedLimit, step.compactionClock);
    CompactionAdvances(recorded, t.ledger, step.terminalLimit, step.cleanedLimit, step.compactionClock);
    assert Advances(recorded.operations[request.requestId], t.ledger.operations[request.requestId]);
  }

  lemma DeliveredFingerprint(h: Hashes, s: System, o: string)
    requires Inv(h, s) && o in s.live && s.live[o].Draining? && IsDeliveredActive(s.ledger, s.live[o].request.requestId)
    ensures var request := s.live[o].request; s.ledger.operations[request.requestId].base.fingerprint == h.fingerprint(request)
    ensures s.live[o].request.requestId in s.registered
  {
    hide OwnersUsed, RegisteredOk, SingleEngagement, IdOk, ActiveOk, QueueOk;
    assert PumpOk(s, o);
    assert OperationOk(h, s.live[o].request.requestId, s.ledger.operations[s.live[o].request.requestId]);
  }

  /**
   * With full records kept, a finished turn whose write lands is stored: Root's own result if it
   * answers its request well, whatever the clocks show.
   */
  lemma FinishedTurnIsStored(h: Hashes, states: seq<System>, steps: seq<Step>, i: nat)
    requires IsRun(h, states, steps) && i < |steps| && Lands(states[i], steps[i])
    requires forall k :: 0 <= k <= i ==> KeepsFullRecords(steps[k])
    ensures var request, l := states[i].live[steps[i].owner].request, states[i + 1].ledger;
            && request.requestId in l.operations && l.operations[request.requestId].Terminal?
            && StoredFor(request, steps[i].turn, l.operations[request.requestId].result)
  {
    RunPrefixTo(h, states, steps, i);
    assert Next(h, states[i], steps[i], states[i + 1]);
    assert forall k :: 0 <= k < i ==> steps[..i][k] == steps[k];
    hide Next, Inv, IsRun, StoredFor;
    FinishedResultIsRetrievable(h, states[..i + 1], steps[..i], steps[i], states[i + 1]);
    FinishStores(h, states[i], steps[i], states[i + 1]);
  }

  /** A draining pump goes on to the next turn exactly for the turns that can be drained. */
  lemma DrainsIff(h: Hashes, s: System, o: string, turn: Turn, clock: int, write: Write)
    requires o in s.live && s.live[o].Draining?
    ensures (exists t :: Next(h, s, DrainStaleTurn(o, turn, clock, write), t)) <==>
            CanBeDrained(s.live[o].request, turn, s.live[o].replays)
  {
    var request := s.live[o].request;
    var spec := PersistDeliveredCursor(s.ledger, request.requestId, turn.sessionState, NextTimestamp(s.ledger, clock));
    var t := if spec.None? || write.Lost? then WithPump(s, o, Idle)
             else WithPump(s.(ledger := spec.value), o, if write.Reported? then Draining(request, s.live[o].replays + 1) else Idle);
    hide PersistDeliveredCursor;
    if CanBeDrained(request, turn, s.live[o].replays) {
      assert Next(h, s, DrainStaleTurn(o, turn, clock, write), t);
    }
  }

  /** A turn that can be drained is only finished where the transport cannot wait for another one. */
  lemma FinishedCannotBeDrained(h: Hashes, s: System, step: Step, t: System)
    requires step.FinishTurn? && Next(h, s, step, t)
    ensures CanBeDrained(s.live[step.owner].request, step.turn, s.live[step.owner].replays) ==> !step.canConsume
  {
    hide Compacted, RecordTerminal;
  }

  /**
   * The session cursor after a finished turn: the turn's own if it can be resumed, and the delivered
   * one otherwise. An empty cursor never replaces the one that makes resuming safe.
   */
  lemma CursorSurvivesFinish(h: Hashes, s: System, step: Step, t: System)
    requires Inv(h, s) && Next(h, s, step, t) && Lands(s, step)
    ensures var cursor, delivered := step.turn.sessionState, s.ledger.operations[s.live[step.owner].request.requestId].cursor;
            && s.ledger.sessionState == Some(delivered) && IsResumable(delivered)
            && t.ledger.sessionState == Some(if cursor.sessionId.Some? && cursor.sessionId.value != "" then cursor else delivered)
            && t.ledger.active.None? && t.ledger.queue == s.ledger.queue
  {
    DeliveredCursorIsKept(h, s, s.live[step.owner].request.requestId);
    hide Inv, Compacted, DecideTurn;
    var request := s.live[step.owner].request;
    var result := DecideTurn(request, step.turn, s.live[step.owner].replays, step.canConsume).result;
    var recorded := RecordTerminal(s.ledger, request, result, step.turn.sessionState, NextTimestamp(s.ledger, step.clock)).value;
    CompactedIsRecords(h, recorded, t.ledger, step.terminalLimit, step.cleanedLimit, step.compactionClock);
    CompactionAdvances(recorded, t.ledger, step.terminalLimit, step.cleanedLimit, step.compactionClock);
  }

  lemma DeliveredCursorIsKept(h: Hashes, s: System, id: RequestId)
    requires Inv(h, s) && IsDeliveredActive(s.ledger, id)
    ensures s.ledger.sessionState == Some(s.ledger.operations[id].cursor) && IsResumable(s.ledger.operations[id].cursor)
  {
    hide PumpOk, IdOk, SingleEngagement, OwnersUsed, RequestsMatch, RegisteredOk;
    assert OperationOk(h, id, s.ledger.operations[id]);
  }

  // ---------------------------------------------------------------- what a registration answers

  /** `reply` is what a caller must be told about `request`, given the ledger after its registration. */
  ghost predicate AnswersFrom(h: Hashes, l: Ledger, request: RootRequest, reply: Option<RootResult>) {
    var id := request.requestId;
    && (l.blocked.Some? ==> reply == Some(RootResult(id, Failed, None, SessionBlocked(l.blocked.value))))
    && (l.blocked.None? && id !in l.operations ==> reply == Some(RootResult(id, Failed, None, RequestIdRetired)))
    && (l.blocked.None? && id in l.operations && l.operations[id].base.fingerprint != h.fingerprint(request) ==>
          reply == Some(RootResult(id, Failed, None, RequestIdConflict)))
    && (l.blocked.None? && id in l.operations && l.operations[id].base.fingerprint == h.fingerprint(request) ==>
          reply == if IsCompleted(l.operations[id]) then Some(l.operations[id].result) else None)
  }

  lemma RegisterAnswers(h: Hashes, l: Ledger, request: RootRequest, now: int)
    requires FilterOk(l.retired)
    ensures var (ledger, reply) := Register(h, l, request, h.fingerprint(request), now);
            AnswersFrom(h, ledger, request, reply) && ledger.blocked == l.blocked
  {
    hide RetiredFilterHas, FilterOk;
  }

  /** The answer of every registration, read off the ledger it leaves. */
  lemma RegistrationIsAnswered(h: Hashes, s: System, step: Step, t: System)
    requires step.RegisterRequest? && Next(h, s, step, t)
    ensures AnswersFrom(h, t.ledger, step.request, step.reply) && t.ledger.blocked == s.ledger.blocked
  {
    hide Compacted, Register, AnswersFrom;
    CompactedIsRecords(h, s.ledger, step.compacted, step.terminalLimit, step.cleanedLimit, step.compactionClock);
    CompactionAdvances(s.ledger, step.compacted, step.terminalLimit, step.cleanedLimit, step.compactionClock);
    RegisterAnswers(h, step.compacted, step.request, NextTimestamp(step.compacted, step.clock));
  }

  /**
   * What a finished turn stored is what registering the same request answers from then on, while its
   * record is kept and the session is open; the same id with other request data is refused.
   */
  lemma FinishedResultIsAnswered(h: Hashes, states: seq<System>, steps: seq<Step>, i: nat, k: nat)
    requires IsRun(h, states, steps) && i < k < |steps| && Lands(states[i], steps[i]) && steps[k].RegisterRequest?
    requires var request := states[i].live[steps[i].owner].request;
             && steps[k].request.requestId == request.requestId && request.requestId in states[i + 1].ledger.operations
             && states[k + 1].ledger.blocked.None? && request.requestId in states[k + 1].ledger.operations
    ensures var request := states[i].live[steps[i].owner].request;
            if h.fingerprint(steps[k].request) == h.fingerprint(request) then
              steps[k].reply.Some? && StoredFor(request, steps[i].turn, steps[k].reply.value)
            else steps[k].reply == Some(RootResult(request.requestId, Failed, None, RequestIdConflict))
  {
    hide Inv, StoredFor, KeepsFullRecords;
    var request := states[i].live[steps[i].owner].request;
    var id, record := request.requestId, states[i + 1].ledger.operations[request.requestId];
    RunPrefixTo(h, states, steps, i);
    RunPrefixTo(h, states, steps, k);
    assert Next(h, states[i], steps[i], states[i + 1]) && Next(h, states[k], steps[k], states[k + 1]);
    FinishStores(h, states[i], steps[i], states[i + 1]);
    DeliveredFingerprint(h, states[i], steps[i].owner);
    NextKeepsRegistered(h, states[i], steps[i], states[i + 1]);
    hide Next;
    ResultStays(h, states, steps, i + 1, k + 1, id, record.result, h.fingerprint(request));
    RegistrationIsAnswered(h, states[k], steps[k], states[k + 1]);
  }
}
