/** The cursor and the block reason of a session: at every point of a run, the newest cursor and the first reason. */
module RootSteps {
  import opened Common
  import opened RetiredFilter
  import opened RootLedger
  import opened LedgerInvariant
  import opened DeliveryProtocol
  import opened DeliverySafety
  import opened DeliveryRuns
  import opened RootAnswers

  // ---------------------------------------------------------------- the cursor

  predicate Resumable(c: SessionState) {
    c.sessionId.Some? && c.sessionId.value != ""
  }

  /** The recording of a delivery takes effect: the cursor can be resumed and the claim still stands. */
  predicate DeliveryLands(s: System, step: Step) {
    && step.Deliver? && !step.write.Lost? && Resumable(step.cursor) && step.owner in s.live && s.live[step.owner].InFlight?
    && var id := s.live[step.owner].op.base.requestId; OwnedBy(s.ledger, id, step.owner) && s.ledger.active == Some(id)
  }

  predicate DrainLands(s: System, step: Step) {
    && step.DrainStaleTurn? && !step.write.Lost? && step.owner in s.live && s.live[step.owner].Draining?
    && IsDeliveredActive(s.ledger, s.live[step.owner].request.requestId)
  }

  /** The cursor after a run: the one written last, but no empty one in place of a delivered one. */
  ghost function NewestCursor(states: seq<System>, steps: seq<Step>): Option<SessionState>
    requires |states| == |steps| + 1
    decreases |steps|
  {
    if |steps| == 0 then None
    else
      var n := |steps| - 1;
      var before, step := NewestCursor(states[..n + 1], steps[..n]), steps[n];
      if DeliveryLands(states[n], step) then Some(step.cursor)
      else if DrainLands(states[n], step) then Some(step.turn.sessionState)
      else if Lands(states[n], step) then if Resumable(step.turn.sessionState) then Some(step.turn.sessionState) else before
      else if step.WriteCursorOnly? then Some(step.state)
      else if step.Reload? && before.Some? && !Resumable(before.value) then None
      else before
  }

  lemma StepCursor(h: Hashes, s: System, step: Step, t: System)
    requires Inv(h, s) && Next(h, s, step, t)
    ensures t.ledger.sessionState ==
            if DeliveryLands(s, step) then Some(step.cursor)
            else if DrainLands(s, step) then Some(step.turn.sessionState)
            else if Lands(s, step) then if Resumable(step.turn.sessionState) then Some(step.turn.sessionState) else s.ledger.sessionState
            else if step.WriteCursorOnly? then Some(step.state)
            else if step.Reload? && s.ledger.sessionState.Some? && !Resumable(s.ledger.sessionState.value) then None
            else s.ledger.sessionState
  {
    hide Inv, Compacted, DecideTurn, Promote, Claim, Register, RecordDelivery, RecordTerminal, PersistDeliveredCursor;
    match step
    case RegisterRequest(_, _, _, _, _, _, _, _) => RegisterKeepsCursor(h, s, step, t);
    case FetchNext(_, clock, _) => PromoteKeepsCursor(s.ledger, NextTimestamp(s.ledger, clock));
    case ClaimPrepared(o, clock, _) => ClaimKeepsCursor(s.ledger, s.live[o].op.base.requestId, o, NextTimestamp(s.ledger, clock));
    case Deliver(_, _, _, _) => DeliverCursor(h, s, step, t);
    case DrainStaleTurn(_, _, _, _) => DrainCursor(h, s, step, t);
    case FinishTurn(_, _, _, _, _, _, _, _) => FinishCursor(h, s, step, t);
    case _ =>
  }

  lemma RegisterKeepsCursor(h: Hashes, s: System, step: Step, t: System)
    requires step.RegisterRequest? && Next(h, s, step, t)
    ensures t.ledger.sessionState == s.ledger.sessionState && t.ledger.blocked == s.ledger.blocked
  {
    hide Compacted, RetiredFilterHas;
    CompactedIsRecords(h, s.ledger, step.compacted, step.terminalLimit, step.cleanedLimit, step.compactionClock);
    CompactionAdvances(s.ledger, step.compacted, step.terminalLimit, step.cleanedLimit, step.compactionClock);
  }

  lemma PromoteKeepsCursor(l: Ledger, now: int)
    requires Promote(l, now).Some?
    ensures Promote(l, now).value.0.sessionState == l.sessionState && Promote(l, now).value.0.blocked == l.blocked
  {
  }

  lemma ClaimKeepsCursor(l: Ledger, id: RequestId, o: string, now: int)
    ensures Claim(l, id, o, now).0.sessionState == l.sessionState && Claim(l, id, o, now).0.blocked == l.blocked
  {
  }

  /** A delivery stores the cursor it came with, both in the ledger and in its record. */
  lemma DeliverCursor(h: Hashes, s: System, step: Step, t: System)
    requires step.Deliver? && Next(h, s, step, t)
    ensures t.ledger.sessionState == (if DeliveryLands(s, step) then Some(step.cursor) else s.ledger.sessionState)
    ensures t.ledger.blocked == s.ledger.blocked
    ensures DeliveryLands(s, step) ==>
              var id := s.live[step.owner].op.base.requestId;
              && id in t.ledger.operations && t.ledger.operations[id].Delivered?
              && t.ledger.operations[id].cursor == step.cursor && t.ledger.operations[id].deliveryOwner == step.owner
  {
  }

  lemma DrainCursor(h: Hashes, s: System, step: Step, t: System)
    requires step.DrainStaleTurn? && Next(h, s, step, t)
    ensures t.ledger.sessionState == (if DrainLands(s, step) then Some(step.turn.sessionState) else s.ledger.sessionState)
    ensures t.ledger.blocked == s.ledger.blocked
    ensures DrainLands(s, step) ==>
              var id := s.live[step.owner].request.requestId;
              id in t.ledger.operations && t.ledger.operations[id].Delivered? && t.ledger.operations[id].cursor == step.turn.sessionState
  {
    hide DecideTurn;
  }

  lemma FinishCursor(h: Hashes, s: System, step: Step, t: System)
    requires Inv(h, s) && step.FinishTurn? && Next(h, s, step, t)
    ensures t.ledger.sessionState ==
            if Lands(s, step) && Resumable(step.turn.sessionState) then Some(step.turn.sessionState) else s.ledger.sessionState
    ensures t.ledger.blocked == s.ledger.blocked
  {
    hide Inv, Compacted, DecideTurn;
    if Lands(s, step) {
      CursorSurvivesFinish(h, s, step, t);
      FinishKeepsBlock(h, s, step, t);
    }
  }

  lemma FinishKeepsBlock(h: Hashes, s: System, step: Step, t: System)
    requires step.FinishTurn? && Next(h, s, step, t) && Lands(s, step)
    ensures t.ledger.blocked == s.ledger.blocked
  {
    hide Compacted, DecideTurn;
    var request := s.live[step.owner].request;
    var result := DecideTurn(request, step.turn, s.live[step.owner].replays, step.canConsume).result;
    var recorded := RecordTerminal(s.ledger, request, result, step.turn.sessionState, NextTimestamp(s.ledger, step.clock)).value;
    CompactedIsRecords(h, recorded, t.ledger, step.terminalLimit, step.cleanedLimit, step.compactionClock);
    CompactionAdvances(recorded, t.ledger, step.terminalLimit, step.cleanedLimit, step.compactionClock);
  }

  /** At every point of every run the ledger holds the newest cursor. */
  lemma {:induction false} LedgerHoldsNewestCursor(h: Hashes, states: seq<System>, steps: seq<Step>)
    requires IsRun(h, states, steps)
    ensures states[|steps|].ledger.sessionState == NewestCursor(states, steps)
    decreases |steps|
  {
    hide Next, Inv, DeliveryLands, DrainLands, Lands;
    if |steps| > 0 {
      var n := |steps| - 1;
      RunPrefixTo(h, states, steps, n);
      LedgerHoldsNewestCursor(h, states[..n + 1], steps[..n]);
      assert Next(h, states[n], steps[n], states[n + 1]);
      StepCursor(h, states[n], steps[n], states[n + 1]);
    }
  }

  // ---------------------------------------------------------------- the block reason

  predicate Blocks(step: Step) {
    (step.BlockUndelivered? || step.BlockOther?) && !step.write.Lost?
  }

  /** The reason of the first block whose write takes effect. */
  function FirstReason(steps: seq<Step>): Option<string> {
    if |steps| == 0 then None else if Blocks(steps[0]) then Some(steps[0].reason) else FirstReason(steps[1..])
  }

  lemma {:induction false} FirstReasonSnoc(steps: seq<Step>, step: Step)
    ensures FirstReason(steps + [step]) ==
            if FirstReason(steps).Some? then FirstReason(steps) else if Blocks(step) then Some(step.reason) else None
  {
    if |steps| == 0 {
      assert steps + [step] == [step] && [step][1..] == [];
    } else {
      FirstReasonSnoc(steps[1..], step);
      assert (steps + [step])[1..] == steps[1..] + [step];
    }
  }

  lemma StepBlocks(h: Hashes, s: System, step: Step, t: System)
    requires Inv(h, s) && Next(h, s, step, t)
    ensures t.ledger.blocked ==
            if s.ledger.blocked.Some? then s.ledger.blocked else if Blocks(step) then Some(step.reason) else None
  {
    hide Inv, Compacted, DecideTurn, Promote, Claim, Register, RecordDelivery, RecordTerminal, PersistDeliveredCursor;
    match step
    case RegisterRequest(_, _, _, _, _, _, _, _) => RegisterKeepsCursor(h, s, step, t);
    case FetchNext(_, clock, _) => PromoteKeepsCursor(s.ledger, NextTimestamp(s.ledger, clock));
    case ClaimPrepared(o, clock, _) => ClaimKeepsCursor(s.ledger, s.live[o].op.base.requestId, o, NextTimestamp(s.ledger, clock));
    case Deliver(_, _, _, _) => DeliverCursor(h, s, step, t);
    case DrainStaleTurn(_, _, _, _) => DrainCursor(h, s, step, t);
    case FinishTurn(_, _, _, _, _, _, _, _) => FinishCursor(h, s, step, t);
    case _ =>
  }

  /** A session is blocked from its first block on, for good, and for that block's reason. */
  lemma {:induction false} FirstReasonSticks(h: Hashes, states: seq<System>, steps: seq<Step>)
    requires IsRun(h, states, steps)
    ensures states[|steps|].ledger.blocked == FirstReason(steps)
    decreases |steps|
  {
    hide Next, Inv;
    if |steps| > 0 {
      var n := |steps| - 1;
      RunPrefixTo(h, states, steps, n);
      FirstReasonSticks(h, states[..n + 1], steps[..n]);
      assert Next(h, states[n], steps[n], states[n + 1]);
      StepBlocks(h, states[n], steps[n], states[n + 1]);
      FirstReasonSnoc(steps[..n], steps[n]);
      assert steps == steps[..n] + [steps[n]];
    }
  }
}
