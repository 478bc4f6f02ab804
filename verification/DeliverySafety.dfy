/** Every step of the delivery protocol keeps its invariant; safety over all runs follows. */
module DeliverySafety {
  import opened Common
  import opened RetiredFilter
  import opened RootLedger
  import opened LedgerInvariant
  import opened DeliveryProtocol

  // ---------------------------------------------------------------- changes of one pump

  /** Replacing the pump of `o` is harmless: it fits the state and drops no open send. */
  ghost predicate PumpChangeOk(s: System, o: string, pump: Pump) {
    && o in s.live
    && PumpOk(WithPump(s, o, pump), o)
    && (forall id, p :: p in s.live && p != o && Engaged(s.live[p], id) ==> !Engaged(pump, id))
    && (forall id :: Exposed(s.live[o], id) && !Exposed(pump, id) && OwnedBy(s.ledger, id, o) ==>
          s.ledger.blocked.Some? || Count(s.sends, id) == Count(s.lostBlocks, id))
  }

  lemma PumpChangeKeepsInv(h: Hashes, s: System, o: string, pump: Pump)
    requires Inv(h, s) && PumpChangeOk(s, o, pump)
    ensures Inv(h, WithPump(s, o, pump))
  {
    var t := WithPump(s, o, pump);
    forall id
      ensures IdOk(t, id)
    {
      assert IdOk(s, id);
    }
    forall p | p in t.live
      ensures PumpOk(t, p)
    {
      if p != o {
        assert PumpOk(s, p);
      }
    }
  }

  /** A pump that is not engaged may always give up. */
  lemma PumpMayIdle(h: Hashes, s: System, o: string)
    requires Inv(h, s) && o in s.live && !s.live[o].InFlight? && !s.live[o].Undelivered? && !s.live[o].Claimed?
    ensures Inv(h, WithPump(s, o, Idle)) && Inv(h, WithPump(s, o, NeedsBlock))
  {
    PumpChangeKeepsInv(h, s, o, Idle);
    PumpChangeKeepsInv(h, s, o, NeedsBlock);
  }

  // ---------------------------------------------------------------- invokers come and go

  lemma BootKeepsInv(h: Hashes, s: System, o: string)
    requires Inv(h, s) && o !in s.used && o != ""
    ensures Inv(h, WithPump(s, o, Idle).(used := s.used + {o}))
  {
    var t := WithPump(s, o, Idle).(used := s.used + {o});
    forall id
      ensures IdOk(t, id)
    {
      assert IdOk(s, id);
    }
    forall p | p in t.live
      ensures PumpOk(t, p)
    {
      if p != o {
        assert PumpOk(s, p);
      }
    }
  }

  lemma CrashKeepsInv(h: Hashes, s: System, gone: set<string>)
    requires Inv(h, s)
    ensures Inv(h, s.(live := s.live - gone))
  {
    var t := s.(live := s.live - gone);
    forall id
      ensures IdOk(t, id)
    {
      assert IdOk(s, id);
    }
    forall p | p in t.live
      ensures PumpOk(t, p)
    {
      assert PumpOk(s, p);
    }
  }

  // ---------------------------------------------------------------- ledger mutations

  /** A mutation that registers nothing and releases no prepared record. */
  lemma QuietChangeKeepsInv(h: Hashes, s: System, ledger: Ledger)
    requires Inv(h, s) && Evolves(h, s.ledger, ledger) && ledger.operations.Keys <= s.ledger.operations.Keys
    requires forall id :: id in ledger.operations ==>
               s.ledger.operations[id].Prepared? || s.ledger.operations[id].Queued? ==>
               ledger.operations[id] == s.ledger.operations[id]
    requires forall id :: id in s.ledger.operations && s.ledger.operations[id].Prepared? ==> id in ledger.operations
    ensures Inv(h, s.(ledger := ledger))
  {
    forall id | id in s.ledger.operations && id in ledger.operations
      ensures ChangeOk(s, id, s.ledger.operations[id], ledger.operations[id])
    {
    }
    LedgerChangeKeepsInv(h, s, ledger, s.registered);
    assert s.(ledger := ledger, registered := s.registered) == s.(ledger := ledger);
  }

  lemma CompactionKeepsInv(h: Hashes, s: System, ledger: Ledger, terminalLimit: nat, cleanedLimit: nat, clock: int)
    requires Inv(h, s) && Compacted(h, s.ledger, ledger, terminalLimit, cleanedLimit, clock)
    ensures Inv(h, s.(ledger := ledger))
  {
    CompactionEvolves(h, s.ledger, ledger, terminalLimit, cleanedLimit, clock);
    CompactionAdvances(s.ledger, ledger, terminalLimit, cleanedLimit, clock);
    QuietChangeKeepsInv(h, s, ledger);
  }

  /** Registration adds one record of a new id, or nothing. */
  lemma RegisteredRecord(h: Hashes, l: Ledger, request: RootRequest, now: int)
    requires FilterOk(l.retired)
    ensures var post, id := Register(h, l, request, h.fingerprint(request), now).0, request.requestId;
            post == l
            || (id !in l.operations && !Known(h, l, id) && id in post.operations
                && post.operations == l.operations[id := post.operations[id]]
                && !post.operations[id].Cleaned? && post.operations[id].request == request
                && (post.operations[id].Prepared? ==> post.operations[id].owner.None?))
  {
    hide RetiredFilterHas, FilterOk;
  }

  lemma RegistrationFits(h: Hashes, s: System, request: RootRequest, now: int)
    requires LedgerOk(h, s.ledger) && RequestsMatch(s.ledger) && RegisteredOk(h, s)
    ensures var ledger := Register(h, s.ledger, request, h.fingerprint(request), now).0;
            LedgerChangeOk(h, s, ledger, s.registered + (ledger.operations.Keys - s.ledger.operations.Keys))
  {
    hide RetiredFilterHas, Register, Known;
    RegisterEvolves(h, s.ledger, request, now);
    RegisteredRecord(h, s.ledger, request, now);
    hide Evolves;
  }

  lemma RegisterKeepsInv(h: Hashes, s: System, request: RootRequest, now: int)
    requires Inv(h, s)
    ensures var ledger := Register(h, s.ledger, request, h.fingerprint(request), now).0;
            Inv(h, s.(ledger := ledger, registered := s.registered + (ledger.operations.Keys - s.ledger.operations.Keys)))
  {
    hide Register, LedgerChangeOk, RequestsMatch, RegisteredOk, IdOk, PumpOk;
    var ledger := Register(h, s.ledger, request, h.fingerprint(request), now).0;
    RegistrationFits(h, s, request, now);
    LedgerChangeKeepsInv(h, s, ledger, s.registered + (ledger.operations.Keys - s.ledger.operations.Keys));
  }

  lemma PromotionFits(h: Hashes, s: System, now: int)
    requires LedgerOk(h, s.ledger) && RequestsMatch(s.ledger) && RegisteredOk(h, s)
    ensures Promote(s.ledger, now).Some? && LedgerChangeOk(h, s, Promote(s.ledger, now).value.0, s.registered)
  {
    hide RetiredFilterHas, Known;
    PromoteEvolves(h, s.ledger, now);
    hide Evolves;
  }

  lemma PromoteKeepsInv(h: Hashes, s: System, now: int)
    requires Inv(h, s)
    ensures Promote(s.ledger, now).Some? && Inv(h, s.(ledger := Promote(s.ledger, now).value.0))
  {
    PromotionFits(h, s, now);
    hide Promote, LedgerChangeOk, RequestsMatch, IdOk, PumpOk, SingleEngagement;
    var ledger := Promote(s.ledger, now).value.0;
    LedgerChangeKeepsInv(h, s, ledger, s.registered);
    assert s.(ledger := ledger, registered := s.registered) == s.(ledger := ledger);
  }

  lemma ClaimKeepsInv(h: Hashes, s: System, id: RequestId, o: string, now: int)
    requires Inv(h, s) && o in s.used
    ensures Inv(h, s.(ledger := Claim(s.ledger, id, o, now).0))
  {
    hide IdOk, PumpOk, Evolves, SingleEngagement;
    ClaimEvolves(h, s.ledger, id, o, now);
    var ledger := Claim(s.ledger, id, o, now).0;
    LedgerChangeKeepsInv(h, s, ledger, s.registered);
    assert s.(ledger := ledger, registered := s.registered) == s.(ledger := ledger);
  }

  lemma DeliveryKeepsInv(h: Hashes, s: System, id: RequestId, o: string, cursor: SessionState, now: int)
    requires Inv(h, s) && Released(s, id) && RecordDelivery(s.ledger, id, o, cursor, now).Some?
    ensures Inv(h, s.(ledger := RecordDelivery(s.ledger, id, o, cursor, now).value))
  {
    RecordDeliveryEvolves(h, s.ledger, id, o, cursor, now);
    var ledger := RecordDelivery(s.ledger, id, o, cursor, now).value;
    LedgerChangeKeepsInv(h, s, ledger, s.registered);
    assert s.(ledger := ledger, registered := s.registered) == s.(ledger := ledger);
  }

  lemma CursorKeepsInv(h: Hashes, s: System, id: RequestId, cursor: SessionState, now: int)
    requires Inv(h, s) && IsResumable(cursor) && PersistDeliveredCursor(s.ledger, id, cursor, now).Some?
    ensures Inv(h, s.(ledger := PersistDeliveredCursor(s.ledger, id, cursor, now).value))
  {
    PersistDeliveredCursorEvolves(h, s.ledger, id, cursor, now);
    QuietChangeKeepsInv(h, s, PersistDeliveredCursor(s.ledger, id, cursor, now).value);
  }

  lemma TerminalKeepsInv(h: Hashes, s: System, request: RootRequest, result: RootResult, cursor: SessionState, now: int)
    requires Inv(h, s) && Holds(s, request) && result.requestId == request.requestId
    requires RecordTerminal(s.ledger, request, result, cursor, now).Some?
    ensures Inv(h, s.(ledger := RecordTerminal(s.ledger, request, result, cursor, now).value))
  {
    RecordTerminalEvolves(h, s.ledger, request, result, cursor, now);
    QuietChangeKeepsInv(h, s, RecordTerminal(s.ledger, request, result, cursor, now).value);
  }

  lemma BlockKeepsInv(h: Hashes, s: System, reason: string)
    requires Inv(h, s) && reason != ""
    ensures Inv(h, s.(ledger := Block(s.ledger, reason)))
  {
    BlockEvolves(h, s.ledger, reason);
    QuietChangeKeepsInv(h, s, Block(s.ledger, reason));
  }

  // ---------------------------------------------------------------- one step

  lemma SendKeepsInv(h: Hashes, s: System, o: string)
    requires Inv(h, s) && o in s.live && s.live[o].Claimed?
    ensures Inv(h, WithPump(s, o, InFlight(s.live[o].op)).(sends := Plus(s.sends, s.live[o].op.base.requestId)))
  {
    var op, id := s.live[o].op, s.live[o].op.base.requestId;
    var t := WithPump(s, o, InFlight(op)).(sends := Plus(s.sends, id));
    assert PumpOk(s, o) && Engaged(s.live[o], id);
    forall other
      ensures IdOk(t, other)
    {
      assert IdOk(s, other);
    }
    forall p | p in t.live
      ensures PumpOk(t, p)
    {
      assert PumpOk(s, p);
      assert p != o ==> !Engaged(s.live[p], id);
    }
  }

  lemma LostBlockKeepsInv(h: Hashes, s: System, o: string)
    requires Inv(h, s) && o in s.live && s.live[o].Undelivered? && s.live[o].sent
    ensures Inv(h, WithPump(s, o, Idle).(lostBlocks := Plus(s.lostBlocks, s.live[o].op.base.requestId)))
  {
    var id := s.live[o].op.base.requestId;
    var t := WithPump(s, o, Idle).(lostBlocks := Plus(s.lostBlocks, id));
    assert PumpOk(s, o) && Engaged(s.live[o], id);
    forall other
      ensures IdOk(t, other)
    {
      assert IdOk(s, other);
    }
    forall p | p in t.live
      ensures PumpOk(t, p)
    {
      assert PumpOk(s, p);
      assert p != o ==> !Engaged(s.live[p], id);
    }
  }

  lemma FetchActiveKeepsInv(h: Hashes, s: System, o: string, id: RequestId)
    requires Inv(h, s) && o in s.live && s.live[o].Idle? && s.ledger.blocked.None?
    requires id in s.ledger.operations && IsActiveState(s.ledger.operations[id])
    ensures Inv(h, WithPump(s, o, Fetched(s.ledger.operations[id])))
  {
    var op := s.ledger.operations[id];
    assert op.base.requestId == id by {
      assert OperationOk(h, id, op);
    }
    assert IdOk(s, id);
    PumpChangeKeepsInv(h, s, o, Fetched(op));
  }

  lemma FetchNextKeepsInv(h: Hashes, s: System, step: Step, t: System)
    requires Inv(h, s) && step.FetchNext? && Next(h, s, step, t)
    ensures Inv(h, t)
  {
    var now := NextTimestamp(s.ledger, step.clock);
    PromoteKeepsInv(h, s, now);
    var mid := s.(ledger := Promote(s.ledger, now).value.0);
    var next := Promote(s.ledger, now).value.1;
    if step.write.Reported? && next.Some? {
      assert mid.ledger.active.Some? && next.value == mid.ledger.operations[mid.ledger.active.value];
      FetchActiveKeepsInv(h, mid, step.owner, mid.ledger.active.value);
    } else {
      PumpMayIdle(h, mid, step.owner);
    }
  }

  lemma ClaimStepKeepsInv(h: Hashes, s: System, step: Step, t: System)
    requires Inv(h, s) && step.ClaimPrepared? && Next(h, s, step, t)
    ensures Inv(h, t)
  {
    var o, id := step.owner, s.live[step.owner].op.base.requestId;
    var (ledger, claimed) := Claim(s.ledger, id, o, NextTimestamp(s.ledger, step.clock));
    var mid := if step.write.Lost? then s else s.(ledger := ledger);
    ClaimKeepsInv(h, s, id, o, NextTimestamp(s.ledger, step.clock));
    if t.live[o].Claimed? {
      ClaimedPumpFits(h, s, mid, o, claimed.value);
      PumpChangeKeepsInv(h, mid, o, Claimed(claimed.value));
    } else {
      PumpMayIdle(h, mid, o);
    }
  }

  lemma ClaimedPumpFits(h: Hashes, s: System, mid: System, o: string, claimed: Operation)
    requires Inv(h, s) && Inv(h, mid) && o in s.live && s.live[o].Fetched? && mid == s.(ledger := mid.ledger)
    requires var id := s.live[o].op.base.requestId;
             && OwnedBy(mid.ledger, id, o) && mid.ledger.operations[id] == claimed
    ensures PumpChangeOk(mid, o, Claimed(claimed))
  {
    var id := s.live[o].op.base.requestId;
    assert OperationOk(h, id, claimed);
    assert PumpOk(mid, o);
    forall p | p in mid.live && p != o
      ensures !Engaged(mid.live[p], id)
    {
      assert PumpOk(mid, p);
    }
  }

  lemma DeliverKeepsInv(h: Hashes, s: System, step: Step, t: System)
    requires Inv(h, s) && step.Deliver? && Next(h, s, step, t)
    ensures Inv(h, t)
  {
    hide Inv, PumpOk, IdOk, Promote, Claim, Register, Block, PersistDeliveredCursor, RecordTerminal, Compacted;
    var o, op := step.owner, s.live[step.owner].op;
    var id, now := op.base.requestId, NextTimestamp(s.ledger, step.clock);
    ExposedMayWait(h, s, o);
    var waiting := WithPump(s, o, Undelivered(op, true));
    var spec := RecordDelivery(s.ledger, id, o, step.cursor, now);
    if spec.Some? && !step.write.Lost? {
      WaitingIsReleased(h, waiting, o);
      DeliveryKeepsInv(h, waiting, id, o, step.cursor, now);
      var delivered := waiting.(ledger := spec.value);
      if step.write.Reported? {
        DeliveredMayDrain(h, delivered, o);
        assert t == WithPump(delivered, o, Draining(op.request, 0));
      } else {
        assert t == delivered;
      }
    }
  }

  lemma WaitingIsReleased(h: Hashes, s: System, o: string)
    requires Inv(h, s) && o in s.live && s.live[o].Undelivered? && s.live[o].sent
    ensures Released(s, s.live[o].op.base.requestId)
  {
    assert Engaged(s.live[o], s.live[o].op.base.requestId);
  }

  lemma ExposedMayWait(h: Hashes, s: System, o: string)
    requires Inv(h, s) && o in s.live && s.live[o].InFlight?
    ensures Inv(h, WithPump(s, o, Undelivered(s.live[o].op, true)))
  {
    assert PumpOk(s, o) && Engaged(s.live[o], s.live[o].op.base.requestId);
    PumpChangeKeepsInv(h, s, o, Undelivered(s.live[o].op, true));
  }

  lemma DeliveredMayDrain(h: Hashes, s: System, o: string)
    requires Inv(h, s) && o in s.live && s.live[o].Undelivered? && s.live[o].op.Prepared?
    requires var id := s.live[o].op.base.requestId; id in s.ledger.operations && s.ledger.operations[id].Delivered?
    ensures Inv(h, WithPump(s, o, Draining(s.live[o].op.request, 0)))
  {
    assert PumpOk(s, o);
    PumpChangeKeepsInv(h, s, o, Draining(s.live[o].op.request, 0));
  }

  lemma BlockStepKeepsInv(h: Hashes, s: System, step: Step, t: System)
    requires Inv(h, s) && (step.BlockUndelivered? || step.BlockOther?) && Next(h, s, step, t)
    ensures Inv(h, t)
  {
    var o := step.owner;
    assert PumpOk(s, o);
    if !step.write.Lost? {
      BlockKeepsInv(h, s, step.reason);
      PumpChangeKeepsInv(h, s.(ledger := Block(s.ledger, step.reason)), o, Idle);
    } else if s.live[o].Undelivered? && s.live[o].sent {
      LostBlockKeepsInv(h, s, o);
    } else {
      PumpChangeKeepsInv(h, s, o, Idle);
    }
  }

  lemma DrainingMayContinueOrIdle(h: Hashes, s: System, o: string)
    requires Inv(h, s) && o in s.live && s.live[o].Draining?
    ensures Inv(h, WithPump(s, o, Idle))
    ensures Inv(h, WithPump(s, o, Draining(s.live[o].request, s.live[o].replays + 1)))
  {
    assert PumpOk(s, o);
    PumpChangeKeepsInv(h, s, o, Idle);
    PumpChangeKeepsInv(h, s, o, Draining(s.live[o].request, s.live[o].replays + 1));
  }

  lemma CursorWriteKeepsInv(h: Hashes, s: System, o: string, cursor: SessionState, now: int)
    requires Inv(h, s) && o in s.live && s.live[o].Draining? && IsResumable(cursor)
    requires PersistDeliveredCursor(s.ledger, s.live[o].request.requestId, cursor, now).Some?
    ensures var written := s.(ledger := PersistDeliveredCursor(s.ledger, s.live[o].request.requestId, cursor, now).value);
            && Inv(h, WithPump(written, o, Idle))
            && Inv(h, WithPump(written, o, Draining(s.live[o].request, s.live[o].replays + 1)))
  {
    var id := s.live[o].request.requestId;
    CursorKeepsInv(h, s, id, cursor, now);
    DrainingMayContinueOrIdle(h, s.(ledger := PersistDeliveredCursor(s.ledger, id, cursor, now).value), o);
  }

  /** What draining a stale turn can leave behind. */
  ghost predicate StaleTurnDrained(s: System, o: string, cursor: SessionState, now: int, t: System) {
    && o in s.live && s.live[o].Draining? && IsResumable(cursor)
    && var request := s.live[o].request;
       var spec := PersistDeliveredCursor(s.ledger, request.requestId, cursor, now);
       || t == WithPump(s, o, Idle)
       || (spec.Some? && t == WithPump(s.(ledger := spec.value), o, Idle))
       || (spec.Some? && t == WithPump(s.(ledger := spec.value), o, Draining(request, s.live[o].replays + 1)))
  }

  lemma DrainStaleOutcome(h: Hashes, s: System, step: Step, t: System)
    requires step.DrainStaleTurn? && Next(h, s, step, t)
    ensures StaleTurnDrained(s, step.owner, step.turn.sessionState, NextTimestamp(s.ledger, step.clock), t)
  {
    RecordedResultAnswersItsRequest(s.live[step.owner].request, step.turn, s.live[step.owner].replays, true);
  }

  lemma DrainStaleKeepsInv(h: Hashes, s: System, o: string, cursor: SessionState, now: int, t: System)
    requires Inv(h, s) && StaleTurnDrained(s, o, cursor, now, t)
    ensures Inv(h, t)
  {
    if t == WithPump(s, o, Idle) {
      DrainingMayContinueOrIdle(h, s, o);
    } else {
      CursorWriteKeepsInv(h, s, o, cursor, now);
    }
  }

  lemma FinishKeepsInv(h: Hashes, s: System, step: Step, t: System)
    requires Inv(h, s) && step.FinishTurn? && Next(h, s, step, t)
    ensures Inv(h, t)
  {
    var o, request := step.owner, s.live[step.owner].request;
    RecordedResultAnswersItsRequest(request, step.turn, s.live[o].replays, step.canConsume);
    var result, now := DecideTurn(request, step.turn, s.live[o].replays, step.canConsume).result, NextTimestamp(s.ledger, step.clock);
    var spec := RecordTerminal(s.ledger, request, result, step.turn.sessionState, now);
    assert PumpOk(s, o);
    if spec.None? || step.write.Lost? {
      PumpMayIdle(h, s, o);
    } else {
      TerminalKeepsInv(h, s, request, result, step.turn.sessionState, now);
      var mid := s.(ledger := spec.value);
      CompactionKeepsInv(h, mid, t.ledger, step.terminalLimit, step.cleanedLimit, step.compactionClock);
      PumpMayIdle(h, mid.(ledger := t.ledger), o);
    }
  }

  lemma RegisterStepKeepsInv(h: Hashes, s: System, step: Step, t: System)
    requires Inv(h, s) && step.RegisterRequest? && Next(h, s, step, t)
    ensures Inv(h, t)
  {
    CompactionKeepsInv(h, s, step.compacted, step.terminalLimit, step.cleanedLimit, step.compactionClock);
    RegisterKeepsInv(h, s.(ledger := step.compacted), step.request, NextTimestamp(step.compacted, step.clock));
  }

  lemma PumpOnlyChangeFits(h: Hashes, s: System, step: Step, t: System)
    requires Inv(h, s) && Next(h, s, step, t)
    requires step.RefuseForeign? || step.SendSkipped? || step.RunFails? || step.Recover? || step.PumpFails?
    ensures PumpChangeOk(s, step.owner, t.live[step.owner])
  {
    hide LedgerOk, RequestsMatch, RegisteredOk, OwnersUsed, Promote, Claim, Register, Block, RecordDelivery, PersistDeliveredCursor, RecordTerminal, Compacted;
    assert PumpOk(s, step.owner);
  }

  lemma PumpOnlyStepKeepsInv(h: Hashes, s: System, step: Step, t: System)
    requires Inv(h, s) && Next(h, s, step, t)
    requires step.RefuseForeign? || step.SendSkipped? || step.RunFails? || step.Recover? || step.PumpFails?
    ensures Inv(h, t)
  {
    var o := step.owner;
    assert t == WithPump(s, o, t.live[o]);
    PumpOnlyChangeFits(h, s, step, t);
    PumpChangeKeepsInv(h, s, o, t.live[o]);
  }

  lemma LedgerOnlyStepKeepsInv(h: Hashes, s: System, step: Step, t: System)
    requires Inv(h, s) && Next(h, s, step, t) && (step.WriteCursorOnly? || step.Reload?)
    ensures Inv(h, t)
  {
    if step.Reload? {
      ReloadAccepted(h, s.ledger);
      QuietChangeKeepsInv(h, s, Normalized(s.ledger));
    } else {
      WriteCursorEvolves(h, s.ledger, step.state);
      QuietChangeKeepsInv(h, s, WriteCursor(s.ledger, step.state).value);
    }
  }

  lemma NextKeepsInv(h: Hashes, s: System, step: Step, t: System)
    requires Inv(h, s) && Next(h, s, step, t)
    ensures Inv(h, t)
  {
    hide Inv, Promote, Claim, RecordDelivery, PersistDeliveredCursor, RecordTerminal, Register;
    match step
    case Boot(o) => BootKeepsInv(h, s, o);
    case Crash(gone) => CrashKeepsInv(h, s, gone);
    case RegisterRequest(_, _, _, _, _, _, _, _) => RegisterStepKeepsInv(h, s, step, t);
    case FetchActive(o) => FetchActiveKeepsInv(h, s, o, s.ledger.active.value);
    case FetchNext(_, _, _) => FetchNextKeepsInv(h, s, step, t);
    case ClaimPrepared(_, _, _) => ClaimStepKeepsInv(h, s, step, t);
    case Send(o) => SendKeepsInv(h, s, o);
    case Deliver(_, _, _, _) => DeliverKeepsInv(h, s, step, t);
    case BlockUndelivered(_, _, _) => BlockStepKeepsInv(h, s, step, t);
    case BlockOther(_, _, _) => BlockStepKeepsInv(h, s, step, t);
    case DrainStaleTurn(o, turn, clock, _) =>
      DrainStaleOutcome(h, s, step, t);
      DrainStaleKeepsInv(h, s, o, turn.sessionState, NextTimestamp(s.ledger, clock), t);
    case FinishTurn(_, _, _, _, _, _, _, _) => FinishKeepsInv(h, s, step, t);
    case WriteCursorOnly(_) => LedgerOnlyStepKeepsInv(h, s, step, t);
    case Reload => LedgerOnlyStepKeepsInv(h, s, step, t);
    case _ => PumpOnlyStepKeepsInv(h, s, step, t);
  }
}
