/** What holds along every run of the delivery protocol from an empty session. */
module DeliveryRuns {
  import opened Common
  import opened RetiredFilter
  import opened RootLedger
  import opened LedgerInvariant
  import opened Retention
  import opened DeliveryProtocol
  import opened DeliverySafety

  ghost predicate IsRun(h: Hashes, states: seq<System>, steps: seq<Step>) {
    && |states| == |steps| + 1
    && states[0] == InitialSystem
    && forall i :: 0 <= i < |steps| ==> Next(h, states[i], steps[i], states[i + 1])
  }

  lemma InitialInv(h: Hashes)
    ensures Inv(h, InitialSystem)
  {
  }

  /** A run without its last step is a run. */
  lemma RunPrefix(h: Hashes, states: seq<System>, steps: seq<Step>)
    requires IsRun(h, states, steps) && |steps| > 0
    ensures var n := |steps| - 1; IsRun(h, states[..n + 1], steps[..n]) && Next(h, states[n], steps[n], states[n + 1])
  {
    hide Next;
    var n := |steps| - 1;
    assert forall i :: 0 <= i < n ==> steps[..n][i] == steps[i] && states[..n + 1][i + 1] == states[i + 1];
  }

  lemma {:induction false} RunKeepsInv(h: Hashes, states: seq<System>, steps: seq<Step>)
    requires IsRun(h, states, steps)
    ensures Inv(h, states[|steps|])
  {
    hide Next, Inv;
    if |steps| == 0 {
      InitialInv(h);
    } else {
      var n := |steps| - 1;
      RunPrefix(h, states, steps);
      RunKeepsInv(h, states[..n + 1], steps[..n]);
      NextKeepsInv(h, states[n], steps[n], states[n + 1]);
    }
  }

  /** Along every run the stored ledger is one that a reload accepts. */
  lemma WrittenLedgerIsAccepted(h: Hashes, states: seq<System>, steps: seq<Step>)
    requires IsRun(h, states, steps)
    ensures LedgerOk(h, states[|steps|].ledger)
  {
    RunKeepsInv(h, states, steps);
  }

  // ---------------------------------------------------------------- a request is never forgotten

  lemma NextKeepsRegistered(h: Hashes, s: System, step: Step, t: System)
    requires Next(h, s, step, t)
    ensures s.registered <= t.registered
    ensures forall id :: Count(s.sends, id) <= Count(t.sends, id)
    ensures forall id :: Count(s.lostBlocks, id) <= Count(t.lostBlocks, id)
  {
    hide Register, Promote, Claim, RecordDelivery, PersistDeliveredCursor, RecordTerminal, Block, Compacted;
  }

  lemma {:induction false} RunKeepsRegistered(h: Hashes, states: seq<System>, steps: seq<Step>, i: nat)
    requires IsRun(h, states, steps) && i <= |steps|
    ensures states[i].registered <= states[|steps|].registered
    ensures forall id :: Count(states[i].lostBlocks, id) <= Count(states[|steps|].lostBlocks, id)
    decreases |steps| - i
  {
    if i < |steps| {
      NextKeepsRegistered(h, states[i], steps[i], states[i + 1]);
      RunKeepsRegistered(h, states, steps, i + 1);
    }
  }

  /**
   * An id registered at any point of a run is known forever after, and registering it again
   * changes nothing: it never gets a second operation.
   */
  lemma RegisteredIdIsNeverForgotten(h: Hashes, states: seq<System>, steps: seq<Step>, i: nat, request: RootRequest,
                                     fingerprint: string, now: int)
    requires IsRun(h, states, steps) && i <= |steps| && request.requestId in states[i].registered
    ensures var ledger := states[|steps|].ledger;
            && FilterOk(ledger.retired)
            && Known(h, ledger, request.requestId)
            && Register(h, ledger, request, fingerprint, now).0 == ledger
  {
    RunKeepsInv(h, states, steps);
    RunKeepsRegistered(h, states, steps, i);
    assert Known(h, states[|steps|].ledger, request.requestId);
  }

  /**
   * Registering a known id again, with the compaction that comes first: no record is added or
   * changed but by that compaction, the set of registered ids stays, and no operation is queued.
   */
  lemma ReRegistrationAddsNothing(h: Hashes, states: seq<System>, steps: seq<Step>, i: nat, step: Step, t: System)
    requires IsRun(h, states, steps) && i <= |steps| && step.RegisterRequest?
    requires step.request.requestId in states[i].registered && Next(h, states[|steps|], step, t)
    ensures t.registered == states[|steps|].registered && t.ledger == step.compacted
    ensures t.ledger.operations.Keys <= states[|steps|].ledger.operations.Keys
    ensures t.ledger.queue == states[|steps|].ledger.queue && t.ledger.active == states[|steps|].ledger.active
    ensures FilterOk(t.ledger.retired) && Known(h, t.ledger, step.request.requestId)
  {
    hide Inv, Next, Known, Register, Compacted, RecordsCompacted, LedgerOk, Evolves;
    var s, id := states[|steps|], step.request.requestId;
    RunKeepsInv(h, states, steps);
    KnownInRun(h, states, steps, i, id);
    RegisterStepIs(h, s, step, t);
    CompactionEvolves(h, s.ledger, step.compacted, step.terminalLimit, step.cleanedLimit, step.compactionClock);
    EvolvesKeepsKnown(h, s.ledger, step.compacted, id);
    CompactedIsRecords(h, s.ledger, step.compacted, step.terminalLimit, step.cleanedLimit, step.compactionClock);
    CompactionAdvances(s.ledger, step.compacted, step.terminalLimit, step.cleanedLimit, step.compactionClock);
    KnownIdIsNotRegisteredAgain(h, step.compacted, step.request, h.fingerprint(step.request), NextTimestamp(step.compacted, step.clock));
    assert s.registered + (t.ledger.operations.Keys - step.compacted.operations.Keys) == s.registered;
  }

  lemma KnownInRun(h: Hashes, states: seq<System>, steps: seq<Step>, i: nat, id: RequestId)
    requires IsRun(h, states, steps) && i <= |steps| && id in states[i].registered
    ensures LedgerOk(h, states[|steps|].ledger) && FilterOk(states[|steps|].ledger.retired) && Known(h, states[|steps|].ledger, id)
  {
    hide Next, PumpOk, IdOk, SingleEngagement, OwnersUsed, RequestsMatch;
    RunKeepsInv(h, states, steps);
    RunKeepsRegistered(h, states, steps, i);
  }

  lemma RegisterStepIs(h: Hashes, s: System, step: Step, t: System)
    requires step.RegisterRequest? && Next(h, s, step, t)
    ensures FilterOk(step.compacted.retired)
    ensures Compacted(h, s.ledger, step.compacted, step.terminalLimit, step.cleanedLimit, step.compactionClock)
    ensures t.ledger == Register(h, step.compacted, step.request, h.fingerprint(step.request), NextTimestamp(step.compacted, step.clock)).0
    ensures t.registered == s.registered + (t.ledger.operations.Keys - step.compacted.operations.Keys)
  {
    hide Compacted, Register;
  }

  lemma CompactedIsRecords(h: Hashes, pre: Ledger, post: Ledger, terminalLimit: nat, cleanedLimit: nat, clock: int)
    requires Compacted(h, pre, post, terminalLimit, cleanedLimit, clock)
    ensures RecordsCompacted(pre, post, terminalLimit, cleanedLimit, clock)
  {
  }

  // ---------------------------------------------------------------- at most one send

  /** The step loses the write that should block the session after a failed delivery. */
  predicate LosesBlock(s: System, step: Step) {
    && step.BlockUndelivered? && step.write.Lost?
    && step.owner in s.live && s.live[step.owner].Undelivered? && s.live[step.owner].sent
  }

  lemma {:induction false} NoLostBlocks(h: Hashes, states: seq<System>, steps: seq<Step>)
    requires IsRun(h, states, steps)
    requires forall i :: 0 <= i < |steps| ==> !LosesBlock(states[i], steps[i])
    ensures states[|steps|].lostBlocks == map[]
  {
    if |steps| > 0 {
      var n := |steps| - 1;
      RunPrefix(h, states, steps);
      NoLostBlocks(h, states[..n + 1], steps[..n]);
      assert !LosesBlock(states[n], steps[n]);
    }
  }

  /** Each request is sent at most once, plus once for every block write lost after a send. */
  lemma SendsAreBounded(h: Hashes, states: seq<System>, steps: seq<Step>, id: RequestId)
    requires IsRun(h, states, steps)
    ensures var s := states[|steps|];
            Count(s.lostBlocks, id) <= Count(s.sends, id) <= Count(s.lostBlocks, id) + 1
  {
    RunKeepsInv(h, states, steps);
    assert IdOk(states[|steps|], id);
  }

  /** If every block write after an undelivered send takes effect, nothing is sent twice. */
  lemma AtMostOneSend(h: Hashes, states: seq<System>, steps: seq<Step>, id: RequestId)
    requires IsRun(h, states, steps)
    requires forall i :: 0 <= i < |steps| ==> !LosesBlock(states[i], steps[i])
    ensures Count(states[|steps|].sends, id) <= 1
  {
    NoLostBlocks(h, states, steps);
    SendsAreBounded(h, states, steps, id);
  }

  /** When a claimed request is about to be sent, it was sent before exactly if a block write was lost. */
  lemma SendRepeatsIffBlockWasLost(h: Hashes, states: seq<System>, steps: seq<Step>, o: string)
    requires IsRun(h, states, steps)
    requires var s := states[|steps|]; o in s.live && s.live[o].Claimed?
    ensures var s := states[|steps|]; var id := s.live[o].op.base.requestId;
            Count(s.sends, id) > 0 <==> Count(s.lostBlocks, id) > 0
  {
    RunKeepsInv(h, states, steps);
    assert PumpOk(states[|steps|], o);
  }

  /**
   * Losing that write does break the promise: while the record is still prepared and the
   * session open, the same invoker fetches, claims and sends the request again.
   */
  lemma LostBlockLeadsToResend(h: Hashes, s: System, o: string, reason: string, clock: int)
    returns (path: seq<System>, steps: seq<Step>)
    requires Inv(h, s) && o in s.live && s.live[o].Undelivered? && s.live[o].sent && reason != ""
    requires var id := s.live[o].op.base.requestId;
             s.ledger.blocked.None? && id in s.ledger.operations && s.ledger.operations[id].Prepared?
    ensures |steps| == 4 && |path| == 5 && path[0] == s && LosesBlock(s, steps[0])
    ensures steps[1].FetchActive? && steps[2].ClaimPrepared? && steps[3].Send?
    ensures forall i :: 0 <= i < 4 ==> Next(h, path[i], steps[i], path[i + 1])
    ensures Count(path[4].sends, s.live[o].op.base.requestId) >= 2
    ensures path[4].sends == Plus(s.sends, s.live[o].op.base.requestId)
  {
    hide Inv;
    var id := s.live[o].op.base.requestId;
    UndeliveredStillOwns(h, s, o);
    steps := [BlockUndelivered(o, reason, Lost), FetchActive(o), ClaimPrepared(o, clock, Reported), Send(o)];
    var lost := WithPump(s.(lostBlocks := Plus(s.lostBlocks, id)), o, Idle);
    path := [s, lost] + ResendPath(h, lost, o, id, clock);
  }

  lemma UndeliveredStillOwns(h: Hashes, s: System, o: string)
    requires Inv(h, s) && o in s.live && s.live[o].Undelivered?
    requires var id := s.live[o].op.base.requestId; id in s.ledger.operations && s.ledger.operations[id].Prepared?
    ensures var id := s.live[o].op.base.requestId;
            && OwnedBy(s.ledger, id, o) && s.ledger.active == Some(id) && s.ledger.operations[id].base.requestId == id
            && Count(s.sends, id) >= (if s.live[o].sent then 1 else 0)
  {
    var id := s.live[o].op.base.requestId;
    assert PumpOk(s, o);
    assert OperationOk(h, id, s.ledger.operations[id]);
  }

  /** An idle pump whose own claim is still stored sends it. */
  ghost function ResendPath(h: Hashes, s: System, o: string, id: RequestId, clock: int): (path: seq<System>)
    requires o in s.live && s.live[o].Idle? && s.ledger.blocked.None?
    requires s.ledger.active == Some(id) && OwnedBy(s.ledger, id, o) && s.ledger.operations[id].base.requestId == id
    ensures |path| == 3
    ensures Next(h, s, FetchActive(o), path[0])
    ensures Next(h, path[0], ClaimPrepared(o, clock, Reported), path[1])
    ensures Next(h, path[1], Send(o), path[2])
    ensures path[2].sends == Plus(s.sends, id)
  {
    var op := s.ledger.operations[id];
    var fetched := WithPump(s, o, Fetched(op));
    var claimed := WithPump(fetched, o, Claimed(op));
    assert fetched.(ledger := s.ledger) == fetched;
    [fetched, claimed, WithPump(claimed, o, InFlight(op)).(sends := Plus(s.sends, id))]
  }

  /** A fresh session in which one request was registered and is not claimed yet. */
  function LedgerOfOne(h: Hashes, request: RootRequest, now: int): Ledger {
    var base := OperationBase(request.requestId, h.fingerprint(request), now, now);
    EmptyLedger.(operations := map[request.requestId := Prepared(base, request, None, None)], active := Some(request.requestId))
  }

  lemma FirstRegistration(h: Hashes, request: RootRequest, fingerprint: string, now: int)
    ensures Compacted(h, EmptyLedger, EmptyLedger, 1, 1, 0)
    ensures fingerprint == h.fingerprint(request) ==>
              Register(h, EmptyLedger, request, fingerprint, now) == (LedgerOfOne(h, request, now), None)
  {
    assert TerminalIds(EmptyLedger) == {} && CleanedIds(EmptyLedger) == {};
    assert Chosen(EmptyLedger, 1, 1, {}, {}) && Applied(EmptyLedger, EmptyLedger, 0, {}, {});
    assert PositionsOf(h, {}) == {};
  }

  lemma OnlyKey(h: Hashes, request: RootRequest, now: int)
    ensures LedgerOfOne(h, request, now).operations.Keys - EmptyLedger.operations.Keys == {request.requestId}
  {
    assert EmptyLedger.operations.Keys == {};
    assert LedgerOfOne(h, request, now).operations.Keys == {request.requestId};
  }

  /** The session after `o` booted and registered the request. */
  ghost function RegisteredBy(h: Hashes, o: string, request: RootRequest): System {
    System(LedgerOfOne(h, request, NextTimestamp(EmptyLedger, 0)), map[o := Idle], {o}, {request.requestId}, map[], map[])
  }

  lemma BootAndRegister(h: Hashes, o: string, request: RootRequest)
    requires o != ""
    ensures var booted := WithPump(InitialSystem, o, Idle).(used := {o});
            && Next(h, InitialSystem, Boot(o), booted)
            && Next(h, booted, RegisterRequest(o, request, EmptyLedger, 1, 1, 0, 0, None), RegisteredBy(h, o, request))
  {
    hide Compacted, Register, RetiredFilterHas;
    FirstRegistration(h, request, h.fingerprint(request), NextTimestamp(EmptyLedger, 0));
    assert InitialSystem.used + {o} == {o};
    OnlyKey(h, request, NextTimestamp(EmptyLedger, 0));
    assert {} + {request.requestId} == {request.requestId};
  }

  /** Fetching, claiming and sending the one request, after which the transport fails. */
  ghost function FailedSend(h: Hashes, o: string, request: RootRequest): (path: seq<System>)
    ensures |path| == 4
    ensures Next(h, RegisteredBy(h, o, request), FetchActive(o), path[0])
    ensures Next(h, path[0], ClaimPrepared(o, 0, Reported), path[1])
    ensures Next(h, path[1], Send(o), path[2])
    ensures Next(h, path[2], RunFails(o), path[3])
    ensures var s := path[3];
            && o in s.live && s.live[o].Undelivered? && s.live[o].sent && s.live[o].op.base.requestId == request.requestId
            && s.ledger.blocked.None? && request.requestId in s.ledger.operations
            && s.ledger.operations[request.requestId].Prepared? && Count(s.sends, request.requestId) == 1
  {
    var s, id := RegisteredBy(h, o, request), request.requestId;
    var fetched := WithPump(s, o, Fetched(s.ledger.operations[id]));
    var (owned, claimed) := Claim(s.ledger, id, o, NextTimestamp(s.ledger, 0));
    var holding := WithPump(fetched.(ledger := owned), o, Claimed(claimed.value));
    var sent := WithPump(holding, o, InFlight(claimed.value)).(sends := Plus(map[], id));
    [fetched, holding, sent, WithPump(sent, o, Undelivered(claimed.value, true))]
  }

  /** A run from a fresh session in which one lost block write makes the same request go out twice. */
  lemma RequestIsSentTwice(h: Hashes, o: string, request: RootRequest, reason: string) returns (states: seq<System>, steps: seq<Step>)
    requires o != "" && reason != ""
    ensures IsRun(h, states, steps) && |steps| == 10
    ensures Count(states[10].sends, request.requestId) == 2
    ensures forall i :: 0 <= i < 10 ==> (LosesBlock(states[i], steps[i]) <==> i == 6)
  {
    hide Next, Inv, FailedSend, RegisteredBy, NextTimestamp;
    BootAndRegister(h, o, request);
    var booted := WithPump(InitialSystem, o, Idle).(used := {o});
    var sending := FailedSend(h, o, request);
    var before := [InitialSystem, booted, RegisteredBy(h, o, request)] + sending;
    var first := [Boot(o), RegisterRequest(o, request, EmptyLedger, 1, 1, 0, 0, None), FetchActive(o), ClaimPrepared(o, 0, Reported), Send(o),
                  RunFails(o)];
    assert IsRun(h, before, first);
    RunKeepsInv(h, before, first);
    var path, again := LostBlockLeadsToResend(h, before[6], o, reason, 0);
    states, steps := before + path[1..], first + again;
    RunContinues(h, before, first, path, again);
    assert states[10] == path[4];
    assert forall i :: 0 <= i < 6 ==> steps[i] == first[i];
    assert forall i :: 6 <= i < 10 ==> states[i] == path[i - 6] && steps[i] == again[i - 6];
  }

  lemma RunContinues(h: Hashes, states: seq<System>, steps: seq<Step>, path: seq<System>, more: seq<Step>)
    requires IsRun(h, states, steps) && |path| == |more| + 1 && path[0] == states[|steps|]
    requires forall i :: 0 <= i < |more| ==> Next(h, path[i], more[i], path[i + 1])
    ensures IsRun(h, states + path[1..], steps + more)
  {
    hide Next;
    var all, done := states + path[1..], steps + more;
    forall i | 0 <= i < |done|
      ensures Next(h, all[i], done[i], all[i + 1])
    {
      if i >= |steps| {
        assert all[i] == path[i - |steps|] && all[i + 1] == path[i - |steps| + 1] && done[i] == more[i - |steps|];
      }
    }
  }

  // ---------------------------------------------------------------- results stay retrievable

  predicate KeepsFullRecords(step: Step) {
    (step.RegisterRequest? || step.FinishTurn?) ==> step.terminalLimit >= 1 && step.cleanedLimit >= 1
  }

  ghost predicate SameCompleted(pre: Ledger, post: Ledger) {
    && (forall id :: id in pre.operations && IsCompleted(pre.operations[id]) ==>
          id in post.operations && post.operations[id] == pre.operations[id])
    && (forall id :: id in post.operations && IsCompleted(post.operations[id]) ==>
          id in pre.operations && IsCompleted(pre.operations[id]))
  }

  lemma SameCompletedKeepsRetention(pre: Ledger, post: Ledger)
    requires RetentionOk(pre) && SameCompleted(pre, post)
    ensures RetentionOk(post)
  {
    assert CompletedIds(post) == CompletedIds(pre);
    assert TerminalIds(post) == TerminalIds(pre);
  }

  lemma PromoteKeepsCompleted(l: Ledger, now: int)
    requires Promote(l, now).Some?
    ensures SameCompleted(l, Promote(l, now).value.0)
  {
  }

  lemma ClaimKeepsCompleted(l: Ledger, id: RequestId, o: string, now: int)
    ensures SameCompleted(l, Claim(l, id, o, now).0)
  {
  }

  lemma RegisterKeepsCompleted(h: Hashes, l: Ledger, request: RootRequest, fingerprint: string, now: int)
    requires FilterOk(l.retired)
    ensures SameCompleted(l, Register(h, l, request, fingerprint, now).0)
  {
  }

  lemma DeliveryKeepsCompleted(l: Ledger, id: RequestId, o: string, cursor: SessionState, now: int)
    requires RecordDelivery(l, id, o, cursor, now).Some?
    ensures SameCompleted(l, RecordDelivery(l, id, o, cursor, now).value)
  {
  }

  lemma CursorKeepsCompleted(l: Ledger, id: RequestId, cursor: SessionState, now: int)
    requires PersistDeliveredCursor(l, id, cursor, now).Some?
    ensures SameCompleted(l, PersistDeliveredCursor(l, id, cursor, now).value)
  {
  }

  lemma StepKeepsCompleted(h: Hashes, s: System, step: Step, t: System)
    requires Next(h, s, step, t) && !step.RegisterRequest? && !step.FinishTurn?
    ensures SameCompleted(s.ledger, t.ledger)
  {
    hide Promote, Claim, RecordDelivery, PersistDeliveredCursor, DecideTurn;
    var l := s.ledger;
    if step.FetchNext? {
      PromoteKeepsCompleted(l, NextTimestamp(l, step.clock));
    } else if step.ClaimPrepared? {
      ClaimKeepsCompleted(l, s.live[step.owner].op.base.requestId, step.owner, NextTimestamp(l, step.clock));
    } else if step.Deliver? && t.ledger != l {
      DeliveryKeepsCompleted(l, s.live[step.owner].op.base.requestId, step.owner, step.cursor, NextTimestamp(l, step.clock));
    } else if step.DrainStaleTurn? && t.ledger != l {
      CursorKeepsCompleted(l, s.live[step.owner].request.requestId, step.turn.sessionState, NextTimestamp(l, step.clock));
    }
  }

  lemma RegisterStepKeepsRetention(h: Hashes, s: System, step: Step, t: System)
    requires RetentionOk(s.ledger) && step.RegisterRequest? && KeepsFullRecords(step) && Next(h, s, step, t)
    ensures RetentionOk(t.ledger)
  {
    CompactionKeepsRetentionOk(s.ledger, step.compacted, step.terminalLimit, step.cleanedLimit, step.compactionClock);
    var now := NextTimestamp(step.compacted, step.clock);
    RegisterKeepsCompleted(h, step.compacted, step.request, h.fingerprint(step.request), now);
    SameCompletedKeepsRetention(step.compacted, t.ledger);
  }

  lemma NextKeepsRetention(h: Hashes, s: System, step: Step, t: System)
    requires RetentionOk(s.ledger) && KeepsFullRecords(step) && Next(h, s, step, t)
    ensures RetentionOk(t.ledger)
  {
    if step.RegisterRequest? {
      RegisterStepKeepsRetention(h, s, step, t);
    } else if step.FinishTurn? {
      FinishKeepsRetention(h, s, step, t);
    } else {
      StepKeepsCompleted(h, s, step, t);
      SameCompletedKeepsRetention(s.ledger, t.ledger);
    }
  }

  lemma FinishKeepsRetention(h: Hashes, s: System, step: Step, t: System)
    requires RetentionOk(s.ledger) && step.FinishTurn? && KeepsFullRecords(step) && Next(h, s, step, t)
    ensures RetentionOk(t.ledger)
  {
    var request := s.live[step.owner].request;
    var result := DecideTurn(request, step.turn, s.live[step.owner].replays, step.canConsume).result;
    var spec := RecordTerminal(s.ledger, request, result, step.turn.sessionState, NextTimestamp(s.ledger, step.clock));
    if spec.Some? && !step.write.Lost? {
      RecordTerminalKeepsRetentionOk(s.ledger, request, result, step.turn.sessionState, step.clock);
      CompactionKeepsRetentionOk(spec.value, t.ledger, step.terminalLimit, step.cleanedLimit, step.compactionClock);
    }
  }

  lemma {:induction false} RunKeepsRetention(h: Hashes, states: seq<System>, steps: seq<Step>)
    requires IsRun(h, states, steps)
    requires forall i :: 0 <= i < |steps| ==> KeepsFullRecords(steps[i])
    ensures RetentionOk(states[|steps|].ledger)
  {
    hide Next;
    if |steps| > 0 {
      var n := |steps| - 1;
      RunPrefix(h, states, steps);
      RunKeepsRetention(h, states[..n + 1], steps[..n]);
      NextKeepsRetention(h, states[n], steps[n], states[n + 1]);
    }
  }

  /**
   * With at least one full record retained, whatever the clocks show, a result that a run
   * records is stored under its request once the recording write has taken effect.
   */
  lemma FinishedResultIsRetrievable(h: Hashes, states: seq<System>, steps: seq<Step>, step: Step, t: System)
    requires IsRun(h, states, steps) && Next(h, states[|steps|], step, t)
    requires forall i :: 0 <= i < |steps| ==> KeepsFullRecords(steps[i])
    requires step.FinishTurn? && KeepsFullRecords(step) && !step.write.Lost?
    requires var s := states[|steps|]; IsDeliveredActive(s.ledger, s.live[step.owner].request.requestId)
    ensures var s := states[|steps|]; var request := s.live[step.owner].request;
            && request.requestId in t.ledger.operations
            && t.ledger.operations[request.requestId].Terminal?
            && Record(t.ledger.operations[request.requestId].result)
               == DecideTurn(request, step.turn, s.live[step.owner].replays, step.canConsume)
  {
    RunKeepsRetention(h, states, steps);
    var s := states[|steps|];
    var request := s.live[step.owner].request;
    var result := DecideTurn(request, step.turn, s.live[step.owner].replays, step.canConsume).result;
    RecordedResultSurvives(s.ledger, t.ledger, request, result, step.turn.sessionState, step.clock,
                           step.terminalLimit, step.cleanedLimit, step.compactionClock);
  }
}
