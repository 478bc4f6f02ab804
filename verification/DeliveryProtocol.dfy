/**
 * Delivery of Root requests as a protocol: any number of invokers pump one session over one
 * store. Every `await` of the source is a boundary between two steps. A store write may be
 * lost, or take effect and still report an error; a crash removes invokers, and an invoker
 * that boots takes a delivery owner nobody used before.
 */
module DeliveryProtocol {
  import opened Common
  import opened RetiredFilter
  import opened RootLedger
  import opened LedgerInvariant

  /** Where the one pump of an invoker stands. `op` is the snapshot it works from. */
  datatype Pump =
    | Idle
    | Fetched(op: Operation)
    | Claimed(op: Operation)
    | InFlight(op: Operation)
    | Undelivered(op: Operation, sent: bool)
    | NeedsBlock
    | Draining(request: RootRequest, replays: nat)

  datatype System = System(
    ledger: Ledger,
    live: map<string, Pump>,
    used: set<string>,
    registered: set<RequestId>,
    sends: map<RequestId, nat>,
    lostBlocks: map<RequestId, nat>)

  function Count(m: map<RequestId, nat>, id: RequestId): nat {
    if id in m then m[id] else 0
  }

  function Plus(m: map<RequestId, nat>, id: RequestId): map<RequestId, nat> {
    m[id := Count(m, id) + 1]
  }

  const InitialSystem := System(EmptyLedger, map[], {}, {}, map[], map[])

  // ---------------------------------------------------------------- steps

  /** The outcome of one store write: lost, written, or written but reported as failed. */
  datatype Write = Lost | Reported | Silent

  datatype Step =
    | Boot(owner: string)
    | Crash(gone: set<string>)
    | RegisterRequest(owner: string, request: RootRequest, compacted: Ledger, terminalLimit: nat, cleanedLimit: nat,
                      compactionClock: int, clock: int, reply: Option<RootResult>)
    | FetchActive(owner: string)
    | FetchNext(owner: string, clock: int, write: Write)
    | RefuseForeign(owner: string)
    | ClaimPrepared(owner: string, clock: int, write: Write)
    | Send(owner: string)
    | SendSkipped(owner: string)
    | Deliver(owner: string, cursor: SessionState, clock: int, write: Write)
    | RunFails(owner: string)
    | BlockUndelivered(owner: string, reason: string, write: Write)
    | BlockOther(owner: string, reason: string, write: Write)
    | Recover(owner: string, canConsume: bool)
    | DrainStaleTurn(owner: string, turn: Turn, clock: int, write: Write)
    | FinishTurn(owner: string, turn: Turn, canConsume: bool, clock: int, terminalLimit: nat, cleanedLimit: nat,
                 compactionClock: int, write: Write)
    | PumpFails(owner: string)
    | WriteCursorOnly(state: SessionState)
    | Reload

  function WithPump(s: System, owner: string, pump: Pump): System {
    s.(live := s.live[owner := pump])
  }

  ghost predicate Next(h: Hashes, s: System, step: Step, t: System) {
    match step
    case Boot(o) => o != "" && o !in s.used && t == WithPump(s, o, Idle).(used := s.used + {o})
    case Crash(gone) => t == s.(live := s.live - gone)
    case RegisterRequest(o, request, compacted, terminalLimit, cleanedLimit, compactionClock, clock, reply) =>
      && o in s.live
      && FilterOk(compacted.retired)
      && Compacted(h, s.ledger, compacted, terminalLimit, cleanedLimit, compactionClock)
      && var (ledger, answer) := Register(h, compacted, request, h.fingerprint(request), NextTimestamp(compacted, clock));
         reply == answer && t == s.(ledger := ledger, registered := s.registered + (ledger.operations.Keys - compacted.operations.Keys))
    case FetchActive(o) =>
      && o in s.live && s.live[o].Idle? && s.ledger.blocked.None?
      && s.ledger.active.Some? && s.ledger.active.value in s.ledger.operations
      && IsActiveState(s.ledger.operations[s.ledger.active.value])
      && t == WithPump(s, o, Fetched(s.ledger.operations[s.ledger.active.value]))
    case FetchNext(o, clock, write) =>
      && o in s.live && s.live[o].Idle? && s.ledger.blocked.None? && !write.Lost?
      && var promoted := Promote(s.ledger, NextTimestamp(s.ledger, clock));
         && promoted.Some?
         && t == WithPump(s.(ledger := promoted.value.0), o,
                          if write.Reported? && promoted.value.1.Some? then Fetched(promoted.value.1.value) else Idle)
    case RefuseForeign(o) =>
      && o in s.live && s.live[o].Fetched? && s.live[o].op.Prepared?
      && s.live[o].op.owner.Some? && s.live[o].op.owner != Some(o)
      && t == WithPump(s, o, NeedsBlock)
    case ClaimPrepared(o, clock, write) =>
      && o in s.live && s.live[o].Fetched? && s.live[o].op.Prepared?
      && (s.live[o].op.owner.None? || s.live[o].op.owner == Some(o))
      && var (ledger, claimed) := Claim(s.ledger, s.live[o].op.base.requestId, o, NextTimestamp(s.ledger, clock));
         t == WithPump(if write.Lost? then s else s.(ledger := ledger), o,
                       if write.Reported? && claimed.Some? && claimed.value.Prepared? && claimed.value.owner == Some(o)
                       then Claimed(claimed.value) else Idle)
    case Send(o) =>
      && o in s.live && s.live[o].Claimed?
      && t == WithPump(s, o, InFlight(s.live[o].op)).(sends := Plus(s.sends, s.live[o].op.base.requestId))
    case SendSkipped(o) =>
      o in s.live && s.live[o].Claimed? && t == WithPump(s, o, Undelivered(s.live[o].op, false))
    case Deliver(o, cursor, clock, write) =>
      && o in s.live && s.live[o].InFlight? && s.live[o].op.Prepared?
      && var op := s.live[o].op;
         var spec := RecordDelivery(s.ledger, op.base.requestId, o, cursor, NextTimestamp(s.ledger, clock));
         if spec.None? || write.Lost? then t == WithPump(s, o, Undelivered(op, true))
         else t == WithPump(s.(ledger := spec.value), o,
                            if write.Reported? then Draining(op.request, 0) else Undelivered(op, true))
    case RunFails(o) =>
      o in s.live && s.live[o].InFlight? && t == WithPump(s, o, Undelivered(s.live[o].op, true))
    case BlockUndelivered(o, reason, write) =>
      && o in s.live && s.live[o].Undelivered? && reason != ""
      && t == WithPump(
           if !write.Lost? then s.(ledger := Block(s.ledger, reason))
           else if s.live[o].sent then s.(lostBlocks := Plus(s.lostBlocks, s.live[o].op.base.requestId))
           else s, o, Idle)
    case BlockOther(o, reason, write) =>
      && o in s.live && s.live[o].NeedsBlock? && reason != ""
      && t == WithPump(if write.Lost? then s else s.(ledger := Block(s.ledger, reason)), o, Idle)
    case Recover(o, canConsume) =>
      && o in s.live && s.live[o].Fetched? && s.live[o].op.Delivered?
      && t == WithPump(s, o, if canConsume then Draining(s.live[o].op.request, 0) else NeedsBlock)
    case DrainStaleTurn(o, turn, clock, write) =>
      && o in s.live && s.live[o].Draining?
      && var request := s.live[o].request;
         && DecideTurn(request, turn, s.live[o].replays, true).DrainStale?
         && var spec := PersistDeliveredCursor(s.ledger, request.requestId, turn.sessionState, NextTimestamp(s.ledger, clock));
            if spec.None? || write.Lost? then t == WithPump(s, o, Idle)
            else t == WithPump(s.(ledger := spec.value), o,
                               if write.Reported? then Draining(request, s.live[o].replays + 1) else Idle)
    case FinishTurn(o, turn, canConsume, clock, terminalLimit, cleanedLimit, compactionClock, write) =>
      && o in s.live && s.live[o].Draining?
      && var request := s.live[o].request;
         var decision := DecideTurn(request, turn, s.live[o].replays, canConsume);
         && decision.Record?
         && var spec := RecordTerminal(s.ledger, request, decision.result, turn.sessionState, NextTimestamp(s.ledger, clock));
            if spec.None? || write.Lost? then t == WithPump(s, o, Idle)
            else
              && Compacted(h, spec.value, t.ledger, terminalLimit, cleanedLimit, compactionClock)
              && t == WithPump(s.(ledger := t.ledger), o, Idle)
    case PumpFails(o) =>
      o in s.live && (s.live[o].Draining? || s.live[o].Fetched? || s.live[o].NeedsBlock?) && t == WithPump(s, o, Idle)
    case WriteCursorOnly(state) =>
      WriteCursor(s.ledger, state).Some? && t == s.(ledger := WriteCursor(s.ledger, state).value)
    case Reload => t == s.(ledger := Normalized(s.ledger))
  }

  // ---------------------------------------------------------------- invariant

  /** The pump has claimed `id` and has not yet learned that its delivery is durable. */
  predicate Engaged(p: Pump, id: RequestId) {
    (p.Claimed? || p.InFlight? || p.Undelivered?) && p.op.base.requestId == id
  }

  /** Its message for `id` may have reached Eve without a durable trace of it. */
  predicate Exposed(p: Pump, id: RequestId) {
    (p.InFlight? || (p.Undelivered? && p.sent)) && p.op.base.requestId == id
  }

  predicate OwnedBy(l: Ledger, id: RequestId, owner: string) {
    id in l.operations && l.operations[id].Prepared? && l.operations[id].owner == Some(owner)
  }

  predicate Holds(s: System, request: RootRequest) {
    && request.requestId in s.registered
    && (request.requestId in s.ledger.operations && !s.ledger.operations[request.requestId].Cleaned? ==>
          s.ledger.operations[request.requestId].request == request)
  }

  predicate HoldsOp(s: System, op: Operation) {
    !op.Cleaned? && op.request.requestId == op.base.requestId && Holds(s, op.request)
  }

  predicate IdOk(s: System, id: RequestId) {
    var sent, lost := Count(s.sends, id), Count(s.lostBlocks, id);
    && lost <= sent <= lost + 1
    && (sent > 0 ==> id in s.registered)
    && (sent > lost && id in s.ledger.operations ==>
          var op := s.ledger.operations[id];
          && !op.Queued?
          && (op.Prepared? ==>
                && op.owner.Some?
                && (s.ledger.blocked.Some? || op.owner.value !in s.live || Exposed(s.live[op.owner.value], id))))
  }

  predicate PumpOk(s: System, o: string)
    requires o in s.live
  {
    match s.live[o]
    case Idle => true
    case NeedsBlock => true
    case Draining(request, _) => Holds(s, request)
    case Fetched(op) =>
      var id := op.base.requestId;
      HoldsOp(s, op) && (OwnedBy(s.ledger, id, o) ==> Count(s.sends, id) == Count(s.lostBlocks, id))
    case Claimed(op) =>
      var id := op.base.requestId;
      HoldsOp(s, op) && OwnedBy(s.ledger, id, o) && Count(s.sends, id) == Count(s.lostBlocks, id)
    case InFlight(op) =>
      var id := op.base.requestId;
      HoldsOp(s, op) && OwnedBy(s.ledger, id, o) && Count(s.sends, id) == Count(s.lostBlocks, id) + 1
    case Undelivered(op, sent) =>
      var id := op.base.requestId;
      && HoldsOp(s, op)
      && (if sent then Count(s.sends, id) == Count(s.lostBlocks, id) + 1
          else Count(s.sends, id) == Count(s.lostBlocks, id) && OwnedBy(s.ledger, id, o))
      && (id in s.ledger.operations && s.ledger.operations[id].Prepared? ==> OwnedBy(s.ledger, id, o))
  }

  ghost predicate RequestsMatch(l: Ledger) {
    forall id :: id in l.operations && !l.operations[id].Cleaned? ==> l.operations[id].request.requestId == id
  }

  ghost predicate OwnersUsed(s: System) {
    && s.live.Keys <= s.used && "" !in s.used
    && forall id :: id in s.ledger.operations && s.ledger.operations[id].Prepared? && s.ledger.operations[id].owner.Some? ==>
         s.ledger.operations[id].owner.value in s.used
  }

  ghost predicate RegisteredOk(h: Hashes, s: System)
    requires FilterOk(s.ledger.retired)
  {
    && s.ledger.operations.Keys <= s.registered
    && forall id :: id in s.registered ==> Known(h, s.ledger, id)
  }

  ghost predicate SingleEngagement(s: System) {
    forall id, o, p :: o in s.live && p in s.live && Engaged(s.live[o], id) && Engaged(s.live[p], id) ==> o == p
  }

  ghost predicate Inv(h: Hashes, s: System) {
    && LedgerOk(h, s.ledger)
    && RequestsMatch(s.ledger)
    && OwnersUsed(s)
    && RegisteredOk(h, s)
    && SingleEngagement(s)
    && (forall id :: IdOk(s, id))
    && (forall o :: o in s.live ==> PumpOk(s, o))
  }

  // ---------------------------------------------------------------- ledger changes

  /** How a record may change while the pumps stand still. */
  predicate ChangeOk(s: System, id: RequestId, pre: Operation, post: Operation) {
    && Advances(pre, post)
    && (pre.Queued? ==> post.Queued? || (post.Prepared? && post.owner.None?))
    && (pre.Prepared? && post.Prepared? ==> post.owner == pre.owner || (pre.owner.None? && post.owner.value in s.used))
  }

  /** No pump relies on `id` staying prepared. */
  ghost predicate Released(s: System, id: RequestId) {
    forall o :: o in s.live && Engaged(s.live[o], id) ==> s.live[o].Undelivered? && s.live[o].sent
  }

  ghost predicate LedgerChangeOk(h: Hashes, s: System, ledger: Ledger, registered: set<RequestId>) {
    && FilterOk(s.ledger.retired)
    && Evolves(h, s.ledger, ledger)
    && RequestsMatch(ledger)
    && s.registered <= registered
    && ledger.operations.Keys <= registered
    && (forall id :: id in registered - s.registered ==> id in ledger.operations)
    && (forall id :: id in ledger.operations && id !in s.ledger.operations ==>
          id !in s.registered && (ledger.operations[id].Prepared? ==> ledger.operations[id].owner.None?))
    && (forall id :: id in s.ledger.operations && id in ledger.operations ==>
          ChangeOk(s, id, s.ledger.operations[id], ledger.operations[id]))
    && (forall id :: id in s.ledger.operations && s.ledger.operations[id].Prepared? ==>
          id in ledger.operations && (ledger.operations[id].Prepared? || Released(s, id)))
  }

  lemma LedgerChangeKeepsInv(h: Hashes, s: System, ledger: Ledger, registered: set<RequestId>)
    requires Inv(h, s) && LedgerChangeOk(h, s, ledger, registered)
    ensures Inv(h, s.(ledger := ledger, registered := registered))
  {
    var t := s.(ledger := ledger, registered := registered);
    forall id
      ensures IdOk(t, id)
    {
      LedgerChangeKeepsId(h, s, ledger, registered, id);
    }
    forall o | o in t.live
      ensures PumpOk(t, o)
    {
      LedgerChangeKeepsPump(h, s, ledger, registered, o);
    }
    LedgerChangeKeepsRegistered(h, s, ledger, registered);
  }

  lemma LedgerChangeKeepsRegistered(h: Hashes, s: System, ledger: Ledger, registered: set<RequestId>)
    requires FilterOk(s.ledger.retired) && RegisteredOk(h, s) && OwnersUsed(s) && LedgerChangeOk(h, s, ledger, registered)
    ensures RegisteredOk(h, s.(ledger := ledger, registered := registered))
    ensures OwnersUsed(s.(ledger := ledger, registered := registered))
  {
    forall id | id in registered
      ensures Known(h, ledger, id)
    {
      if id in s.registered {
        EvolvesKeepsKnown(h, s.ledger, ledger, id);
      }
    }
    forall id | id in ledger.operations && ledger.operations[id].Prepared? && ledger.operations[id].owner.Some?
      ensures ledger.operations[id].owner.value in s.used
    {
      assert id in s.ledger.operations;
      assert ChangeOk(s, id, s.ledger.operations[id], ledger.operations[id]);
    }
  }

  lemma LedgerChangeKeepsId(h: Hashes, s: System, ledger: Ledger, registered: set<RequestId>, id: RequestId)
    requires IdOk(s, id) && LedgerChangeOk(h, s, ledger, registered)
    ensures IdOk(s.(ledger := ledger, registered := registered), id)
  {
    if id in ledger.operations && id in s.ledger.operations {
      assert ChangeOk(s, id, s.ledger.operations[id], ledger.operations[id]);
    }
  }

  lemma LedgerChangeKeepsPump(h: Hashes, s: System, ledger: Ledger, registered: set<RequestId>, o: string)
    requires o in s.live && PumpOk(s, o) && (forall id :: IdOk(s, id)) && LedgerChangeOk(h, s, ledger, registered)
    ensures PumpOk(s.(ledger := ledger, registered := registered), o)
  {
    var p := s.live[o];
    if !p.Idle? && !p.NeedsBlock? && !p.Draining? {
      var id := p.op.base.requestId;
      assert IdOk(s, id);
      if id in ledger.operations && id in s.ledger.operations {
        assert ChangeOk(s, id, s.ledger.operations[id], ledger.operations[id]);
      }
      assert Engaged(p, id) || p.Fetched?;
    }
  }
}
