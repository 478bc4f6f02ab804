/** The order of work in a session: first registered, first run. */
module RootQueue {
  import opened Common
  import opened RetiredFilter
  import opened RootLedger
  import opened LedgerInvariant
  import opened DeliveryProtocol
  import opened DeliverySafety
  import opened DeliveryRuns
  import opened RootAnswers

  /** The registered requests of a run, in the order their records were created. */
  ghost function Order(states: seq<System>, steps: seq<Step>): seq<RequestId>
    requires |states| == |steps| + 1
  {
    if |steps| == 0 then []
    else
      var n := |steps| - 1;
      Order(states[..n + 1], steps[..n]) + (if IsNew(states[n], steps[n], states[n + 1]) then [steps[n].request.requestId] else [])
  }

  ghost predicate IsNew(s: System, step: Step, t: System) {
    step.RegisterRequest? && step.request.requestId in t.registered && step.request.requestId !in s.registered
  }

  /** The unfinished requests: the active one and then the queue. */
  function Waiting(l: Ledger): seq<RequestId> {
    (if l.active.Some? then [l.active.value] else []) + l.queue
  }

  lemma NextWaits(h: Hashes, s: System, step: Step, t: System)
    requires Inv(h, s) && Next(h, s, step, t)
    ensures if IsNew(s, step, t) then
              Waiting(t.ledger) == Waiting(s.ledger) + [step.request.requestId] && t.registered == s.registered + {step.request.requestId}
            else t.registered == s.registered
    ensures !IsNew(s, step, t) ==>
              || Waiting(t.ledger) == Waiting(s.ledger)
              || (step.FinishTurn? && |Waiting(s.ledger)| > 0 && Waiting(t.ledger) == Waiting(s.ledger)[1..])
  {
    hide Inv, Compacted, Register, Promote, Claim, RecordDelivery, PersistDeliveredCursor, RecordTerminal, DecideTurn, Waiting;
    if step.RegisterRequest? {
      RegisterWaits(h, s, step, t);
    } else if step.FinishTurn? {
      FinishWaits(h, s, step, t);
    } else {
      MutationWaits(h, s, step, t);
    }
  }

  lemma RegisterWaits(h: Hashes, s: System, step: Step, t: System)
    requires Inv(h, s) && step.RegisterRequest? && Next(h, s, step, t)
    ensures if IsNew(s, step, t) then
              Waiting(t.ledger) == Waiting(s.ledger) + [step.request.requestId] && t.registered == s.registered + {step.request.requestId}
            else t.registered == s.registered && Waiting(t.ledger) == Waiting(s.ledger)
  {
    hide Compacted, PumpOk, IdOk, SingleEngagement, OwnersUsed, RetiredFilterHas, RequestsMatch;
    CompactionEvolves(h, s.ledger, step.compacted, step.terminalLimit, step.cleanedLimit, step.compactionClock);
    CompactedIsRecords(h, s.ledger, step.compacted, step.terminalLimit, step.cleanedLimit, step.compactionClock);
    CompactionAdvances(s.ledger, step.compacted, step.terminalLimit, step.cleanedLimit, step.compactionClock);
    if step.request.requestId in s.registered {
      EvolvesKeepsKnown(h, s.ledger, step.compacted, step.request.requestId);
    }
    hide Evolves, LedgerOk;
    RegisterAppends(h, step.compacted, step.request, NextTimestamp(step.compacted, step.clock));
  }

  lemma RegisterAppends(h: Hashes, l: Ledger, request: RootRequest, now: int)
    requires FilterOk(l.retired)
    ensures var post := Register(h, l, request, h.fingerprint(request), now).0;
            if post == l then post.operations.Keys - l.operations.Keys == {}
            else !Known(h, l, request.requestId) && Waiting(post) == Waiting(l) + [request.requestId]
                 && post.operations.Keys - l.operations.Keys == {request.requestId}
  {
    hide RetiredFilterHas, FilterOk;
  }

  lemma FinishWaits(h: Hashes, s: System, step: Step, t: System)
    requires step.FinishTurn? && Next(h, s, step, t)
    ensures t.registered == s.registered
    ensures Waiting(t.ledger) == Waiting(s.ledger) || (|Waiting(s.ledger)| > 0 && Waiting(t.ledger) == Waiting(s.ledger)[1..])
  {
    hide Compacted, DecideTurn;
    var request := s.live[step.owner].request;
    var result := DecideTurn(request, step.turn, s.live[step.owner].replays, step.canConsume).result;
    var spec := RecordTerminal(s.ledger, request, result, step.turn.sessionState, NextTimestamp(s.ledger, step.clock));
    if spec.Some? && !step.write.Lost? {
      CompactedIsRecords(h, spec.value, t.ledger, step.terminalLimit, step.cleanedLimit, step.compactionClock);
      CompactionAdvances(spec.value, t.ledger, step.terminalLimit, step.cleanedLimit, step.compactionClock);
    }
  }

  lemma MutationWaits(h: Hashes, s: System, step: Step, t: System)
    requires Next(h, s, step, t) && !step.RegisterRequest? && !step.FinishTurn?
    ensures t.registered == s.registered && Waiting(t.ledger) == Waiting(s.ledger)
  {
    hide Promote, Compacted, Register, RecordTerminal, DecideTurn;
    if step.FetchNext? {
      PromoteWaits(s.ledger, NextTimestamp(s.ledger, step.clock));
    }
  }

  lemma PromoteWaits(l: Ledger, now: int)
    requires Promote(l, now).Some?
    ensures Waiting(Promote(l, now).value.0) == Waiting(l)
  {
  }

  /** The unfinished requests are the last ones registered, in that order. */
  lemma {:induction false} QueueIsFifo(h: Hashes, states: seq<System>, steps: seq<Step>) returns (k: nat)
    requires IsRun(h, states, steps)
    ensures k <= |Order(states, steps)| && Order(states, steps)[k..] == Waiting(states[|steps|].ledger)
    ensures NoDuplicates(Order(states, steps)) && Elements(Order(states, steps)) == states[|steps|].registered
  {
    hide Next, Inv, Waiting;
    if |steps| == 0 {
      k := 0;
      NothingWaits();
    } else {
      var n := |steps| - 1;
      var before := Order(states[..n + 1], steps[..n]);
      RunPrefixTo(h, states, steps, n);
      k := QueueIsFifo(h, states[..n + 1], steps[..n]);
      assert Next(h, states[n], steps[n], states[n + 1]);
      NextWaits(h, states[n], steps[n], states[n + 1]);
      if IsNew(states[n], steps[n], states[n + 1]) {
        var id := steps[n].request.requestId;
        assert (before + [id])[k..] == before[k..] + [id];
        assert Elements(before + [id]) == Elements(before) + {id};
      } else {
        assert before + [] == before;
        if Waiting(states[n + 1].ledger) != Waiting(states[n].ledger) {
          assert before[k..][1..] == before[k + 1..];
          k := k + 1;
        }
      }
    }
  }

  lemma NothingWaits()
    ensures Waiting(EmptyLedger) == []
  {
  }

  /** A request has started only if every request registered before it is completed. */
  lemma EarlierIsDone(h: Hashes, states: seq<System>, steps: seq<Step>, a: nat, b: nat)
    requires IsRun(h, states, steps) && a < b < |Order(states, steps)|
    requires var l, id := states[|steps|].ledger, Order(states, steps)[b]; id in l.operations ==> !l.operations[id].Queued?
    ensures var l, id := states[|steps|].ledger, Order(states, steps)[a]; id in l.operations ==> IsCompleted(l.operations[id])
  {
    var order, l := Order(states, steps), states[|steps|].ledger;
    var k := QueueIsFifo(h, states, steps);
    RunKeepsInv(h, states, steps);
    if k <= b {
      assert order[k..][b - k] == order[b];
    }
    UnfinishedWaits(h, states[|steps|], order[a]);
    UnfinishedWaits(h, states[|steps|], order[b]);
    hide Order, Inv, Next;
  }

  lemma UnfinishedWaits(h: Hashes, s: System, id: RequestId)
    requires Inv(h, s)
    ensures id in Waiting(s.ledger) <==> id in s.ledger.operations && !IsCompleted(s.ledger.operations[id])
    ensures id in s.ledger.queue ==> id in s.ledger.operations && s.ledger.operations[id].Queued?
  {
    hide PumpOk, IdOk, SingleEngagement, OwnersUsed, RequestsMatch, RegisteredOk, OperationsOk;
  }
}
