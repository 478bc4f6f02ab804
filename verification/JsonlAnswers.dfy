/** Which answer each App Server request gets, and in which order the other messages arrive. */
module JsonlAnswers {
  import opened Common
  import opened Decimal
  import opened Utf8
  import opened JsonlTransport

  // ---------------------------------------------------------------- dispatch

  /** The messages that handlers see: server requests and notifications, in their order. */
  function Dispatched(ms: seq<Message>): seq<Message> {
    if |ms| == 0 then []
    else
      var last := ms[|ms| - 1];
      Dispatched(ms[..|ms| - 1]) + (if last.ServerRequest? || last.Notification? then [last] else [])
  }

  lemma {:induction false} HandledInOrder(t: Transport, ms: seq<Message>)
    ensures HandleAll(t, ms).delivered == t.delivered + Dispatched(ms)
  {
    if |ms| > 0 {
      HandledInOrder(t, ms[..|ms| - 1]);
    } else {
      assert t.delivered + [] == t.delivered;
    }
  }

  lemma {:induction false} DispatchedConcat(a: seq<Message>, b: seq<Message>)
    ensures Dispatched(a + b) == Dispatched(a) + Dispatched(b)
  {
    if |b| == 0 {
      assert a + b == a;
    } else {
      DispatchedConcat(a, b[..|b| - 1]);
      assert (a + b)[..|a + b| - 1] == a + b[..|b| - 1];
    }
  }

  /** The text that the reads of a run brought, up to a point. */
  function TextRead(steps: seq<Step>): string {
    if |steps| == 0 then ""
    else TextRead(steps[..|steps| - 1]) + (if steps[|steps| - 1].Stdout? then steps[|steps| - 1].chunk else "")
  }

  lemma OtherStepKeepsStream(parse: string -> Option<Message>, t: Transport, step: Step, u: Transport)
    requires Next(parse, t, step, u) && !step.Stdout?
    ensures u.delivered == t.delivered && u.buffer == t.buffer
  {
  }

  /**
   * Whatever requests, failures and closing are interleaved with the reads, the handlers have seen
   * exactly the server requests and notifications on the complete lines of all text read, in order.
   */
  lemma {:induction false} RunDispatchesTheStream(parse: string -> Option<Message>, states: seq<Transport>, steps: seq<Step>)
    requires IsRun(parse, states, steps)
    ensures states[|steps|].delivered == Dispatched(Messages(parse, CompleteLines(TextRead(steps))))
    ensures states[|steps|].buffer == Rest(TextRead(steps))
  {
    hide Next, CompleteLines, Rest, Messages, HandleAll, Dispatched;
    if |steps| == 0 {
      NothingRead(parse);
    } else {
      var n := |steps| - 1;
      assert forall k :: 0 <= k < n ==> steps[..n][k] == steps[k] && states[..n + 1][k + 1] == states[k + 1];
      RunDispatchesTheStream(parse, states[..n + 1], steps[..n]);
      assert Next(parse, states[n], steps[n], states[n + 1]);
      var before := TextRead(steps[..n]);
      if steps[n].Stdout? {
        ReadDispatches(parse, states[n], steps[n].chunk, states[n + 1], before);
      } else {
        OtherStepKeepsStream(parse, states[n], steps[n], states[n + 1]);
        assert before + "" == before;
      }
    }
  }

  lemma NothingRead(parse: string -> Option<Message>)
    ensures Dispatched(Messages(parse, CompleteLines(""))) == [] && Rest("") == ""
  {
  }

  lemma ReadDispatches(parse: string -> Option<Message>, t: Transport, chunk: string, u: Transport, before: string)
    requires Next(parse, t, Stdout(chunk), u)
    requires t.delivered == Dispatched(Messages(parse, CompleteLines(before))) && t.buffer == Rest(before)
    ensures u.delivered == Dispatched(Messages(parse, CompleteLines(before + chunk))) && u.buffer == Rest(before + chunk)
  {
    hide CompleteLines, Rest, Messages, HandleAll, Dispatched;
    var lines := CompleteLines(t.buffer + chunk);
    SplitContinues(before, chunk);
    MessagesConcatenate(parse, CompleteLines(before), lines);
    HandledInOrder(t, Messages(parse, lines));
    DispatchedConcat(Messages(parse, CompleteLines(before)), Messages(parse, lines));
  }

  // ---------------------------------------------------------------- answers

  /** The first response to a key. */
  function FirstResponse(ms: seq<Message>, key: string): Option<Settlement> {
    if |ms| == 0 then None
    else if ms[0].Response? && ms[0].key == key then Some(ms[0].settlement)
    else FirstResponse(ms[1..], key)
  }

  /** The promise of request `id` as the caller sees it. */
  predicate Pending(t: Transport, id: nat) {
    KeyOf(id) in t.pending && t.pending[KeyOf(id)] == id
  }

  lemma HandleAllFromFront(t: Transport, ms: seq<Message>)
    requires |ms| > 0
    ensures HandleAll(t, ms) == HandleAll(Handle(t, ms[0]), ms[1..])
  {
    hide Handle;
    HandleConcatenates(t, ms[..1], ms[1..]);
    assert ms == ms[..1] + ms[1..] && ms[..1] == [ms[0]] && [ms[0]][..0] == [];
    assert HandleAll(t, []) == t && HandleAll(t, [ms[0]]) == Handle(HandleAll(t, []), ms[0]);
  }

  lemma OneHandled(t: Transport, m: Message, id: nat)
    requires Inv(t)
    ensures Inv(Handle(t, m))
    ensures Pending(t, id) ==>
              if m.Response? && m.key == KeyOf(id) then
                !Pending(Handle(t, m), id) && id in Handle(t, m).settled && Handle(t, m).settled[id] == m.settlement
              else Pending(Handle(t, m), id)
    ensures id in t.settled ==> id in Handle(t, m).settled && Handle(t, m).settled[id] == t.settled[id]
    ensures !Pending(t, id) && id !in t.settled ==> id !in Handle(t, m).settled
  {
    hide KeyOf;
    if m.Response? {
      SettlePendingKeepsInv(t, m.key, m.settlement);
      if m.key in t.pending && KeyOf(id) in t.pending {
        KeysAgree(t, m.key, id);
      }
    }
  }

  lemma KeysAgree(t: Transport, key: string, id: nat)
    requires Inv(t) && key in t.pending && KeyOf(id) in t.pending
    ensures t.pending[KeyOf(id)] == id && (t.pending[key] == id <==> key == KeyOf(id))
    ensures id !in t.settled
  {
    hide KeyOf;
    KeysDiffer(t.pending[KeyOf(id)], id);
  }

  /** A pending request is settled by the first response that names it, with exactly what that one carries. */
  lemma {:induction false} AnsweredByFirst(t: Transport, ms: seq<Message>, id: nat)
    requires Inv(t) && Pending(t, id)
    ensures var u := HandleAll(t, ms);
            match FirstResponse(ms, KeyOf(id))
            case None => Pending(u, id)
            case Some(s) => !Pending(u, id) && id in u.settled && u.settled[id] == s
    decreases |ms|
  {
    hide KeyOf, Inv, Pending, Handle, HandleAll;
    if |ms| == 0 {
      HandleNothing(t);
    } else {
      HandleAllFromFront(t, ms);
      OneHandled(t, ms[0], id);
      if ms[0].Response? && ms[0].key == KeyOf(id) {
        SettledStays(Handle(t, ms[0]), ms[1..], id);
      } else {
        AnsweredByFirst(Handle(t, ms[0]), ms[1..], id);
      }
    }
  }

  lemma HandleNothing(t: Transport)
    ensures HandleAll(t, []) == t
  {
  }

  /** A settled request keeps its settlement, and one that is not pending gets none. */
  lemma {:induction false} SettledStays(t: Transport, ms: seq<Message>, id: nat)
    requires Inv(t) && !Pending(t, id)
    ensures var u := HandleAll(t, ms);
            && !Pending(u, id) && (id in u.settled <==> id in t.settled) && (id in t.settled ==> u.settled[id] == t.settled[id])
    decreases |ms|
  {
    hide KeyOf, Inv, Pending, Handle, HandleAll;
    if |ms| == 0 {
      HandleNothing(t);
    } else {
      HandleAllFromFront(t, ms);
      OneHandled(t, ms[0], id);
      NotPendingStays(t, ms[0], id);
      SettledStays(Handle(t, ms[0]), ms[1..], id);
    }
  }

  lemma NotPendingStays(t: Transport, m: Message, id: nat)
    requires !Pending(t, id)
    ensures !Pending(Handle(t, m), id)
  {
    hide KeyOf;
  }

  // ---------------------------------------------------------------- runs

  /** What settles request `id`, and with what: a response that names it, a failed write or the end of the process. */
  predicate Settles(parse: string -> Option<Message>, t: Transport, step: Step, id: nat, s: Settlement) {
    match step
    case Stdout(chunk) => Pending(t, id) && FirstResponse(Messages(parse, CompleteLines(t.buffer + chunk)), KeyOf(id)) == Some(s)
    case WriteFailed(k) => Pending(t, id) && k == id && s == Rejected("write")
    case Closed(reason) => Pending(t, id) && s == Rejected(reason)
    case Send(writeFails) => writeFails && t.next == id && s == Rejected("write")
  }

  lemma StepSettles(parse: string -> Option<Message>, t: Transport, step: Step, u: Transport, id: nat)
    requires Inv(t) && Next(parse, t, step, u)
    ensures forall s :: Settles(parse, t, step, id, s) ==> id in u.settled && u.settled[id] == s
    ensures id in u.settled && id !in t.settled ==> Settles(parse, t, step, id, u.settled[id])
    ensures id in t.settled ==> id in u.settled && u.settled[id] == t.settled[id]
  {
    hide Messages, CompleteLines, HandleAll, KeyOf, Rest, FirstResponse, Inv;
    match step
    case Stdout(chunk) => ReadSettles(parse, t, chunk, u, id);
    case WriteFailed(k) => WriteFailureSettles(t, k, id);
    case Closed(reason) => CloseSettles(t, Rejected(reason), id);
    case Send(writeFails) => SendSettles(t, writeFails, id);
  }

  lemma ReadSettles(parse: string -> Option<Message>, t: Transport, chunk: string, u: Transport, id: nat)
    requires Inv(t) && Next(parse, t, Stdout(chunk), u)
    ensures forall s :: Settles(parse, t, Stdout(chunk), id, s) ==> id in u.settled && u.settled[id] == s
    ensures id in u.settled && id !in t.settled ==> Settles(parse, t, Stdout(chunk), id, u.settled[id])
    ensures id in t.settled ==> id in u.settled && u.settled[id] == t.settled[id]
  {
    hide Messages, CompleteLines, HandleAll, KeyOf, Rest, FirstResponse, Inv;
    var ms := Messages(parse, CompleteLines(t.buffer + chunk));
    PendingIsUnsettled(t, id);
    if Pending(t, id) {
      AnsweredByFirst(t, ms, id);
      HandleAllKeepsInv(t, ms);
      PendingIsUnsettled(HandleAll(t, ms), id);
    } else {
      SettledStays(t, ms, id);
    }
  }

  lemma PendingIsUnsettled(t: Transport, id: nat)
    requires Inv(t)
    ensures Pending(t, id) ==> id !in t.settled && 1 <= id < t.next
    ensures Pending(t, id) <==> KeyOf(id) in t.pending
    ensures id in t.settled ==> 1 <= id < t.next
  {
    hide KeyOf;
    if KeyOf(id) in t.pending {
      KeysDiffer(t.pending[KeyOf(id)], id);
    }
  }

  lemma WriteFailureSettles(t: Transport, k: nat, id: nat)
    requires Inv(t)
    ensures var u := SettlePending(t, KeyOf(k), Rejected("write"));
            && (Pending(t, id) && k == id ==> id in u.settled && u.settled[id] == Rejected("write"))
            && (id in u.settled && id !in t.settled ==> Pending(t, id) && k == id && u.settled[id] == Rejected("write"))
            && (id in t.settled ==> id in u.settled && u.settled[id] == t.settled[id])
  {
    hide KeyOf;
    PendingIsUnsettled(t, id);
    PendingIsUnsettled(t, k);
    if k != id && KeyOf(k) == KeyOf(id) {
      KeysDiffer(k, id);
    }
  }

  lemma CloseSettles(t: Transport, s: Settlement, id: nat)
    requires Inv(t)
    ensures var u := Close(t, s);
            && (Pending(t, id) ==> id in u.settled && u.settled[id] == s)
            && (id in u.settled && id !in t.settled ==> Pending(t, id) && u.settled[id] == s)
            && (id in t.settled ==> id in u.settled && u.settled[id] == t.settled[id])
  {
    hide KeyOf;
    PendingIsUnsettled(t, id);
    PendingRequests(t, id);
  }

  lemma SendSettles(t: Transport, writeFails: bool, id: nat)
    requires Inv(t) && !t.closed
    ensures var u := Request(t, writeFails);
            && (writeFails && t.next == id ==> id in u.settled && u.settled[id] == Rejected("write"))
            && (id in u.settled && id !in t.settled ==> writeFails && t.next == id && u.settled[id] == Rejected("write"))
            && (id in t.settled ==> id in u.settled && u.settled[id] == t.settled[id])
  {
    hide KeyOf, Inv;
    SentKeepsInv(t);
    PendingIsUnsettled(t, id);
    if writeFails {
      WriteFailureSettles(Sent(t), t.next, id);
      PendingIsUnsettled(Sent(t), t.next);
    }
  }

  /** Once settled, a request keeps its settlement to the end of the run. */
  lemma {:induction false} SettlementIsKept(parse: string -> Option<Message>, states: seq<Transport>, steps: seq<Step>, i: nat, n: nat,
                                           id: nat)
    requires IsRun(parse, states, steps) && i <= n <= |steps| && id in states[i].settled
    ensures id in states[n].settled && states[n].settled[id] == states[i].settled[id]
    decreases n
  {
    hide Next, Inv;
    if i < n {
      SettlementIsKept(parse, states, steps, i, n - 1, id);
      InvAt(parse, states, steps, n - 1);
      StepSettles(parse, states[n - 1], steps[n - 1], states[n], id);
    }
  }

  lemma InvAt(parse: string -> Option<Message>, states: seq<Transport>, steps: seq<Step>, n: nat)
    requires IsRun(parse, states, steps) && n <= |steps|
    ensures Inv(states[n])
  {
    hide Next, Inv;
    assert forall k :: 0 <= k < n ==> steps[..n][k] == steps[k] && states[..n + 1][k + 1] == states[k + 1];
    RunKeepsInv(parse, states[..n + 1], steps[..n], 0);
  }

  /** What settles a request at some step is what its caller has at the end. */
  lemma AnswerIsGiven(parse: string -> Option<Message>, states: seq<Transport>, steps: seq<Step>, i: nat, id: nat, s: Settlement)
    requires IsRun(parse, states, steps) && i < |steps| && Settles(parse, states[i], steps[i], id, s)
    ensures id in states[|steps|].settled && states[|steps|].settled[id] == s
  {
    hide Next, Inv, Settles;
    InvAt(parse, states, steps, i);
    StepSettles(parse, states[i], steps[i], states[i + 1], id);
    SettlementIsKept(parse, states, steps, i + 1, |steps|, id);
  }

  /** And nothing else does: a settled request was settled by one of these steps, with that very settlement. */
  lemma {:induction false} GivenHasCause(parse: string -> Option<Message>, states: seq<Transport>, steps: seq<Step>, id: nat)
    returns (i: nat)
    requires IsRun(parse, states, steps) && id in states[|steps|].settled
    ensures i < |steps| && Settles(parse, states[i], steps[i], id, states[|steps|].settled[id])
    decreases |steps|
  {
    hide Next, Inv, Settles;
    var n := |steps| - 1;
    InvAt(parse, states, steps, n);
    StepSettles(parse, states[n], steps[n], states[n + 1], id);
    if id in states[n].settled {
      assert forall k :: 0 <= k < n ==> steps[..n][k] == steps[k] && states[..n + 1][k + 1] == states[k + 1];
      i := GivenHasCause(parse, states[..n + 1], steps[..n], id);
    } else {
      i := n;
    }
  }
}
