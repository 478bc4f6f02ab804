/** What the backend and the journal get for each way an exchange can end, over every run of the broker. */
module ApprovalOutcomes {
  import opened Common
  import opened ApprovalBroker
  import opened ApprovalRuns

  // ---------------------------------------------------------------- what each step owes

  predicate IsLive(s: System, id: nat) {
    s.broker.active.Some? && s.broker.active.value.exchange == id
  }

  /** What an exchange is owed: a reply, or none, and one record. */
  datatype Answer = Answer(reply: Option<Decision>, record: Evidence)

  function Denial(id: nat, status: Status, reason: Reason): Option<Answer> {
    Some(Answer(Some(Deny), Evidence(id, status, None, Some(reason))))
  }

  /** The answer that a step owes to the exchange it ends or refuses. */
  function Due(s: System, step: Step): Option<Answer> {
    match step
    case Register(incoming) =>
      if incoming.key.None? || !incoming.bound then Denial(s.nextExchange, Denied, IdentityMismatch)
      else if s.broker.interrupted then Denial(s.nextExchange, Interrupted, ProcessInterrupted)
      else if s.broker.active.Some? && s.broker.active.value.key == incoming.key.value then
        Denial(s.broker.active.value.exchange, Denied, DuplicateRequest)
      else if s.broker.active.Some? then Denial(s.nextExchange, Denied, ConcurrentRequest)
      else if incoming.key.value in s.broker.completed then Denial(s.nextExchange, Denied, DuplicateRequest)
      else None
    case RegisterChecked(_, current) => if current then None else Denial(s.nextExchange, Denied, StaleSession)
    case Resolve(id, response) => if IsLive(s, id) && response.None? then Denial(id, Denied, StaleSession) else None
    case ResolveChecked(task, current) =>
      if task !in s.tasks || !s.tasks[task].CheckResolution? || !IsLive(s, s.tasks[task].live.exchange) then None
      else
        var id, decision := s.tasks[task].live.exchange, s.tasks[task].decision;
        if current then Some(Answer(Some(decision), Evidence(id, Resolved, Some(decision), None)))
        else Denial(id, Denied, StaleSession)
    case Cancel(id) => if IsLive(s, id) then Some(Answer(None, Evidence(id, Cancelled, None, Some(CancelledByBackend)))) else None
    case Expire(id) => if IsLive(s, id) then Denial(id, TimedOut, TimeoutReached) else None
    case InterruptProcess =>
      if s.broker.active.Some? then Denial(s.broker.active.value.exchange, Interrupted, ProcessInterrupted) else None
    case Settled(_, _) => None
  }

  predicate Owes(s: System, step: Step, id: nat, reply: Option<Decision>, e: Evidence) {
    Due(s, step) == Some(Answer(reply, e)) && e.exchange == id
  }

  function FirstAwait(reply: Option<Decision>, e: Evidence): Await {
    match reply
    case Some(Approve) => RecordApproval(e)
    case Some(Deny) => DeliverDenial(e)
    case None => RecordOnly(e)
  }

  // ---------------------------------------------------------------- how an answer unfolds

  function Undelivered(id: nat): Evidence {
    Evidence(id, Interrupted, None, Some(ResponseDeliveryFailed))
  }

  function Replies(reply: Option<Decision>): seq<Decision> {
    if reply.Some? then [reply.value] else []
  }

  /** The delivery or record that an exchange waits for. */
  predicate TaskOf(s: System, k: nat, id: nat) {
    k in s.tasks && !IsCheck(s.tasks[k]) && ExchangeOf(s.tasks[k]) == id
  }

  ghost predicate NothingPends(s: System, id: nat) {
    forall k :: !TaskOf(s, k, id)
  }

  /** The answer was delivered and its record is durable. */
  predicate CarriedOut(log: Log, reply: Option<Decision>, e: Evidence) {
    log.replies == Replies(reply) && log.asked == [e] && log.durable == [e]
  }

  /** Waiting for `a`, on the way to the answer; `smooth` if nothing failed so far. */
  predicate Underway(log: Log, a: Await, reply: Option<Decision>, e: Evidence, smooth: bool)
    requires !IsCheck(a)
  {
    match a
    case RecordApproval(x) => reply == Some(Approve) && x == e && log.replies == [] && log.asked == [e] && log.durable == []
    case DeliverApproval(x) => reply == Some(Approve) && x == e && CarriedOut(log, reply, e)
    case DeliverDenial(x) => reply == Some(Deny) && x == e && log.replies == [Deny] && log.asked == [] && log.durable == []
    case RecordOnly(x) =>
      && reply != Some(Approve) && log.replies == Replies(reply) && log.asked == [x] && log.durable == []
      && (x == e || (!smooth && reply == Some(Deny) && x == Undelivered(e.exchange)))
  }

  /** What a log holds of its answer, whatever failed. */
  predicate Follows(log: Log, reply: Option<Decision>, e: Evidence) {
    match reply
    case Some(Approve) => log.asked == [e] && (log.replies == [] || (log.replies == [Approve] && log.durable == [e]))
    case Some(Deny) => log.replies == [Deny] && (log.asked == [] || log.asked == [e] || log.asked == [Undelivered(e.exchange)])
    case None => log.replies == [] && log.asked == [e]
  }

  ghost predicate Unfolding(s: System, id: nat, reply: Option<Decision>, e: Evidence, smooth: bool) {
    && id == e.exchange < s.nextExchange && !IsLive(s, id)
    && (forall k :: TaskOf(s, k, id) ==> Underway(LogOf(s, id), s.tasks[k], reply, e, smooth))
    && Follows(LogOf(s, id), reply, e)
    && (smooth && NothingPends(s, id) ==> CarriedOut(LogOf(s, id), reply, e))
  }

  /** Nothing was answered or recorded yet, and nothing is about to be. */
  ghost predicate Silent(s: System, id: nat) {
    NothingPends(s, id) && LogOf(s, id).replies == [] && LogOf(s, id).asked == [] && LogOf(s, id).durable == []
  }

  // ---------------------------------------------------------------- the shape of a step

  predicate SameTrace(a: Log, b: Log) {
    a.replies == b.replies && a.asked == b.asked && a.durable == b.durable
  }

  /** Exchange `id` has the same deliveries, records and pending work in both states. */
  ghost predicate Aside(s: System, t: System, id: nat) {
    && SameTrace(LogOf(s, id), LogOf(t, id))
    && forall k :: (TaskOf(t, k, id) <==> TaskOf(s, k, id)) && (TaskOf(s, k, id) ==> t.tasks[k] == s.tasks[k])
  }

  lemma StartedAside(s: System, await: Option<Await>, id: nat)
    requires TasksOk(s) && (await.None? || IsCheck(await.value) || ExchangeOf(await.value) != id)
    ensures Aside(s, Started(s, await), id)
  {
  }

  lemma MovedAside(s: System, after: Broker, id: nat)
    ensures Aside(s, Moved(s, after), id)
  {
  }

  /** Apart from settling, a step moves the broker and starts at most one await. */
  ghost predicate Shaped(s: System, step: Step, mid: System, await: Option<Await>, t: System) {
    && t == Started(mid, await)
    && TasksOk(mid) && s.nextExchange <= t.nextExchange
    && (forall id :: Aside(s, mid, id))
    && (forall id :: IsLive(t, id) ==> IsLive(s, id) || id == s.nextExchange)
    && if await.None? || IsCheck(await.value) then Due(s, step).None?
       else
         var e := await.value.evidence;
         && Due(s, step).Some? && Due(s, step).value.record == e && await.value == FirstAwait(Due(s, step).value.reply, e)
         && !IsLive(t, e.exchange) && e.exchange < t.nextExchange && (IsLive(s, e.exchange) || e.exchange == s.nextExchange)
  }

  /** A state in which the step may have taken its own check away or a new exchange number. */
  ghost predicate Ready(s: System, before: System) {
    && TasksOk(before) && before.broker == s.broker && s.nextExchange <= before.nextExchange
    && (s.broker.active.Some? ==> s.broker.active.value.exchange < s.nextExchange)
    && forall id :: Aside(s, before, id)
  }

  lemma ReadyAtOnce(capacity: nat, s: System)
    requires Inv(capacity, s)
    ensures Ready(s, s) && Ready(s, s.(nextExchange := s.nextExchange + 1))
  {
  }

  lemma ReadyAfterCheck(capacity: nat, s: System, task: nat)
    requires Inv(capacity, s) && task in s.tasks && IsCheck(s.tasks[task])
    ensures Ready(s, Dropped(s, task)) && Ready(s, Dropped(s, task).(nextExchange := s.nextExchange + 1))
  {
    hide CacheOk, LogsOk, ChecksOk;
    DroppedFits(s, task);
  }

  lemma MovedTasks(s: System, before: System, after: Broker)
    requires Ready(s, before)
    ensures TasksOk(Moved(before, after)) && forall id :: Aside(s, Moved(before, after), id)
  {
    forall id
      ensures Aside(s, Moved(before, after), id)
    {
      assert Aside(s, before, id);
      MovedAside(before, after, id);
    }
  }

  lemma EndingShape(capacity: nat, s: System, step: Step, before: System, b: Broker, live: Live, e: Ending)
    requires Ready(s, before) && b.active == s.broker.active
    requires if IsLive(s, live.exchange) then
               && Due(s, step).Some? && Due(s, step).value.record == EvidenceOf(live.exchange, e)
               && FirstAwait(Due(s, step).value.reply, EvidenceOf(live.exchange, e)) == EndingAwait(live.exchange, e)
             else Due(s, step).None?
    ensures var outcome := Terminalize(b, live, e, capacity);
            Shaped(s, step, Moved(before, outcome.0), outcome.1, Apply(before, outcome))
  {
    hide TasksOk, Remember, Due, FirstAwait, Aside;
    MovedTasks(s, before, Terminalize(b, live, e, capacity).0);
  }

  lemma RefusalShape(capacity: nat, s: System, step: Step, before: System, key: Option<RequestKey>, reason: Reason)
    requires Ready(s, before) && before.nextExchange == s.nextExchange + 1
    requires Due(s, step) == Denial(s.nextExchange, if reason == ProcessInterrupted then Interrupted else Denied, reason)
    ensures var (after, await) := Reject(s.broker, key, s.nextExchange, reason, capacity);
            Shaped(s, step, Moved(before, after), Some(await), Apply(before, (after, Some(await))))
  {
    hide TasksOk, Remember, Due, Aside;
    MovedTasks(s, before, Reject(s.broker, key, s.nextExchange, reason, capacity).0);
  }

  /** A step that starts a check, or nothing at all, owes nothing. */
  lemma OtherShape(s: System, step: Step, before: System, b: Broker, await: Option<Await>)
    requires Ready(s, before) && b.active == s.broker.active && (await.None? || IsCheck(await.value)) && Due(s, step).None?
    ensures Shaped(s, step, Moved(before, b), await, Apply(before, (b, await)))
  {
    hide TasksOk, Due, Aside;
    MovedTasks(s, before, b);
  }

  /** Every step but the settling of a delivery or record has this shape. */
  lemma StepShape(capacity: nat, s: System, step: Step, t: System) returns (mid: System, await: Option<Await>)
    requires Inv(capacity, s) && Next(capacity, s, step, t) && !step.Settled?
    ensures Shaped(s, step, mid, await, t)
  {
    hide Shaped, Ready;
    match step
    case Register(incoming) => mid, await := RegisterShape(capacity, s, incoming, t);
    case RegisterChecked(_, _) => mid, await := RegisterCheckedShape(capacity, s, step, t);
    case Resolve(id, response) => mid, await := ResolveShape(capacity, s, id, response, t);
    case ResolveChecked(_, _) => mid, await := ResolveCheckedShape(capacity, s, step, t);
    case Cancel(id) => mid, await := EndLeaseShape(capacity, s, step, id, CANCELLED, t);
    case Expire(id) => mid, await := EndLeaseShape(capacity, s, step, id, EXPIRED, t);
    case InterruptProcess => mid, await := InterruptShape(capacity, s, t);
  }

  lemma RegisterShape(capacity: nat, s: System, incoming: Incoming, t: System) returns (mid: System, await: Option<Await>)
    requires Inv(capacity, s) && Next(capacity, s, Register(incoming), t)
    ensures Shaped(s, Register(incoming), mid, await, t)
  {
    ReadyAtOnce(capacity, s);
    hide Inv, Remember, Aside, Shaped, Ready, Apply;
    var before := s.(nextExchange := s.nextExchange + 1);
    var (after, first) := BeginRegister(s.broker, incoming, s.nextExchange, capacity);
    mid, await := Moved(before, after), Some(first);
    assert t == Apply(before, (after, Some(first)));
    hide Next;
    if first.CheckRegistration? {
      OtherShape(s, Register(incoming), before, after, Some(first));
    } else if incoming.key.Some? && incoming.bound && !s.broker.interrupted && s.broker.active.Some?
              && s.broker.active.value.key == incoming.key.value {
      EndingShape(capacity, s, Register(incoming), before, s.broker, s.broker.active.value, DUPLICATED);
    } else {
      RefusalShape(capacity, s, Register(incoming), before, incoming.key, first.evidence.reason.value);
    }
  }

  lemma RegisterCheckedShape(capacity: nat, s: System, step: Step, t: System) returns (mid: System, await: Option<Await>)
    requires Inv(capacity, s) && step.RegisterChecked? && Next(capacity, s, step, t)
    ensures Shaped(s, step, mid, await, t)
  {
    ReadyAfterCheck(capacity, s, step.task);
    var before := Dropped(s, step.task).(nextExchange := s.nextExchange + 1);
    if step.current {
      mid, await := t, None;
      NewLeaseShape(capacity, s, step, t);
    } else {
      hide Inv, Remember, Aside, Shaped, Ready, Apply;
      var (after, first) := Reject(s.broker, Some(s.tasks[step.task].key), s.nextExchange, StaleSession, capacity);
      mid, await := Moved(before, after), Some(first);
      RefusalShape(capacity, s, step, before, Some(s.tasks[step.task].key), StaleSession);
    }
  }

  lemma NewLeaseShape(capacity: nat, s: System, step: Step, t: System)
    requires Inv(capacity, s) && step.RegisterChecked? && step.current && Next(capacity, s, step, t)
    ensures Shaped(s, step, t, None, t)
  {
    DroppedFits(s, step.task);
    NewLeaseKeepsTasks(Dropped(s, step.task), t, s.nextExchange);
    hide CacheOk, ChecksOk, ActiveOk, TasksOk;
  }

  lemma ResolveShape(capacity: nat, s: System, id: nat, response: Option<Decision>, t: System)
    returns (mid: System, await: Option<Await>)
    requires Inv(capacity, s) && Next(capacity, s, Resolve(id, response), t)
    ensures Shaped(s, Resolve(id, response), mid, await, t)
  {
    ReadyAtOnce(capacity, s);
    hide Inv, Remember, Aside, Shaped, Ready, Apply;
    var outcome := BeginResolve(s.broker, id, response, capacity);
    mid, await := Moved(s, outcome.0), outcome.1;
    if IsLive(s, id) && response.None? {
      EndingShape(capacity, s, Resolve(id, response), s, s.broker, s.broker.active.value, STALE_AT_RESOLVE);
    } else {
      OtherShape(s, Resolve(id, response), s, s.broker, await);
    }
  }

  lemma ResolveCheckedShape(capacity: nat, s: System, step: Step, t: System) returns (mid: System, await: Option<Await>)
    requires Inv(capacity, s) && step.ResolveChecked? && Next(capacity, s, step, t)
    ensures Shaped(s, step, mid, await, t)
  {
    ReadyAfterCheck(capacity, s, step.task);
    hide Inv, Remember, Aside, Shaped, Ready, Apply;
    var check := s.tasks[step.task];
    var outcome := FinishResolve(s.broker, check.live, check.decision, step.current, capacity);
    mid, await := Moved(Dropped(s, step.task), outcome.0), outcome.1;
    EndingShape(capacity, s, step, Dropped(s, step.task), s.broker, check.live,
                if step.current then Resolution(check.decision) else STALE_AT_RESOLVE);
  }

  lemma EndLeaseShape(capacity: nat, s: System, step: Step, id: nat, e: Ending, t: System)
    returns (mid: System, await: Option<Await>)
    requires Inv(capacity, s) && Next(capacity, s, step, t)
    requires (step == Cancel(id) && e == CANCELLED) || (step == Expire(id) && e == EXPIRED)
    ensures Shaped(s, step, mid, await, t)
  {
    ReadyAtOnce(capacity, s);
    hide Inv, Remember, Aside, Shaped, Ready, Apply;
    var outcome := EndLease(s.broker, id, e, capacity);
    mid, await := Moved(s, outcome.0), outcome.1;
    if IsLive(s, id) {
      EndingShape(capacity, s, step, s, s.broker, s.broker.active.value, e);
    } else {
      OtherShape(s, step, s, s.broker, None);
    }
  }

  lemma InterruptShape(capacity: nat, s: System, t: System) returns (mid: System, await: Option<Await>)
    requires Inv(capacity, s) && Next(capacity, s, InterruptProcess, t)
    ensures Shaped(s, InterruptProcess, mid, await, t)
  {
    ReadyAtOnce(capacity, s);
    hide Inv, Remember, Aside, Shaped, Ready, Apply;
    var outcome := ApprovalBroker.Interrupt(s.broker, capacity);
    mid, await := Moved(s, outcome.0), outcome.1;
    var stopped := s.broker.(interrupted := true);
    if s.broker.active.Some? {
      EndingShape(capacity, s, InterruptProcess, s, stopped, s.broker.active.value, INTERRUPTED);
    } else {
      OtherShape(s, InterruptProcess, s, stopped, None);
    }
  }

  // ---------------------------------------------------------------- one step

  /** The answer begins: its first delivery or record is started. */
  lemma AnswerStarts(capacity: nat, s: System, step: Step, t: System, id: nat, reply: Option<Decision>, e: Evidence)
    requires Inv(capacity, s) && Next(capacity, s, step, t) && Owes(s, step, id, reply, e)
    ensures Unfolding(t, id, reply, e, true)
  {
    var mid, await := StepShape(capacity, s, step, t);
    assert Silent(s, id) by {
      OwedIsSilent(capacity, s, id);
    }
    hide Inv, Next, Due;
    assert Aside(s, mid, id);
    FirstStarts(mid, id, reply, e);
  }

  lemma OwedIsSilent(capacity: nat, s: System, id: nat)
    requires Inv(capacity, s) && (IsLive(s, id) || id == s.nextExchange)
    ensures Silent(s, id)
  {
    hide CacheOk, ChecksOk;
    forall k
      ensures !TaskOf(s, k, id)
    {
    }
  }

  lemma FirstStarts(s: System, id: nat, reply: Option<Decision>, e: Evidence)
    requires TasksOk(s) && Silent(s, id) && id == e.exchange
    ensures var t := Started(s, Some(FirstAwait(reply, e)));
            && (forall k :: TaskOf(t, k, id) ==> Underway(LogOf(t, id), t.tasks[k], reply, e, true))
            && Follows(LogOf(t, id), reply, e) && !NothingPends(t, id)
  {
    var t := Started(s, Some(FirstAwait(reply, e)));
    assert TaskOf(t, s.nextTask, id);
  }

  lemma OtherAside(capacity: nat, s: System, step: Step, t: System, id: nat)
    requires Inv(capacity, s) && Next(capacity, s, step, t) && !step.Settled?
    requires Due(s, step).None? || Due(s, step).value.record.exchange != id
    ensures Aside(s, t, id)
  {
    var mid, await := StepShape(capacity, s, step, t);
    hide Inv, Next, Due, TasksOk;
    assert Aside(s, mid, id);
    StartedAside(mid, await, id);
  }

  lemma OnlyOthersOwed(capacity: nat, s: System, step: Step, t: System, id: nat)
    requires Inv(capacity, s) && Next(capacity, s, step, t) && !step.Settled? && id < s.nextExchange && !IsLive(s, id)
    ensures Due(s, step).None? || Due(s, step).value.record.exchange != id
    ensures !IsLive(t, id) && id < t.nextExchange
  {
    var mid, await := StepShape(capacity, s, step, t);
    hide Inv, Next, Due, TasksOk, Aside;
  }

  lemma RecordedAside(s: System, task: nat, ok: bool, id: nat)
    requires task in s.tasks && !IsCheck(s.tasks[task]) && !TaskOf(s, task, id)
    ensures Aside(s, Recorded(Dropped(s, task), s.tasks[task], ok), id)
  {
  }

  lemma SettledAside(capacity: nat, s: System, task: nat, ok: bool, t: System, id: nat)
    requires Inv(capacity, s) && Next(capacity, s, Settled(task, ok), t) && !TaskOf(s, task, id)
    ensures Aside(s, t, id)
  {
    var a := s.tasks[task];
    var mid := Recorded(Dropped(s, task), a, ok);
    RecordedFits(s, task, ok);
    RecordedAside(s, task, ok, id);
    hide Inv, Next, Aside, Recorded;
    StartedAside(mid, AfterAwait(a, ok), id);
    AsideTransitive(s, mid, t, id);
  }

  lemma AsideTransitive(s: System, mid: System, t: System, id: nat)
    requires Aside(s, mid, id) && Aside(mid, t, id)
    ensures Aside(s, t, id)
  {
  }

  lemma SettledUnfolds(capacity: nat, s: System, task: nat, ok: bool, t: System, id: nat, reply: Option<Decision>, e: Evidence,
                       smooth: bool)
    requires Inv(capacity, s) && Next(capacity, s, Settled(task, ok), t) && TaskOf(s, task, id)
    requires Unfolding(s, id, reply, e, smooth) && (smooth ==> ok)
    ensures Unfolding(t, id, reply, e, smooth)
  {
    hide CacheOk, LogsOk, ActiveOk, ChecksOk;
    var a := s.tasks[task];
    assert Underway(LogOf(s, id), a, reply, e, smooth);
    forall k | TaskOf(t, k, id)
      ensures Underway(LogOf(t, id), t.tasks[k], reply, e, smooth)
    {
      assert k == s.nextTask;
    }
    if smooth && NothingPends(t, id) {
      assert AfterAwait(a, ok).Some? ==> TaskOf(t, s.nextTask, id);
    }
  }

  lemma UnfoldingAside(s: System, t: System, id: nat, reply: Option<Decision>, e: Evidence, smooth: bool)
    requires Unfolding(s, id, reply, e, smooth) && Aside(s, t, id) && id < t.nextExchange && !IsLive(t, id)
    ensures Unfolding(t, id, reply, e, smooth)
  {
    assert NothingPends(t, id) ==> NothingPends(s, id);
  }

  lemma UnfoldingGoesOn(capacity: nat, s: System, step: Step, t: System, id: nat, reply: Option<Decision>, e: Evidence, smooth: bool)
    requires Inv(capacity, s) && Next(capacity, s, step, t) && Unfolding(s, id, reply, e, smooth)
    requires smooth && step.Settled? ==> step.ok
    ensures Unfolding(t, id, reply, e, smooth)
  {
    hide Inv, Underway, Follows, Due, Aside;
    if !step.Settled? {
      OnlyOthersOwed(capacity, s, step, t, id);
      OtherAside(capacity, s, step, t, id);
      UnfoldingAside(s, t, id, reply, e, smooth);
    } else if TaskOf(s, step.task, id) {
      SettledUnfolds(capacity, s, step.task, step.ok, t, id, reply, e, smooth);
    } else {
      SettledAside(capacity, s, step.task, step.ok, t, id);
      UnfoldingAside(s, t, id, reply, e, smooth);
    }
  }

  lemma SilentGoesOn(capacity: nat, s: System, step: Step, t: System, id: nat)
    requires Inv(capacity, s) && Next(capacity, s, step, t) && Silent(s, id)
    requires Due(s, step).None? || Due(s, step).value.record.exchange != id
    ensures Silent(t, id)
  {
    hide Inv, Next, Due;
    if step.Settled? {
      SettledAside(capacity, s, step.task, step.ok, t, id);
    } else {
      OtherAside(capacity, s, step, t, id);
    }
  }

  // ---------------------------------------------------------------- runs

  lemma InvAt(capacity: nat, states: seq<System>, steps: seq<Step>, i: nat)
    requires capacity >= 1 && IsRun(capacity, states, steps) && i <= |steps|
    ensures Inv(capacity, states[i])
  {
    hide Next, Inv;
    assert forall k :: 0 <= k < i ==> steps[..i][k] == steps[k] && states[..i + 1][k + 1] == states[k + 1];
    RunKeepsInv(capacity, states[..i + 1], steps[..i]);
  }

  /** From step `i` on, every delivery and record that settles succeeds. */
  ghost predicate SmoothAfter(steps: seq<Step>, i: nat) {
    forall k :: i < k < |steps| && steps[k].Settled? ==> steps[k].ok
  }

  lemma {:induction false} UnfoldsUntil(capacity: nat, states: seq<System>, steps: seq<Step>, i: nat, n: nat, id: nat,
                                       reply: Option<Decision>, e: Evidence)
    requires capacity >= 1 && IsRun(capacity, states, steps) && i < n <= |steps| && Owes(states[i], steps[i], id, reply, e)
    ensures Unfolding(states[n], id, reply, e, SmoothAfter(steps, i))
    decreases n
  {
    hide Next, Inv, Unfolding, Due;
    InvAt(capacity, states, steps, n - 1);
    if n == i + 1 {
      AnswerStarts(capacity, states[i], steps[i], states[n], id, reply, e);
      Rougher(states[n], id, reply, e, SmoothAfter(steps, i));
    } else {
      UnfoldsUntil(capacity, states, steps, i, n - 1, id, reply, e);
      UnfoldingGoesOn(capacity, states[n - 1], steps[n - 1], states[n], id, reply, e, SmoothAfter(steps, i));
    }
  }

  lemma Rougher(s: System, id: nat, reply: Option<Decision>, e: Evidence, smooth: bool)
    requires Unfolding(s, id, reply, e, true)
    ensures Unfolding(s, id, reply, e, smooth)
  {
  }

  /**
   * What a step owes is what the exchange gets: its log follows that answer, and if no delivery or
   * record fails and none is left to do, the reply was sent and the record is durable.
   */
  lemma OwedIsGiven(capacity: nat, states: seq<System>, steps: seq<Step>, i: nat, id: nat, reply: Option<Decision>, e: Evidence)
    requires capacity >= 1 && IsRun(capacity, states, steps) && i < |steps| && Owes(states[i], steps[i], id, reply, e)
    ensures Follows(LogOf(states[|steps|], id), reply, e)
    ensures SmoothAfter(steps, i) && NothingPends(states[|steps|], id) ==> CarriedOut(LogOf(states[|steps|], id), reply, e)
  {
    hide Next, Due, Follows, CarriedOut, NothingPends, TaskOf;
    UnfoldsUntil(capacity, states, steps, i, |steps|, id, reply, e);
  }

  /** Nothing is answered or recorded that no step of the run owes. */
  lemma {:induction false} GivenIsOwed(capacity: nat, states: seq<System>, steps: seq<Step>, id: nat)
    returns (i: nat, reply: Option<Decision>, e: Evidence)
    requires capacity >= 1 && IsRun(capacity, states, steps) && !Silent(states[|steps|], id)
    ensures i < |steps| && Owes(states[i], steps[i], id, reply, e)
    decreases |steps|
  {
    hide Next, Inv, Silent, Due;
    SilentInitially(id);
    var n := |steps| - 1;
    if Due(states[n], steps[n]).Some? && Due(states[n], steps[n]).value.record.exchange == id {
      i, reply, e := n, Due(states[n], steps[n]).value.reply, Due(states[n], steps[n]).value.record;
    } else {
      InvAt(capacity, states, steps, n);
      RunPrefix(capacity, states, steps);
      if Silent(states[n], id) {
        SilentGoesOn(capacity, states[n], steps[n], states[n + 1], id);
      }
      i, reply, e := GivenIsOwed(capacity, states[..n + 1], steps[..n], id);
    }
  }

  lemma SilentInitially(id: nat)
    ensures Silent(InitialSystem, id)
  {
  }

  // ---------------------------------------------------------------- the operator's decision

  /** Task `k` checks the session for decision `d` on exchange `id`. */
  predicate Checks(s: System, k: nat, id: nat, d: Decision) {
    k in s.tasks && s.tasks[k].CheckResolution? && s.tasks[k].live.exchange == id && s.tasks[k].decision == d
  }

  lemma CheckStep(capacity: nat, s: System, step: Step, t: System, k: nat)
    requires Inv(capacity, s) && Next(capacity, s, step, t)
    ensures s.nextTask <= t.nextTask
    ensures k < s.nextTask && k in t.tasks ==> k in s.tasks && t.tasks[k] == s.tasks[k]
    ensures forall id, d :: Checks(t, k, id, d) && !Checks(s, k, id, d) ==> step == Resolve(id, Some(d)) && IsLive(s, id) && s.nextTask == k
    ensures forall id, d :: step == Resolve(id, Some(d)) && IsLive(s, id) && s.nextTask == k ==> Checks(t, k, id, d)
  {
    hide CacheOk, Remember, LogsOk, ActiveOk, LogOf, Traced;
  }

  /** A check of an answer was started by the operator giving that answer on the live lease. */
  lemma {:induction false} CheckHasAnswer(capacity: nat, states: seq<System>, steps: seq<Step>, n: nat, k: nat, id: nat, d: Decision)
    returns (j: nat)
    requires capacity >= 1 && IsRun(capacity, states, steps) && n <= |steps| && Checks(states[n], k, id, d)
    ensures j < n && steps[j] == Resolve(id, Some(d)) && IsLive(states[j], id) && states[j].nextTask == k
    decreases n
  {
    hide Next, Inv;
    InvAt(capacity, states, steps, n - 1);
    CheckStep(capacity, states[n - 1], steps[n - 1], states[n], k);
    if Checks(states[n - 1], k, id, d) {
      j := CheckHasAnswer(capacity, states, steps, n - 1, k, id, d);
    } else {
      j := n - 1;
    }
  }

  /** The check that an answer starts stays what it is until it is done. */
  lemma {:induction false} AnswerHasCheck(capacity: nat, states: seq<System>, steps: seq<Step>, j: nat, n: nat, id: nat, d: Decision)
    requires capacity >= 1 && IsRun(capacity, states, steps) && j < n <= |steps|
    requires steps[j] == Resolve(id, Some(d)) && IsLive(states[j], id)
    ensures states[j].nextTask < states[n].nextTask
    ensures states[j].nextTask in states[n].tasks ==> Checks(states[n], states[j].nextTask, id, d)
    decreases n
  {
    hide Next, Inv;
    InvAt(capacity, states, steps, n - 1);
    CheckStep(capacity, states[n - 1], steps[n - 1], states[n], states[j].nextTask);
    if n == j + 1 {
      CheckedIsCounted(capacity, states, steps, n, states[j].nextTask);
    } else {
      AnswerHasCheck(capacity, states, steps, j, n - 1, id, d);
    }
  }

  lemma CheckedIsCounted(capacity: nat, states: seq<System>, steps: seq<Step>, n: nat, k: nat)
    requires capacity >= 1 && IsRun(capacity, states, steps) && n <= |steps| && k in states[n].tasks
    ensures k < states[n].nextTask
  {
    InvAt(capacity, states, steps, n);
  }

  /** Step `j` answers the live lease `id` with `d`, and step `i` is what its session check brought. */
  predicate Answered(states: seq<System>, steps: seq<Step>, j: nat, i: nat, id: nat, d: Decision, current: bool)
    requires |states| == |steps| + 1
  {
    && j < i < |steps| && steps[j] == Resolve(id, Some(d)) && IsLive(states[j], id)
    && steps[i] == ResolveChecked(states[j].nextTask, current) && IsLive(states[i], id)
  }

  /**
   * Every approval that was sent, and every decision that was recorded, is the one the operator gave
   * for this very lease, and its session check came back current.
   */
  lemma DecisionIsTheOperators(capacity: nat, states: seq<System>, steps: seq<Step>, id: nat, d: Decision) returns (j: nat, i: nat)
    requires capacity >= 1 && IsRun(capacity, states, steps)
    requires var log := LogOf(states[|steps|], id);
             (d == Approve && Approve in log.replies) || exists e :: e in log.asked && e.decision == Some(d)
    ensures Answered(states, steps, j, i, id, d, true)
  {
    hide Next;
    var reply, e;
    i, reply, e := GivenIsOwed(capacity, states, steps, id);
    OwedIsGiven(capacity, states, steps, i, id, reply, e);
    assert reply == Some(d) || e.decision == Some(d);
    DecisionIsChecked(states[i], steps[i], id, reply, e, d);
    j := CheckHasAnswer(capacity, states, steps, i, steps[i].task, id, d);
  }

  lemma DecisionIsChecked(s: System, step: Step, id: nat, reply: Option<Decision>, e: Evidence, d: Decision)
    requires Owes(s, step, id, reply, e) && (e.decision == Some(d) || (d == Approve && reply == Some(d)))
    ensures step.ResolveChecked? && step.current && Checks(s, step.task, id, d) && IsLive(s, id)
  {
  }

  /** A record is `Resolved` exactly if it carries a decision, and gives a reason exactly otherwise. */
  lemma RecordsAreConsistent(capacity: nat, states: seq<System>, steps: seq<Step>, id: nat, e: Evidence)
    requires capacity >= 1 && IsRun(capacity, states, steps) && e in LogOf(states[|steps|], id).asked
    ensures e.exchange == id && (e.status == Resolved <==> e.decision.Some?) && (e.reason.None? <==> e.decision.Some?)
  {
    hide Next;
    var i, reply, owed := GivenIsOwed(capacity, states, steps, id);
    OwedIsGiven(capacity, states, steps, i, id, reply, owed);
  }

  lemma AnswerIsOwed(capacity: nat, states: seq<System>, steps: seq<Step>, j: nat, i: nat, id: nat, d: Decision, current: bool)
    requires capacity >= 1 && IsRun(capacity, states, steps) && Answered(states, steps, j, i, id, d, current)
    ensures if current then Owes(states[i], steps[i], id, Some(d), Evidence(id, Resolved, Some(d), None))
            else Owes(states[i], steps[i], id, Some(Deny), Evidence(id, Denied, None, Some(StaleSession)))
  {
    AnswerHasCheck(capacity, states, steps, j, i, id, d);
    assert Next(capacity, states[i], steps[i], states[i + 1]);
    assert Checks(states[i], states[j].nextTask, id, d);
    hide Next, IsRun;
  }

  /** The operator's answer, if its session check came back current, is what is recorded and sent. */
  lemma CurrentAnswerIsGiven(capacity: nat, states: seq<System>, steps: seq<Step>, j: nat, i: nat, id: nat, d: Decision)
    requires capacity >= 1 && IsRun(capacity, states, steps) && Answered(states, steps, j, i, id, d, true)
    ensures var log, e := LogOf(states[|steps|], id), Evidence(id, Resolved, Some(d), None);
            && (d == Approve ==> log.asked == [e] && (log.replies == [] || (log.replies == [Approve] && log.durable == [e])))
            && (d == Deny ==> log.replies == [Deny] && (log.asked == [] || log.asked == [e] || log.asked == [Undelivered(id)]))
            && (SmoothAfter(steps, i) && NothingPends(states[|steps|], id) ==> log.replies == [d] && log.durable == [e])
  {
    hide Next, Due, TaskOf;
    AnswerIsOwed(capacity, states, steps, j, i, id, d, true);
    OwedIsGiven(capacity, states, steps, i, id, Some(d), Evidence(id, Resolved, Some(d), None));
  }

  // ---------------------------------------------------------------- denials and silence

  /** The exchange was denied, and recorded as `e` unless that denial could not be delivered. */
  ghost predicate DeniedAs(states: seq<System>, steps: seq<Step>, i: nat, id: nat, status: Status, reason: Reason)
    requires |states| == |steps| + 1
  {
    var log, e := LogOf(states[|steps|], id), Evidence(id, status, None, Some(reason));
    && log.replies == [Deny] && (log.asked == [] || log.asked == [e] || log.asked == [Undelivered(id)])
    && (SmoothAfter(steps, i) && NothingPends(states[|steps|], id) ==> log.durable == [e])
  }

  lemma OwedDenial(capacity: nat, states: seq<System>, steps: seq<Step>, i: nat, id: nat, status: Status, reason: Reason)
    requires capacity >= 1 && IsRun(capacity, states, steps) && i < |steps|
    requires Owes(states[i], steps[i], id, Some(Deny), Evidence(id, status, None, Some(reason)))
    ensures DeniedAs(states, steps, i, id, status, reason)
  {
    hide Next, Due, TaskOf;
    OwedIsGiven(capacity, states, steps, i, id, Some(Deny), Evidence(id, status, None, Some(reason)));
  }

  /** An answer whose session check fails, and a malformed one, deny the live lease. */
  lemma StaleAnswerIsDenied(capacity: nat, states: seq<System>, steps: seq<Step>, j: nat, i: nat, id: nat, d: Decision)
    requires capacity >= 1 && IsRun(capacity, states, steps)
    requires Answered(states, steps, j, i, id, d, false)
             || (i < |steps| && steps[i] == Resolve(id, None) && IsLive(states[i], id))
    ensures DeniedAs(states, steps, i, id, Denied, StaleSession)
  {
    hide Next;
    if Answered(states, steps, j, i, id, d, false) {
      AnswerIsOwed(capacity, states, steps, j, i, id, d, false);
    }
    OwedDenial(capacity, states, steps, i, id, Denied, StaleSession);
  }

  /** A timeout denies its live lease and an interrupt whichever lease is live. */
  lemma TimeoutAndInterruptDeny(capacity: nat, states: seq<System>, steps: seq<Step>, i: nat, id: nat)
    requires capacity >= 1 && IsRun(capacity, states, steps) && i < |steps| && IsLive(states[i], id)
    ensures steps[i] == Expire(id) ==> DeniedAs(states, steps, i, id, TimedOut, TimeoutReached)
    ensures steps[i] == InterruptProcess ==> DeniedAs(states, steps, i, id, Interrupted, ProcessInterrupted)
  {
    hide Next, DeniedAs;
    if steps[i] == Expire(id) {
      OwedDenial(capacity, states, steps, i, id, TimedOut, TimeoutReached);
    } else if steps[i] == InterruptProcess {
      OwedDenial(capacity, states, steps, i, id, Interrupted, ProcessInterrupted);
    }
  }

  /** A cancelled lease is recorded and never answered. */
  lemma CancelIsSilent(capacity: nat, states: seq<System>, steps: seq<Step>, i: nat, id: nat)
    requires capacity >= 1 && IsRun(capacity, states, steps) && i < |steps| && IsLive(states[i], id) && steps[i] == Cancel(id)
    ensures var log, e := LogOf(states[|steps|], id), Evidence(id, Cancelled, None, Some(CancelledByBackend));
            && log.replies == [] && log.asked == [e]
            && (SmoothAfter(steps, i) && NothingPends(states[|steps|], id) ==> log.durable == [e])
  {
    hide Next, TaskOf;
    var e := Evidence(id, Cancelled, None, Some(CancelledByBackend));
    assert Owes(states[i], steps[i], id, None, e);
    OwedIsGiven(capacity, states, steps, i, id, None, e);
  }

  /** Why `register` refuses a request, in the order of its checks. */
  function Refusal(b: Broker, incoming: Incoming): Option<Reason> {
    if incoming.key.None? || !incoming.bound then Some(IdentityMismatch)
    else if b.interrupted then Some(ProcessInterrupted)
    else if b.active.Some? then Some(if b.active.value.key == incoming.key.value then DuplicateRequest else ConcurrentRequest)
    else if incoming.key.value in b.completed then Some(DuplicateRequest)
    else None
  }

  /** A refused request is denied with its reason; a duplicate of the live request denies that lease instead. */
  lemma RefusedIsDenied(capacity: nat, states: seq<System>, steps: seq<Step>, i: nat, incoming: Incoming)
    requires capacity >= 1 && IsRun(capacity, states, steps) && i < |steps| && steps[i] == Register(incoming)
    requires Refusal(states[i].broker, incoming).Some?
    ensures var b, reason := states[i].broker, Refusal(states[i].broker, incoming).value;
            var ends := incoming.key.Some? && incoming.bound && !b.interrupted && b.active.Some? && b.active.value.key == incoming.key.value;
            DeniedAs(states, steps, i, if ends then b.active.value.exchange else states[i].nextExchange,
                     if reason == ProcessInterrupted then Interrupted else Denied, reason)
  {
    hide Next, DeniedAs;
    var e := Due(states[i], steps[i]).value.record;
    OwedDenial(capacity, states, steps, i, e.exchange, e.status, e.reason.value);
  }

  /** A request whose session check fails is denied under a fresh exchange. */
  lemma UncheckedIsDenied(capacity: nat, states: seq<System>, steps: seq<Step>, i: nat)
    requires capacity >= 1 && IsRun(capacity, states, steps) && i < |steps| && steps[i].RegisterChecked? && !steps[i].current
    ensures DeniedAs(states, steps, i, states[i].nextExchange, Denied, StaleSession)
  {
    hide Next;
    OwedDenial(capacity, states, steps, i, states[i].nextExchange, Denied, StaleSession);
  }
}
