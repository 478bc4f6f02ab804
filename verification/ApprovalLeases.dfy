/** What becomes of a lease: when registrations overlap, and when an interrupt races one. */
module ApprovalLeases {
  import opened Common
  import opened ApprovalBroker
  import opened ApprovalRuns

  // ---------------------------------------------------------------- a finished exchange stays finished

  /** An ended exchange with nothing left to deliver or record. */
  ghost predicate Finished(s: System, id: nat) {
    LogOf(s, id).ends > 0 && forall k :: k in s.tasks && !IsCheck(s.tasks[k]) ==> ExchangeOf(s.tasks[k]) != id
  }

  lemma StartedElsewhere(s: System, await: Option<Await>, id: nat)
    requires await.None? || IsCheck(await.value) || ExchangeOf(await.value) != id
    ensures LogOf(Started(s, await), id) == LogOf(s, id)
    ensures Finished(s, id) ==> Finished(Started(s, await), id)
  {
  }

  lemma EndingElsewhere(capacity: nat, s: System, id: nat, live: Live, e: Ending, stopped: bool)
    requires Inv(capacity, s) && Finished(s, id)
    ensures var t := Apply(s, Terminalize(s.broker.(interrupted := stopped || s.broker.interrupted), live, e, capacity));
            LogOf(t, id) == LogOf(s, id) && Finished(t, id)
  {
    var (after, await) := Terminalize(s.broker.(interrupted := stopped || s.broker.interrupted), live, e, capacity);
    assert s.broker.active.Some? ==> s.broker.active.value.exchange != id;
    StartedElsewhere(Moved(s, after), await, id);
  }

  lemma RegisterElsewhere(capacity: nat, s: System, incoming: Incoming, id: nat)
    requires Inv(capacity, s) && Finished(s, id)
    ensures var (after, await) := BeginRegister(s.broker, incoming, s.nextExchange, capacity);
            var t := Apply(s.(nextExchange := s.nextExchange + 1), (after, Some(await)));
            LogOf(t, id) == LogOf(s, id) && Finished(t, id)
  {
    hide CacheOk, Remember;
    assert id in s.logs && id < s.nextExchange;
    var (after, await) := BeginRegister(s.broker, incoming, s.nextExchange, capacity);
    assert s.broker.active.Some? ==> s.broker.active.value.exchange != id;
    StartedElsewhere(Moved(s.(nextExchange := s.nextExchange + 1), after), Some(await), id);
  }

  lemma RegisterCheckedElsewhere(capacity: nat, s: System, step: Step, t: System, id: nat)
    requires Inv(capacity, s) && Finished(s, id) && step.RegisterChecked? && Next(capacity, s, step, t)
    ensures LogOf(t, id) == LogOf(s, id) && Finished(t, id)
  {
    hide CacheOk, Remember;
    assert id in s.logs && id < s.nextExchange;
    if !step.current {
      var outcome := FinishRegister(s.broker, s.tasks[step.task].key, false, s.nextExchange, capacity);
      StartedElsewhere(Moved(Dropped(s, step.task).(nextExchange := s.nextExchange + 1), outcome.0), outcome.1, id);
    }
  }

  lemma LeaseActionElsewhere(capacity: nat, s: System, id: nat, live: Live, e: Ending)
    requires Inv(capacity, s) && Finished(s, id)
    ensures var t := Apply(s, Terminalize(s.broker, live, e, capacity)); LogOf(t, id) == LogOf(s, id) && Finished(t, id)
  {
    EndingElsewhere(capacity, s, id, live, e, false);
    assert s.broker.(interrupted := false || s.broker.interrupted) == s.broker;
  }

  /** No later step answers, records or ends a finished exchange again. */
  lemma FinishedIsFinal(capacity: nat, s: System, step: Step, t: System, id: nat)
    requires Inv(capacity, s) && Finished(s, id) && Next(capacity, s, step, t)
    ensures LogOf(t, id) == LogOf(s, id) && Finished(t, id)
  {
    var dummy := Live(0, RequestKey(""));
    match step
    case Register(incoming) => RegisterElsewhere(capacity, s, incoming, id);
    case RegisterChecked(_, _) => RegisterCheckedElsewhere(capacity, s, step, t, id);
    case Resolve(exchange, response) => ResolveElsewhere(capacity, s, id, exchange, response);
    case ResolveChecked(task, current) =>
      DropKeepsInv(capacity, s, task);
      LeaseActionElsewhere(capacity, Dropped(s, task), id, s.tasks[task].live,
                           if current then Resolution(s.tasks[task].decision) else STALE_AT_RESOLVE);
    case Cancel(exchange) => EndLeaseElsewhere(capacity, s, id, exchange, CANCELLED);
    case Expire(exchange) => EndLeaseElsewhere(capacity, s, id, exchange, EXPIRED);
    case InterruptProcess =>
      EndingElsewhere(capacity, s, id, if s.broker.active.Some? then s.broker.active.value else dummy, INTERRUPTED, true);
    case Settled(task, ok) =>
      StartedElsewhere(Recorded(Dropped(s, task), s.tasks[task], ok), AfterAwait(s.tasks[task], ok), id);
  }

  lemma ResolveElsewhere(capacity: nat, s: System, id: nat, exchange: nat, response: Option<Decision>)
    requires Inv(capacity, s) && Finished(s, id)
    ensures var t := Apply(s, BeginResolve(s.broker, exchange, response, capacity)); LogOf(t, id) == LogOf(s, id) && Finished(t, id)
  {
    if s.broker.active.Some? {
      LeaseActionElsewhere(capacity, s, id, s.broker.active.value, STALE_AT_RESOLVE);
    }
  }

  lemma EndLeaseElsewhere(capacity: nat, s: System, id: nat, exchange: nat, e: Ending)
    requires Inv(capacity, s) && Finished(s, id)
    ensures var t := Apply(s, EndLease(s.broker, exchange, e, capacity)); LogOf(t, id) == LogOf(s, id) && Finished(t, id)
  {
    if s.broker.active.Some? {
      LeaseActionElsewhere(capacity, s, id, s.broker.active.value, e);
    }
  }

  // ---------------------------------------------------------------- exactly when a lease is lost

  /** A lease that was handed out, has not ended, and is not the active one: nothing can end it any more. */
  predicate Lost(s: System, id: nat) {
    && id in s.logs && s.logs[id].registered && s.logs[id].ends == 0
    && !(s.broker.active.Some? && s.broker.active.value.exchange == id)
  }

  ghost predicate NoLeaseDropped(s: System) {
    forall id :: !Lost(s, id)
  }

  /** A registration whose session check passed while a lease is live: the code does not look again. */
  predicate TakesOver(s: System, step: Step) {
    step.RegisterChecked? && step.current && s.broker.active.Some?
  }

  predicate TakesOverLease(s: System, step: Step, id: nat) {
    TakesOver(s, step) && s.broker.active.value.exchange == id
  }

  predicate ActiveIsRegistered(s: System) {
    s.broker.active.Some? ==> LogOf(s, s.broker.active.value.exchange).registered
  }

  ghost predicate SameLosses(s: System, t: System) {
    (ActiveIsRegistered(s) ==> ActiveIsRegistered(t)) && forall id :: Lost(t, id) <==> Lost(s, id)
  }

  lemma MovedLosesNothing(s: System, after: Broker)
    requires ActiveIsRegistered(s) && ActiveOk(s) && (after.active == s.broker.active || after.active.None?)
    ensures SameLosses(s, Moved(s, after))
  {
  }

  lemma StartedLosesNothing(s: System, await: Option<Await>)
    ensures SameLosses(s, Started(s, await))
  {
  }

  lemma ApplyLosesNothing(s: System, outcome: (Broker, Option<Await>))
    requires ActiveIsRegistered(s) && ActiveOk(s) && (outcome.0.active == s.broker.active || outcome.0.active.None?)
    ensures SameLosses(s, Apply(s, outcome))
  {
    hide Lost, ActiveIsRegistered, ActiveOk;
    MovedLosesNothing(s, outcome.0);
    StartedLosesNothing(Moved(s, outcome.0), outcome.1);
  }

  /** Only logs and the active lease matter. */
  lemma AsideLosesNothing(s: System, tasks: map<nat, Await>, nextExchange: nat)
    ensures SameLosses(s, s.(tasks := tasks, nextExchange := nextExchange))
    ensures ActiveOk(s) && s.nextExchange <= nextExchange ==> ActiveOk(s.(tasks := tasks, nextExchange := nextExchange))
  {
  }

  lemma RecordedLosesNothing(s: System, a: Await, ok: bool)
    ensures SameLosses(s, Recorded(s, a, ok))
  {
  }

  lemma SettledLosesNothing(s: System, task: nat, ok: bool)
    requires task in s.tasks && !IsCheck(s.tasks[task])
    ensures SameLosses(s, Started(Recorded(Dropped(s, task), s.tasks[task], ok), AfterAwait(s.tasks[task], ok)))
  {
    hide Lost, ActiveIsRegistered, Recorded, Started;
    AsideLosesNothing(s, s.tasks - {task}, s.nextExchange);
    RecordedLosesNothing(Dropped(s, task), s.tasks[task], ok);
    StartedLosesNothing(Recorded(Dropped(s, task), s.tasks[task], ok), AfterAwait(s.tasks[task], ok));
  }

  /** A new lease is not lost itself; the lease it replaces is. */
  lemma NewLeaseReplaces(s: System, t: System, id: nat, key: RequestKey)
    requires ActiveIsRegistered(s) && ActiveOk(s) && (forall i :: i in s.logs ==> i < id) && s.nextExchange <= id
    requires t.broker.active == Some(Live(id, key)) && t.logs == s.logs[id := EmptyLog.(registered := true)]
    ensures ActiveIsRegistered(t)
    ensures forall i :: Lost(t, i) <==> Lost(s, i) || (s.broker.active.Some? && s.broker.active.value.exchange == i)
  {
  }

  /** One step loses the lease it takes over, and no other step loses or restores any. */
  lemma StepLosses(capacity: nat, s: System, step: Step, t: System)
    requires Inv(capacity, s) && ActiveIsRegistered(s) && Next(capacity, s, step, t)
    ensures ActiveIsRegistered(t)
    ensures forall id :: Lost(t, id) <==> Lost(s, id) || TakesOverLease(s, step, id)
  {
    hide CacheOk, Remember, Lost, ActiveIsRegistered, LogsOk, ActiveOk, Terminalize, Reject, TasksOk, ChecksOk, Apply, Recorded, Started;
    match step
    case Register(incoming) =>
      var (after, await) := BeginRegister(s.broker, incoming, s.nextExchange, capacity);
      AsideLosesNothing(s, s.tasks, s.nextExchange + 1);
      ApplyLosesNothing(s.(nextExchange := s.nextExchange + 1), (after, Some(await)));
    case RegisterChecked(task, current) => CheckedLosses(capacity, s, step, t);
    case ResolveChecked(task, current) =>
      AsideLosesNothing(s, s.tasks - {task}, s.nextExchange);
      ApplyLosesNothing(Dropped(s, task), FinishResolve(s.broker, s.tasks[task].live, s.tasks[task].decision, current, capacity));
    case Resolve(exchange, response) => ApplyLosesNothing(s, BeginResolve(s.broker, exchange, response, capacity));
    case Cancel(exchange) => ApplyLosesNothing(s, EndLease(s.broker, exchange, CANCELLED, capacity));
    case Expire(exchange) => ApplyLosesNothing(s, EndLease(s.broker, exchange, EXPIRED, capacity));
    case InterruptProcess => ApplyLosesNothing(s, ApprovalBroker.Interrupt(s.broker, capacity));
    case Settled(task, ok) => SettledLosesNothing(s, task, ok);
  }

  lemma CheckedLosses(capacity: nat, s: System, step: Step, t: System)
    requires Inv(capacity, s) && ActiveIsRegistered(s) && step.RegisterChecked? && Next(capacity, s, step, t)
    ensures ActiveIsRegistered(t)
    ensures forall id :: Lost(t, id) <==> Lost(s, id) || TakesOverLease(s, step, id)
  {
    hide CacheOk, Remember, Lost, ActiveIsRegistered, ActiveOk, Reject, TasksOk, ChecksOk, Apply;
    var key := s.tasks[step.task].key;
    if step.current {
      NewLeaseReplaces(s, t, s.nextExchange, key);
    } else {
      var ready := Dropped(s, step.task).(nextExchange := s.nextExchange + 1);
      AsideLosesNothing(s, s.tasks - {step.task}, s.nextExchange + 1);
      ApplyLosesNothing(ready, FinishRegister(s.broker, key, false, s.nextExchange, capacity));
    }
  }

  /** The leases lost along a run are exactly those that were live when a registration went through. */
  lemma {:induction false} LostLeases(capacity: nat, states: seq<System>, steps: seq<Step>, id: nat)
    requires capacity >= 1 && IsRun(capacity, states, steps)
    ensures ActiveIsRegistered(states[|steps|])
    ensures Lost(states[|steps|], id) <==> exists i :: 0 <= i < |steps| && TakesOverLease(states[i], steps[i], id)
  {
    hide Next, Inv, Lost, ActiveIsRegistered, TakesOverLease;
    if |steps| == 0 {
      NothingLostInitially(id);
    } else {
      var n := |steps| - 1;
      RunPrefix(capacity, states, steps);
      RunKeepsInv(capacity, states[..n + 1], steps[..n]);
      assert forall i :: 0 <= i < n ==> steps[..n][i] == steps[i] && states[..n + 1][i] == states[i];
      LostLeases(capacity, states[..n + 1], steps[..n], id);
      StepLosses(capacity, states[n], steps[n], states[n + 1]);
    }
  }

  lemma NothingLostInitially(id: nat)
    ensures ActiveIsRegistered(InitialSystem) && !Lost(InitialSystem, id)
  {
  }

  /** A run loses no lease if and only if no registration goes through while a lease is live. */
  lemma NoLeaseDroppedIff(capacity: nat, states: seq<System>, steps: seq<Step>)
    requires capacity >= 1 && IsRun(capacity, states, steps)
    ensures NoLeaseDropped(states[|steps|]) <==> forall i :: 0 <= i < |steps| ==> !TakesOver(states[i], steps[i])
  {
    hide Next, Lost;
    if i :| 0 <= i < |steps| && TakesOver(states[i], steps[i]) {
      var id := states[i].broker.active.value.exchange;
      assert TakesOverLease(states[i], steps[i], id);
      LostLeases(capacity, states, steps, id);
      assert Lost(states[|steps|], id);
    } else {
      forall id
        ensures !Lost(states[|steps|], id)
      {
        LostLeases(capacity, states, steps, id);
      }
    }
  }

  /** Two overlapping registrations both pass the check, and the first lease is silently replaced. */
  lemma OverlapDropsALease(capacity: nat, a: RequestKey, b: RequestKey) returns (states: seq<System>, steps: seq<Step>)
    requires capacity >= 1
    ensures IsRun(capacity, states, steps) && |steps| == 4
    ensures Lost(states[4], 2) && states[4].broker.active == Some(Live(3, b)) && states[4].tasks == map[]
  {
    steps := [Register(Incoming(Some(a), true)), Register(Incoming(Some(b), true)), RegisterChecked(0, true), RegisterChecked(1, true)];
    var first := InitialSystem.(tasks := map[0 := CheckRegistration(a)], nextTask := 1, nextExchange := 1);
    var second := first.(tasks := map[0 := CheckRegistration(a), 1 := CheckRegistration(b)], nextTask := 2, nextExchange := 2);
    var third := System(Broker(Some(Live(2, a)), false, {}, []), map[1 := CheckRegistration(b)],
                        map[2 := EmptyLog.(registered := true)], 2, 3);
    var fourth := System(Broker(Some(Live(3, b)), false, {}, []), map[],
                         map[2 := EmptyLog.(registered := true), 3 := EmptyLog.(registered := true)], 2, 4);
    states := [InitialSystem, first, second, third, fourth];
    assert Next(capacity, InitialSystem, steps[0], first);
    assert Next(capacity, first, steps[1], second);
    assert Dropped(second, 0).tasks == map[1 := CheckRegistration(b)];
    assert Next(capacity, second, steps[2], third);
    assert Dropped(third, 1).tasks == map[];
    assert Next(capacity, third, steps[3], fourth);
  }

  // ---------------------------------------------------------------- serialised registrations

  ghost predicate RegistrationPending(s: System) {
    exists k :: k in s.tasks && s.tasks[k].CheckRegistration?
  }

  /** The adapter starts a registration only after the previous one has returned. */
  ghost predicate Serialised(states: seq<System>, steps: seq<Step>)
    requires |states| == |steps| + 1
  {
    forall i :: 0 <= i < |steps| && steps[i].Register? ==> !RegistrationPending(states[i])
  }

  /** While one registration waits nothing is active, and no other registration waits. */
  ghost predicate OneAtATime(s: System) {
    && (RegistrationPending(s) ==> s.broker.active.None?)
    && (forall j, k :: j in s.tasks && k in s.tasks && s.tasks[j].CheckRegistration? && s.tasks[k].CheckRegistration? ==> j == k)
  }

  /** No registration starts to wait and nothing becomes active. */
  ghost predicate StaysOneAtATime(s: System, t: System) {
    && (t.broker.active == s.broker.active || t.broker.active.None?)
    && forall k :: k in t.tasks && t.tasks[k].CheckRegistration? ==> k in s.tasks && s.tasks[k].CheckRegistration?
  }

  lemma StaysMeansKeeps(s: System, t: System)
    requires OneAtATime(s) && StaysOneAtATime(s, t)
    ensures OneAtATime(t)
  {
  }

  lemma ApplyStays(s: System, outcome: (Broker, Option<Await>))
    requires TasksOk(s) && (outcome.0.active == s.broker.active || outcome.0.active.None?)
    requires outcome.1.Some? ==> !outcome.1.value.CheckRegistration?
    ensures StaysOneAtATime(s, Apply(s, outcome))
  {
  }

  lemma DroppedStays(s: System, task: nat, nextExchange: nat)
    requires TasksOk(s) && s.nextExchange <= nextExchange
    ensures var t := Dropped(s, task).(nextExchange := nextExchange); StaysOneAtATime(s, t) && TasksOk(t)
  {
    var t := Dropped(s, task);
    assert forall k :: k in t.tasks ==> k in s.tasks && t.tasks[k] == s.tasks[k];
  }

  lemma SettledStays(s: System, task: nat, ok: bool)
    requires TasksOk(s) && task in s.tasks && !IsCheck(s.tasks[task])
    ensures StaysOneAtATime(s, Started(Recorded(Dropped(s, task), s.tasks[task], ok), AfterAwait(s.tasks[task], ok)))
  {
  }

  /** Steps that register nothing leave at most the one waiting registration. */
  lemma OtherStepStays(capacity: nat, s: System, step: Step, t: System)
    requires Inv(capacity, s) && Next(capacity, s, step, t) && !step.Register? && !(step.RegisterChecked? && step.current)
    ensures StaysOneAtATime(s, t)
  {
    hide CacheOk, Remember, LogsOk, ActiveOk, Terminalize, Reject, TasksOk, ChecksOk, Apply;
    match step
    case RegisterChecked(task, current) =>
      DroppedStays(s, task, s.nextExchange + 1);
      ApplyStays(Dropped(s, task).(nextExchange := s.nextExchange + 1),
                 FinishRegister(s.broker, s.tasks[task].key, false, s.nextExchange, capacity));
    case ResolveChecked(task, current) =>
      DroppedStays(s, task, s.nextExchange);
      ApplyStays(Dropped(s, task), FinishResolve(s.broker, s.tasks[task].live, s.tasks[task].decision, current, capacity));
    case Resolve(exchange, response) => ApplyStays(s, BeginResolve(s.broker, exchange, response, capacity));
    case Cancel(exchange) => ApplyStays(s, EndLease(s.broker, exchange, CANCELLED, capacity));
    case Expire(exchange) => ApplyStays(s, EndLease(s.broker, exchange, EXPIRED, capacity));
    case InterruptProcess => ApplyStays(s, ApprovalBroker.Interrupt(s.broker, capacity));
    case Settled(task, ok) => SettledStays(s, task, ok);
    case _ =>
  }

  lemma RegisterKeepsOne(capacity: nat, s: System, incoming: Incoming)
    requires Inv(capacity, s) && OneAtATime(s) && !RegistrationPending(s)
    ensures var (after, await) := BeginRegister(s.broker, incoming, s.nextExchange, capacity);
            OneAtATime(Apply(s.(nextExchange := s.nextExchange + 1), (after, Some(await))))
  {
    hide CacheOk, Remember;
    var (after, await) := BeginRegister(s.broker, incoming, s.nextExchange, capacity);
    var t := Apply(s.(nextExchange := s.nextExchange + 1), (after, Some(await)));
    forall k | k in t.tasks && t.tasks[k].CheckRegistration?
      ensures k == s.nextTask && await.CheckRegistration?
    {
    }
  }

  lemma CheckedKeepsOne(capacity: nat, s: System, step: Step, t: System)
    requires Inv(capacity, s) && OneAtATime(s) && step.RegisterChecked? && step.current && Next(capacity, s, step, t)
    ensures OneAtATime(t) && !TakesOver(s, step)
  {
    hide CacheOk, Remember;
    assert t.tasks == s.tasks - {step.task};
  }

  lemma NextKeepsOne(capacity: nat, s: System, step: Step, t: System)
    requires Inv(capacity, s) && OneAtATime(s) && Next(capacity, s, step, t) && (step.Register? ==> !RegistrationPending(s))
    ensures OneAtATime(t) && !TakesOver(s, step)
  {
    hide Inv, OneAtATime, RegistrationPending, StaysOneAtATime, Apply, Remember;
    if step.Register? {
      RegisterKeepsOne(capacity, s, step.incoming);
    } else if step.RegisterChecked? && step.current {
      CheckedKeepsOne(capacity, s, step, t);
    } else {
      OtherStepStays(capacity, s, step, t);
      StaysMeansKeeps(s, t);
    }
  }

  lemma {:induction false} SerialisedNeverTakesOver(capacity: nat, states: seq<System>, steps: seq<Step>)
    requires capacity >= 1 && IsRun(capacity, states, steps) && Serialised(states, steps)
    ensures OneAtATime(states[|steps|]) && forall i :: 0 <= i < |steps| ==> !TakesOver(states[i], steps[i])
  {
    hide Next, Inv, OneAtATime, RegistrationPending, TakesOver;
    if |steps| == 0 {
      NothingWaitsInitially();
    } else {
      var n := |steps| - 1;
      RunPrefix(capacity, states, steps);
      RunKeepsInv(capacity, states[..n + 1], steps[..n]);
      assert forall i :: 0 <= i < n ==> steps[..n][i] == steps[i] && states[..n + 1][i] == states[i];
      SerialisedNeverTakesOver(capacity, states[..n + 1], steps[..n]);
      NextKeepsOne(capacity, states[n], steps[n], states[n + 1]);
    }
  }

  lemma NothingWaitsInitially()
    ensures OneAtATime(InitialSystem)
  {
  }

  /** With registrations one after the other, as the adapter makes them, no lease is ever lost. */
  lemma SerialisedRunDropsNoLease(capacity: nat, states: seq<System>, steps: seq<Step>)
    requires capacity >= 1 && IsRun(capacity, states, steps) && Serialised(states, steps)
    ensures NoLeaseDropped(states[|steps|])
  {
    hide Next, NoLeaseDropped, TakesOver, OneAtATime;
    SerialisedNeverTakesOver(capacity, states, steps);
    NoLeaseDroppedIff(capacity, states, steps);
  }

  // ---------------------------------------------------------------- interrupts

  /** An interrupt with no registration waiting leaves the broker without a live request for good. */
  ghost predicate Quiet(s: System) {
    s.broker.interrupted && s.broker.active.None? && !RegistrationPending(s)
  }

  lemma InterruptQuiets(capacity: nat, s: System, t: System)
    requires Next(capacity, s, InterruptProcess, t)
    ensures t.broker.interrupted && t.broker.active.None?
    ensures TasksOk(s) && !RegistrationPending(s) ==> Quiet(t)
  {
    hide Remember;
    if TasksOk(s) {
      forall k | k in t.tasks && t.tasks[k].CheckRegistration?
        ensures k in s.tasks && s.tasks[k].CheckRegistration?
      {
      }
    }
  }

  lemma QuietStaysQuiet(capacity: nat, s: System, step: Step, t: System)
    requires TasksOk(s) && Quiet(s) && Next(capacity, s, step, t)
    ensures Quiet(t)
  {
    hide Remember;
    forall k | k in t.tasks && t.tasks[k].CheckRegistration?
      ensures k in s.tasks && s.tasks[k].CheckRegistration?
    {
    }
  }

  /** The interrupt flag is not looked at again after the session check: a waiting registration still goes live. */
  lemma LateRegistrationGoesLive(capacity: nat, s: System, interrupted: System, task: nat)
    requires Inv(capacity, s) && task in s.tasks && s.tasks[task].CheckRegistration?
    requires Next(capacity, s, InterruptProcess, interrupted)
    ensures exists t :: Next(capacity, interrupted, RegisterChecked(task, true), t)
                        && t.broker.interrupted && t.broker.active == Some(Live(interrupted.nextExchange, s.tasks[task].key))
  {
    hide Remember;
    var i := interrupted;
    assert task in i.tasks && i.tasks[task] == s.tasks[task];
    var t := Dropped(i, task).(nextExchange := i.nextExchange + 1,
                               broker := i.broker.(active := Some(Live(i.nextExchange, s.tasks[task].key))),
                               logs := i.logs[i.nextExchange := EmptyLog.(registered := true)]);
    assert Next(capacity, i, RegisterChecked(task, true), t);
  }
}
