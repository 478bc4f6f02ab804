/**
 * Every interleaving of registrations, resolutions, cancellations, timeouts and interrupts
 * with the deliveries, records and session checks they are waiting for.
 */
module ApprovalRuns {
  import opened Common
  import opened ApprovalBroker

  /** What happened to one exchange: its ends, the replies sent, the records asked for and those made durable. */
  datatype Log = Log(registered: bool, ends: nat, replies: seq<Decision>, asked: seq<Evidence>, durable: seq<Evidence>)

  const EmptyLog := Log(false, 0, [], [], [])

  datatype System = System(broker: Broker, tasks: map<nat, Await>, logs: map<nat, Log>, nextTask: nat, nextExchange: nat)

  const InitialSystem := System(Broker(None, false, {}, []), map[], map[], 0, 0)

  datatype Step =
    | Register(incoming: Incoming)
    | RegisterChecked(task: nat, current: bool)
    | Resolve(exchange: nat, response: Option<Decision>)
    | ResolveChecked(task: nat, current: bool)
    | Cancel(exchange: nat)
    | Expire(exchange: nat)
    | InterruptProcess
    | Settled(task: nat, ok: bool)

  function LogOf(s: System, exchange: nat): Log {
    if exchange in s.logs then s.logs[exchange] else EmptyLog
  }

  function IsCheck(a: Await): bool {
    a.CheckRegistration? || a.CheckResolution?
  }

  function ExchangeOf(a: Await): nat
    requires !IsCheck(a)
  {
    a.evidence.exchange
  }

  /** Starting an await that delivers or records leaves its trace. */
  function Traced(log: Log, a: Await): Log {
    match a
    case RecordApproval(evidence) => log.(asked := log.asked + [evidence])
    case RecordOnly(evidence) => log.(asked := log.asked + [evidence])
    case DeliverApproval(_) => log.(replies := log.replies + [Approve])
    case DeliverDenial(_) => log.(replies := log.replies + [Deny])
    case _ => log
  }

  function Started(s: System, await: Option<Await>): System {
    match await
    case None => s
    case Some(a) =>
      var logs := if IsCheck(a) then s.logs else s.logs[ExchangeOf(a) := Traced(LogOf(s, ExchangeOf(a)), a)];
      s.(tasks := s.tasks[s.nextTask := a], nextTask := s.nextTask + 1, logs := logs)
  }

  /** The broker moves on; a lease that stops being active without a successor has ended. */
  function Moved(s: System, after: Broker): System {
    if s.broker.active.Some? && after.active.None? then
      var id := s.broker.active.value.exchange;
      s.(broker := after, logs := s.logs[id := LogOf(s, id).(ends := LogOf(s, id).ends + 1)])
    else s.(broker := after)
  }

  function Dropped(s: System, task: nat): System {
    s.(tasks := s.tasks - {task})
  }

  function Recorded(s: System, a: Await, ok: bool): System {
    if ok && (a.RecordApproval? || a.RecordOnly?) then
      s.(logs := s.logs[ExchangeOf(a) := LogOf(s, ExchangeOf(a)).(durable := LogOf(s, ExchangeOf(a)).durable + [a.evidence])])
    else s
  }

  function Apply(s: System, outcome: (Broker, Option<Await>)): System {
    Started(Moved(s, outcome.0), outcome.1)
  }

  ghost predicate Next(capacity: nat, s: System, step: Step, t: System) {
    match step
    case Register(incoming) =>
      var (after, await) := BeginRegister(s.broker, incoming, s.nextExchange, capacity);
      t == Apply(s.(nextExchange := s.nextExchange + 1), (after, Some(await)))
    case RegisterChecked(task, current) =>
      && task in s.tasks && s.tasks[task].CheckRegistration?
      && var id := s.nextExchange;
         var outcome := FinishRegister(s.broker, s.tasks[task].key, current, id, capacity);
         var ready := Dropped(s, task).(nextExchange := id + 1);
         t == if current then ready.(broker := outcome.0, logs := s.logs[id := EmptyLog.(registered := true)])
              else Apply(ready, outcome)
    case Resolve(exchange, response) => t == Apply(s, BeginResolve(s.broker, exchange, response, capacity))
    case ResolveChecked(task, current) =>
      && task in s.tasks && s.tasks[task].CheckResolution?
      && t == Apply(Dropped(s, task), FinishResolve(s.broker, s.tasks[task].live, s.tasks[task].decision, current, capacity))
    case Cancel(exchange) => t == Apply(s, EndLease(s.broker, exchange, CANCELLED, capacity))
    case Expire(exchange) => t == Apply(s, EndLease(s.broker, exchange, EXPIRED, capacity))
    case InterruptProcess => t == Apply(s, ApprovalBroker.Interrupt(s.broker, capacity))
    case Settled(task, ok) =>
      && task in s.tasks && !IsCheck(s.tasks[task])
      && t == Started(Recorded(Dropped(s, task), s.tasks[task], ok), AfterAwait(s.tasks[task], ok))
  }

  // ---------------------------------------------------------------- invariant

  /** One end, one reply, one record; an approval is sent only after its evidence is durable. */
  predicate LogOk(log: Log) {
    && log.ends <= 1 && |log.replies| <= 1 && |log.asked| <= 1
    && (log.durable == [] || log.durable == log.asked)
    && (Approve in log.replies ==> |log.asked| == 1 && log.durable == log.asked && log.asked[0].decision == Some(Approve))
  }

  /** What a pending delivery or record says about the log of its exchange. */
  predicate Phase(a: Await, log: Log)
    requires !IsCheck(a)
  {
    match a
    case RecordApproval(evidence) =>
      log.replies == [] && log.asked == [evidence] && log.durable == [] && evidence.decision == Some(Approve)
    case DeliverApproval(evidence) =>
      log.replies == [Approve] && log.asked == [evidence] == log.durable && evidence.decision == Some(Approve)
    case DeliverDenial(evidence) =>
      log.replies == [Deny] && log.asked == [] && log.durable == []
    case RecordOnly(evidence) =>
      (log.replies == [] || log.replies == [Deny]) && log.asked == [evidence] && log.durable == []
  }

  predicate Untouched(log: Log) {
    log.ends == 0 && log.replies == [] && log.asked == [] && log.durable == []
  }

  ghost predicate TasksOk(s: System) {
    && (forall k :: k in s.tasks ==> k < s.nextTask)
    && (forall k :: k in s.tasks && !IsCheck(s.tasks[k]) ==>
          ExchangeOf(s.tasks[k]) < s.nextExchange && Phase(s.tasks[k], LogOf(s, ExchangeOf(s.tasks[k]))))
    && (forall j, k :: j in s.tasks && k in s.tasks && j != k && !IsCheck(s.tasks[j]) && !IsCheck(s.tasks[k]) ==>
          ExchangeOf(s.tasks[j]) != ExchangeOf(s.tasks[k]))
  }

  ghost predicate LogsOk(s: System) {
    && (forall id :: id in s.logs ==> id < s.nextExchange)
    && (forall id :: id in s.logs ==> LogOk(s.logs[id]))
  }

  ghost predicate ActiveOk(s: System) {
    s.broker.active.Some? ==>
      && s.broker.active.value.exchange < s.nextExchange
      && Untouched(LogOf(s, s.broker.active.value.exchange))
  }

  /** A resolution that waits for its session check still means the lease it started from. */
  ghost predicate ChecksOk(s: System) {
    forall k :: k in s.tasks && s.tasks[k].CheckResolution? ==>
      && s.tasks[k].live.exchange < s.nextExchange
      && (s.broker.active.Some? && s.broker.active.value.exchange == s.tasks[k].live.exchange ==>
            s.broker.active.value == s.tasks[k].live)
  }

  ghost predicate Inv(capacity: nat, s: System) {
    CacheOk(s.broker, capacity) && TasksOk(s) && LogsOk(s) && ActiveOk(s) && ChecksOk(s)
  }

  lemma InitialInv(capacity: nat)
    ensures Inv(capacity, InitialSystem)
  {
  }

  // ---------------------------------------------------------------- preservation

  /** An untouched exchange has no delivery or record pending. */
  lemma UntouchedHasNoTask(s: System, id: nat, k: nat)
    requires TasksOk(s) && Untouched(LogOf(s, id)) && k in s.tasks && !IsCheck(s.tasks[k])
    ensures ExchangeOf(s.tasks[k]) != id
  {
  }

  /** Starting the first delivery or record of an exchange that was only just ended or refused. */
  lemma FirstAwaitFits(s: System, a: Await)
    requires TasksOk(s) && LogsOk(s) && ActiveOk(s) && !IsCheck(a) && !a.DeliverApproval?
    requires ExchangeOf(a) < s.nextExchange && LogOf(s, ExchangeOf(a)).ends <= 1
    requires Untouched(LogOf(s, ExchangeOf(a)).(ends := 0))
    requires a.RecordApproval? ==> a.evidence.decision == Some(Approve)
    requires forall k :: k in s.tasks && !IsCheck(s.tasks[k]) ==> ExchangeOf(s.tasks[k]) != ExchangeOf(a)
    requires s.broker.active.Some? ==> s.broker.active.value.exchange != ExchangeOf(a)
    ensures var t := Started(s, Some(a)); TasksOk(t) && LogsOk(t) && ActiveOk(t)
  {
    var t := Started(s, Some(a));
    forall k | k in t.tasks && !IsCheck(t.tasks[k])
      ensures Phase(t.tasks[k], LogOf(t, ExchangeOf(t.tasks[k])))
    {
    }
  }

  lemma CheckFits(s: System, a: Await)
    requires TasksOk(s) && LogsOk(s) && ActiveOk(s) && IsCheck(a)
    ensures var t := Started(s, Some(a)); TasksOk(t) && LogsOk(t) && ActiveOk(t)
  {
  }

  /** Ending the active lease: the log counts it and the ending's first await starts. */
  lemma EndingFits(capacity: nat, s: System, e: Ending, stopped: bool)
    requires capacity >= 1 && Inv(capacity, s) && s.broker.active.Some?
    ensures var b := s.broker.(interrupted := stopped || s.broker.interrupted);
            Inv(capacity, Apply(s, Terminalize(b, b.active.value, e, capacity)))
  {
    var b := s.broker.(interrupted := stopped || s.broker.interrupted);
    var live := b.active.value;
    var (after, await) := Terminalize(b, live, e, capacity);
    RememberKeepsCache(b.(active := None), live.key, capacity);
    forall k | k in s.tasks && !IsCheck(s.tasks[k])
      ensures ExchangeOf(s.tasks[k]) != live.exchange
    {
      UntouchedHasNoTask(s, live.exchange, k);
    }
    FirstAwaitFits(Moved(s, after), await.value);
  }

  lemma RefusalFits(capacity: nat, s: System, key: Option<RequestKey>, reason: Reason)
    requires capacity >= 1 && Inv(capacity, s)
    ensures var (after, await) := Reject(s.broker, key, s.nextExchange, reason, capacity);
            Inv(capacity, Apply(s.(nextExchange := s.nextExchange + 1), (after, Some(await))))
  {
    var (after, await) := Reject(s.broker, key, s.nextExchange, reason, capacity);
    if key.Some? {
      RememberKeepsCache(s.broker, key.value, capacity);
    }
    FirstAwaitFits(Moved(s.(nextExchange := s.nextExchange + 1), after), await);
  }

  lemma DroppedFits(s: System, task: nat)
    requires TasksOk(s) && LogsOk(s) && ActiveOk(s)
    ensures TasksOk(Dropped(s, task)) && LogsOk(Dropped(s, task)) && ActiveOk(Dropped(s, task))
  {
  }

  lemma DropKeepsInv(capacity: nat, s: System, task: nat)
    requires Inv(capacity, s)
    ensures Inv(capacity, Dropped(s, task))
  {
    DroppedFits(s, task);
  }

  /** A pending delivery or record completes and, if the code goes on, its successor starts. */
  lemma SettledFits(capacity: nat, s: System, task: nat, ok: bool)
    requires Inv(capacity, s) && task in s.tasks && !IsCheck(s.tasks[task])
    ensures var a := s.tasks[task]; Inv(capacity, Started(Recorded(Dropped(s, task), a, ok), AfterAwait(a, ok)))
  {
    hide CacheOk;
    var a := s.tasks[task];
    var mid := Recorded(Dropped(s, task), a, ok);
    assert Phase(a, LogOf(s, ExchangeOf(a)));
    RecordedFits(s, task, ok);
    if AfterAwait(a, ok).Some? {
      SuccessorFits(mid, AfterAwait(a, ok).value);
    }
  }

  lemma RecordedFits(s: System, task: nat, ok: bool)
    requires TasksOk(s) && LogsOk(s) && ActiveOk(s) && task in s.tasks && !IsCheck(s.tasks[task])
    ensures var mid := Recorded(Dropped(s, task), s.tasks[task], ok);
            && TasksOk(mid) && LogsOk(mid) && ActiveOk(mid)
            && forall k :: k in mid.tasks && !IsCheck(mid.tasks[k]) ==> ExchangeOf(mid.tasks[k]) != ExchangeOf(s.tasks[task])
  {
    var a, mid := s.tasks[task], Recorded(Dropped(s, task), s.tasks[task], ok);
    assert Phase(a, LogOf(s, ExchangeOf(a)));
    forall k | k in mid.tasks && !IsCheck(mid.tasks[k])
      ensures ExchangeOf(mid.tasks[k]) != ExchangeOf(a)
    {
    }
  }

  /** The await that follows another one of the same exchange. */
  lemma SuccessorFits(s: System, a: Await)
    requires TasksOk(s) && LogsOk(s) && ActiveOk(s) && (a.DeliverApproval? || a.RecordOnly?) && ExchangeOf(a) < s.nextExchange
    requires var log := LogOf(s, ExchangeOf(a));
             if a.DeliverApproval? then
               log.replies == [] && log.asked == [a.evidence] == log.durable && a.evidence.decision == Some(Approve) && log.ends <= 1
             else log.replies == [Deny] && log.asked == [] && log.durable == [] && log.ends <= 1
    requires forall k :: k in s.tasks && !IsCheck(s.tasks[k]) ==> ExchangeOf(s.tasks[k]) != ExchangeOf(a)
    ensures var t := Started(s, Some(a)); TasksOk(t) && LogsOk(t) && ActiveOk(t)
  {
    var t := Started(s, Some(a));
    forall k | k in t.tasks && !IsCheck(t.tasks[k])
      ensures Phase(t.tasks[k], LogOf(t, ExchangeOf(t.tasks[k])))
    {
    }
  }

  lemma RegisterKeepsInv(capacity: nat, s: System, incoming: Incoming)
    requires capacity >= 1 && Inv(capacity, s)
    ensures var (after, await) := BeginRegister(s.broker, incoming, s.nextExchange, capacity);
            Inv(capacity, Apply(s.(nextExchange := s.nextExchange + 1), (after, Some(await))))
  {
    hide CacheOk;
    var (after, await) := BeginRegister(s.broker, incoming, s.nextExchange, capacity);
    var grown := s.(nextExchange := s.nextExchange + 1);
    if await.CheckRegistration? {
      CheckFits(grown, await);
    } else if incoming.key.Some? && incoming.bound && !s.broker.interrupted && s.broker.active.Some?
              && s.broker.active.value.key == incoming.key.value {
      assert Inv(capacity, grown);
      EndingFits(capacity, grown, DUPLICATED, false);
    } else {
      RefusalFits(capacity, s, incoming.key, await.evidence.reason.value);
    }
  }

  lemma CacheIgnoresLease(b: Broker, active: Option<Live>, capacity: nat)
    requires CacheOk(b, capacity)
    ensures CacheOk(b.(active := active), capacity)
  {
  }

  /** A lease under a new exchange disturbs no task, log or check. */
  lemma NewLeaseFits(capacity: nat, s: System, t: System, id: nat, key: RequestKey)
    requires Inv(capacity, s) && id == s.nextExchange
    requires t == s.(nextExchange := id + 1, broker := s.broker.(active := Some(Live(id, key))),
                     logs := s.logs[id := EmptyLog.(registered := true)])
    ensures Inv(capacity, t)
  {
    hide CacheOk;
    CacheIgnoresLease(s.broker, Some(Live(id, key)), capacity);
    NewLeaseKeepsTasks(s, t, id);
    assert LogsOk(t) && ActiveOk(t);
    hide TasksOk, LogsOk, ActiveOk;
  }

  lemma NewLeaseKeepsTasks(s: System, t: System, id: nat)
    requires TasksOk(s) && id == s.nextExchange && t.tasks == s.tasks && t.nextTask == s.nextTask && t.nextExchange == id + 1
    requires t.logs == s.logs[id := EmptyLog.(registered := true)]
    ensures TasksOk(t)
  {
    hide Phase;
    forall k | k in t.tasks && !IsCheck(t.tasks[k])
      ensures LogOf(t, ExchangeOf(t.tasks[k])) == LogOf(s, ExchangeOf(t.tasks[k]))
    {
    }
  }

  lemma RegisterCheckedKeepsInv(capacity: nat, s: System, step: Step, t: System)
    requires capacity >= 1 && Inv(capacity, s) && step.RegisterChecked? && Next(capacity, s, step, t)
    ensures Inv(capacity, t)
  {
    hide Inv, Apply, Reject;
    DropKeepsInv(capacity, s, step.task);
    if step.current {
      NewLeaseFits(capacity, Dropped(s, step.task), t, s.nextExchange, s.tasks[step.task].key);
    } else {
      RefusalFits(capacity, Dropped(s, step.task), Some(s.tasks[step.task].key), StaleSession);
    }
  }

  /** A lease action on the active lease ends it; on any other lease it changes nothing. */
  lemma EndKeepsInv(capacity: nat, s: System, live: Live, e: Ending)
    requires capacity >= 1 && Inv(capacity, s)
    requires s.broker.active.Some? && s.broker.active.value.exchange == live.exchange ==> s.broker.active.value == live
    ensures Inv(capacity, Apply(s, Terminalize(s.broker, live, e, capacity)))
  {
    hide CacheOk;
    if s.broker.active.Some? && s.broker.active.value.exchange == live.exchange {
      EndingFits(capacity, s, e, false);
      assert s.broker.(interrupted := false || s.broker.interrupted) == s.broker;
    }
  }

  lemma ResolveKeepsInv(capacity: nat, s: System, exchange: nat, response: Option<Decision>)
    requires capacity >= 1 && Inv(capacity, s)
    ensures Inv(capacity, Apply(s, BeginResolve(s.broker, exchange, response, capacity)))
  {
    hide CacheOk;
    if s.broker.active.Some? && s.broker.active.value.exchange == exchange {
      if response.None? {
        EndKeepsInv(capacity, s, s.broker.active.value, STALE_AT_RESOLVE);
      } else {
        CheckFits(s, CheckResolution(s.broker.active.value, response.value));
      }
    }
  }

  lemma InterruptKeepsInv(capacity: nat, s: System)
    requires capacity >= 1 && Inv(capacity, s)
    ensures Inv(capacity, Apply(s, ApprovalBroker.Interrupt(s.broker, capacity)))
  {
    if s.broker.active.Some? {
      EndingFits(capacity, s, INTERRUPTED, true);
    }
  }

  lemma NextKeepsInv(capacity: nat, s: System, step: Step, t: System)
    requires capacity >= 1 && Inv(capacity, s) && Next(capacity, s, step, t)
    ensures Inv(capacity, t)
  {
    hide CacheOk, TasksOk, LogsOk, ActiveOk;
    match step
    case Register(incoming) => RegisterKeepsInv(capacity, s, incoming);
    case RegisterChecked(_, _) => RegisterCheckedKeepsInv(capacity, s, step, t);
    case Resolve(exchange, response) => ResolveKeepsInv(capacity, s, exchange, response);
    case ResolveChecked(task, current) =>
      DropKeepsInv(capacity, s, task);
      EndKeepsInv(capacity, Dropped(s, task), s.tasks[task].live,
                  if current then Resolution(s.tasks[task].decision) else STALE_AT_RESOLVE);
    case Cancel(exchange) => EndLeaseKeepsInv(capacity, s, exchange, CANCELLED);
    case Expire(exchange) => EndLeaseKeepsInv(capacity, s, exchange, EXPIRED);
    case InterruptProcess => InterruptKeepsInv(capacity, s);
    case Settled(task, ok) => SettledFits(capacity, s, task, ok);
  }

  lemma EndLeaseKeepsInv(capacity: nat, s: System, exchange: nat, e: Ending)
    requires capacity >= 1 && Inv(capacity, s)
    ensures Inv(capacity, Apply(s, EndLease(s.broker, exchange, e, capacity)))
  {
    if s.broker.active.Some? && s.broker.active.value.exchange == exchange {
      EndKeepsInv(capacity, s, s.broker.active.value, e);
    }
  }

  // ---------------------------------------------------------------- runs

  ghost predicate IsRun(capacity: nat, states: seq<System>, steps: seq<Step>) {
    && |states| == |steps| + 1 && states[0] == InitialSystem
    && forall i :: 0 <= i < |steps| ==> Next(capacity, states[i], steps[i], states[i + 1])
  }

  lemma RunPrefix(capacity: nat, states: seq<System>, steps: seq<Step>)
    requires IsRun(capacity, states, steps) && |steps| > 0
    ensures var n := |steps| - 1;
            IsRun(capacity, states[..n + 1], steps[..n]) && Next(capacity, states[n], steps[n], states[n + 1])
  {
    hide Next;
    var n := |steps| - 1;
    assert forall i :: 0 <= i < n ==> steps[..n][i] == steps[i] && states[..n + 1][i + 1] == states[i + 1];
  }

  lemma {:induction false} RunKeepsInv(capacity: nat, states: seq<System>, steps: seq<Step>)
    requires capacity >= 1 && IsRun(capacity, states, steps)
    ensures Inv(capacity, states[|steps|])
  {
    hide Next, Inv;
    if |steps| == 0 {
      InitialInv(capacity);
    } else {
      var n := |steps| - 1;
      RunPrefix(capacity, states, steps);
      RunKeepsInv(capacity, states[..n + 1], steps[..n]);
      NextKeepsInv(capacity, states[n], steps[n], states[n + 1]);
    }
  }

  /**
   * Whatever interleaving of endings races for it, an exchange ends at most once, is answered at
   * most once and recorded at most once, and an approval goes out only after its evidence is durable.
   */
  lemma ExchangeIsSettledOnce(capacity: nat, states: seq<System>, steps: seq<Step>, id: nat)
    requires capacity >= 1 && IsRun(capacity, states, steps)
    ensures var log := LogOf(states[|steps|], id);
            && log.ends <= 1 && |log.replies| <= 1 && |log.asked| <= 1
            && (log.replies == [Approve] ==> |log.durable| == 1 && log.durable == log.asked && log.durable[0].decision == Some(Approve))
  {
    RunKeepsInv(capacity, states, steps);
  }

  /** The completed requests are remembered consistently and within the capacity. */
  lemma CacheStaysBounded(capacity: nat, states: seq<System>, steps: seq<Step>)
    requires capacity >= 1 && IsRun(capacity, states, steps)
    ensures CacheOk(states[|steps|].broker, capacity)
  {
    RunKeepsInv(capacity, states, steps);
  }

  /** After a lease has ended, every further action on it is a stale no-op. */
  lemma EndedLeaseIsStale(capacity: nat, states: seq<System>, steps: seq<Step>, id: nat, step: Step, t: System)
    requires capacity >= 1 && IsRun(capacity, states, steps) && LogOf(states[|steps|], id).ends > 0
    requires step == Cancel(id) || step == Expire(id) || (step.Resolve? && step.exchange == id)
             || (step.ResolveChecked? && step.task in states[|steps|].tasks
                 && states[|steps|].tasks[step.task].CheckResolution?
                 && states[|steps|].tasks[step.task].live.exchange == id)
    requires Next(capacity, states[|steps|], step, t)
    ensures t.broker == states[|steps|].broker && t.logs == states[|steps|].logs
  {
    RunKeepsInv(capacity, states, steps);
  }

  /** An approval whose evidence cannot be recorded is never answered: the request gets no reply at all. */
  lemma UnrecordedApprovalGetsNoReply(capacity: nat, states: seq<System>, steps: seq<Step>, task: nat, t: System)
    requires capacity >= 1 && IsRun(capacity, states, steps)
    requires task in states[|steps|].tasks && states[|steps|].tasks[task].RecordApproval?
    requires Next(capacity, states[|steps|], Settled(task, false), t)
    ensures var id := states[|steps|].tasks[task].evidence.exchange;
            && LogOf(t, id).replies == []
            && forall k :: k in t.tasks && !IsCheck(t.tasks[k]) ==> ExchangeOf(t.tasks[k]) != id
  {
    RunKeepsInv(capacity, states, steps);
    var s := states[|steps|];
    assert Phase(s.tasks[task], LogOf(s, ExchangeOf(s.tasks[task])));
    RecordedFits(s, task, false);
  }
}
