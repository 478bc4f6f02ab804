/** Completed requests are remembered over every run of the broker, oldest first out. */
module ApprovalMemory {
  import opened Common
  import opened ApprovalBroker
  import opened ApprovalRuns
  import opened ApprovalOutcomes

  /** The request that a step completes: one it refuses, or the one whose lease it ends. */
  function CompletedBy(s: System, step: Step): Option<RequestKey> {
    var live := if s.broker.active.Some? then Some(s.broker.active.value.key) else None;
    match step
    case Register(incoming) => if Refusal(s.broker, incoming).Some? then incoming.key else None
    case RegisterChecked(task, current) =>
      if task in s.tasks && s.tasks[task].CheckRegistration? && !current then Some(s.tasks[task].key) else None
    case Resolve(id, response) => if IsLive(s, id) && response.None? then live else None
    case ResolveChecked(task, _) =>
      if task in s.tasks && s.tasks[task].CheckResolution? && IsLive(s, s.tasks[task].live.exchange) then live else None
    case Cancel(id) => if IsLive(s, id) then live else None
    case Expire(id) => if IsLive(s, id) then live else None
    case InterruptProcess => live
    case Settled(_, _) => None
  }

  /** A completed request joins the list as its newest member, and only a full list gives up its oldest. */
  predicate Remembers(b: Broker, after: Broker, key: Option<RequestKey>, capacity: nat) {
    if key.None? || key.value in b.completed then after.order == b.order && after.completed == b.completed
    else
      && after.order == (if |b.order| < capacity || |b.order| == 0 then b.order else b.order[1..]) + [key.value]
      && key.value in after.completed
  }

  lemma RememberRemembers(b: Broker, key: RequestKey, capacity: nat)
    requires CacheOk(b, capacity) && capacity >= 1
    ensures Remembers(b, Remember(b, key, capacity), Some(key), capacity)
  {
    RememberKeepsCache(b, key, capacity);
    if key !in b.completed && |b.order| == capacity {
      assert (b.order + [key])[1..] == b.order[1..] + [key];
    }
  }

  lemma StepRemembers(capacity: nat, s: System, step: Step, t: System)
    requires capacity >= 1 && Inv(capacity, s) && Next(capacity, s, step, t)
    ensures Remembers(s.broker, t.broker, CompletedBy(s, step), capacity)
  {
    hide TasksOk, LogsOk, ActiveOk, Started, Recorded, LogOf, Remembers, Remember, Traced;
    var b := s.broker;
    match step
    case Register(incoming) => RegisterRemembers(capacity, s, incoming, t);
    case RegisterChecked(task, current) => RegisterCheckedRemembers(capacity, s, step, t);
    case Resolve(id, response) => LeaseRemembers(capacity, s, step, t);
    case ResolveChecked(task, current) => ResolveCheckedRemembers(capacity, s, step, t);
    case Cancel(id) => LeaseRemembers(capacity, s, step, t);
    case Expire(id) => LeaseRemembers(capacity, s, step, t);
    case InterruptProcess => InterruptRemembers(capacity, s, t);
    case Settled(task, ok) => SettledRemembers(capacity, s, step, t);
  }

  lemma AppliedBroker(s: System, outcome: (Broker, Option<Await>))
    ensures Apply(s, outcome).broker == outcome.0
  {
  }

  lemma EndedRemembers(capacity: nat, b: Broker, live: Live, e: Ending)
    requires capacity >= 1 && CacheOk(b, capacity) && (b.active.Some? && b.active.value.exchange == live.exchange ==> b.active.value == live)
    ensures var after := Terminalize(b, live, e, capacity).0;
            Remembers(b, after, if b.active == Some(live) then Some(live.key) else None, capacity)
  {
    if b.active == Some(live) {
      RememberRemembers(b.(active := None), live.key, capacity);
    }
  }

  lemma RefusedRemembers(capacity: nat, b: Broker, key: Option<RequestKey>, exchange: nat, reason: Reason)
    requires capacity >= 1 && CacheOk(b, capacity)
    ensures Remembers(b, Reject(b, key, exchange, reason, capacity).0, key, capacity)
  {
    if key.Some? {
      RememberRemembers(b, key.value, capacity);
    }
  }

  lemma RegisterRemembers(capacity: nat, s: System, incoming: Incoming, t: System)
    requires capacity >= 1 && Inv(capacity, s) && Next(capacity, s, Register(incoming), t)
    ensures Remembers(s.broker, t.broker, CompletedBy(s, Register(incoming)), capacity)
  {
    var (after, first) := BeginRegister(s.broker, incoming, s.nextExchange, capacity);
    AppliedBroker(s.(nextExchange := s.nextExchange + 1), (after, Some(first)));
    hide TasksOk, LogsOk, ActiveOk, Apply, Remember, CacheOk, Next;
    if first.DeliverDenial? {
      if s.broker.active.Some? && !s.broker.interrupted && incoming.key == Some(s.broker.active.value.key) && incoming.bound {
        EndedRemembers(capacity, s.broker, s.broker.active.value, DUPLICATED);
      } else {
        RefusedRemembers(capacity, s.broker, incoming.key, s.nextExchange, first.evidence.reason.value);
      }
    }
  }

  lemma RegisterCheckedRemembers(capacity: nat, s: System, step: Step, t: System)
    requires capacity >= 1 && Inv(capacity, s) && step.RegisterChecked? && Next(capacity, s, step, t)
    ensures Remembers(s.broker, t.broker, CompletedBy(s, step), capacity)
  {
    hide TasksOk, LogsOk, ActiveOk, Apply, Remember, CacheOk, Reject;
    if !step.current {
      var outcome := FinishRegister(s.broker, s.tasks[step.task].key, false, s.nextExchange, capacity);
      AppliedBroker(Dropped(s, step.task).(nextExchange := s.nextExchange + 1), outcome);
      RefusedRemembers(capacity, s.broker, Some(s.tasks[step.task].key), s.nextExchange, StaleSession);
    }
  }

  lemma LeaseRemembers(capacity: nat, s: System, step: Step, t: System)
    requires capacity >= 1 && Inv(capacity, s) && (step.Resolve? || step.Cancel? || step.Expire?) && Next(capacity, s, step, t)
    ensures Remembers(s.broker, t.broker, CompletedBy(s, step), capacity)
  {
    hide TasksOk, LogsOk, ActiveOk, Apply, Remember, CacheOk, Terminalize;
    AppliedBroker(s, if step.Resolve? then BeginResolve(s.broker, step.exchange, step.response, capacity)
                     else EndLease(s.broker, step.exchange, if step.Cancel? then CANCELLED else EXPIRED, capacity));
    if s.broker.active.Some? {
      var e := if step.Resolve? then STALE_AT_RESOLVE else if step.Cancel? then CANCELLED else EXPIRED;
      EndedRemembers(capacity, s.broker, s.broker.active.value, e);
    }
  }

  lemma ResolveCheckedRemembers(capacity: nat, s: System, step: Step, t: System)
    requires capacity >= 1 && Inv(capacity, s) && step.ResolveChecked? && Next(capacity, s, step, t)
    ensures Remembers(s.broker, t.broker, CompletedBy(s, step), capacity)
  {
    hide TasksOk, LogsOk, ActiveOk, Apply, Remember, CacheOk, Terminalize;
    var check := s.tasks[step.task];
    AppliedBroker(Dropped(s, step.task), FinishResolve(s.broker, check.live, check.decision, step.current, capacity));
    EndedRemembers(capacity, s.broker, check.live, if step.current then Resolution(check.decision) else STALE_AT_RESOLVE);
  }

  lemma InterruptRemembers(capacity: nat, s: System, t: System)
    requires capacity >= 1 && Inv(capacity, s) && Next(capacity, s, InterruptProcess, t)
    ensures Remembers(s.broker, t.broker, CompletedBy(s, InterruptProcess), capacity)
  {
    hide TasksOk, LogsOk, ActiveOk, Apply, Remember, Terminalize;
    AppliedBroker(s, ApprovalBroker.Interrupt(s.broker, capacity));
    if s.broker.active.Some? {
      EndedRemembers(capacity, s.broker.(interrupted := true), s.broker.active.value, INTERRUPTED);
    }
  }

  lemma SettledRemembers(capacity: nat, s: System, step: Step, t: System)
    requires step.Settled? && Next(capacity, s, step, t)
    ensures Remembers(s.broker, t.broker, None, capacity)
  {
  }

  // ---------------------------------------------------------------- runs

  /** How many steps from `i` to `n` complete a request. */
  function CompletionsIn(states: seq<System>, steps: seq<Step>, i: nat, n: nat): nat
    requires i <= n <= |steps| < |states|
    decreases n
  {
    if n == i then 0
    else CompletionsIn(states, steps, i, n - 1) + if CompletedBy(states[n - 1], steps[n - 1]).Some? then 1 else 0
  }

  /** `key` is among the newest `depth` members of the list. */
  predicate Within(b: Broker, key: RequestKey, depth: nat) {
    exists k :: 0 <= k < |b.order| && |b.order| - depth <= k && b.order[k] == key
  }

  lemma RememberedDeeper(b: Broker, after: Broker, key: RequestKey, other: Option<RequestKey>, depth: nat, capacity: nat)
    requires CacheOk(b, capacity) && Within(b, key, depth) && Remembers(b, after, other, capacity)
    requires (if other.Some? then depth + 1 else depth) <= capacity
    ensures Within(after, key, if other.Some? then depth + 1 else depth)
  {
    var k :| 0 <= k < |b.order| && |b.order| - depth <= k && b.order[k] == key;
    if other.Some? && other.value !in b.completed {
      var kept := if |b.order| < capacity then b.order else b.order[1..];
      var at := if |b.order| < capacity then k else k - 1;
      assert kept[at] == key && after.order[at] == key;
    } else {
      assert after.order[k] == key;
    }
  }

  lemma {:induction false} RememberedUntil(capacity: nat, states: seq<System>, steps: seq<Step>, i: nat, n: nat, key: RequestKey, depth: nat)
    requires capacity >= 1 && IsRun(capacity, states, steps) && i <= n <= |steps| && Within(states[i].broker, key, depth)
    requires depth + CompletionsIn(states, steps, i, n) <= capacity
    ensures Within(states[n].broker, key, depth + CompletionsIn(states, steps, i, n))
    decreases n
  {
    hide Next, Within, Remembers, CompletedBy, TasksOk, LogsOk, ActiveOk, ChecksOk, CacheOk;
    if i < n {
      RememberedUntil(capacity, states, steps, i, n - 1, key, depth);
      InvAt(capacity, states, steps, n - 1);
      StepRemembers(capacity, states[n - 1], steps[n - 1], states[n]);
      RememberedDeeper(states[n - 1].broker, states[n].broker, key, CompletedBy(states[n - 1], steps[n - 1]),
                       depth + CompletionsIn(states, steps, i, n - 1), capacity);
    }
  }

  /**
   * A request that was completed for the first time is refused as a duplicate when it comes again,
   * as long as fewer requests than the cap were completed in between.
   */
  lemma CompletedIsRefusedAgain(capacity: nat, states: seq<System>, steps: seq<Step>, i: nat, k: nat, key: RequestKey)
    requires capacity >= 1 && IsRun(capacity, states, steps) && i < k <= |steps|
    requires CompletedBy(states[i], steps[i]) == Some(key) && key !in states[i].broker.completed
    requires CompletionsIn(states, steps, i + 1, k) < capacity
    ensures key in states[k].broker.completed
    ensures Refusal(states[k].broker, Incoming(Some(key), true)).Some?
  {
    hide Next, Inv, CompletedBy, CacheOk, Remembers;
    InvAt(capacity, states, steps, i);
    assert Next(capacity, states[i], steps[i], states[i + 1]);
    StepRemembers(capacity, states[i], steps[i], states[i + 1]);
    NewestIsWithin(states[i].broker, states[i + 1].broker, key, capacity);
    hide IsRun;
    CacheAt(capacity, states, steps, k);
    RememberedUntil(capacity, states, steps, i + 1, k, key, 1);
    WithinIsCompleted(states[k].broker, key, 1 + CompletionsIn(states, steps, i + 1, k), capacity);
  }

  lemma CacheAt(capacity: nat, states: seq<System>, steps: seq<Step>, k: nat)
    requires capacity >= 1 && IsRun(capacity, states, steps) && k <= |steps|
    ensures CacheOk(states[k].broker, capacity)
  {
    InvAt(capacity, states, steps, k);
  }

  lemma NewestIsWithin(b: Broker, after: Broker, key: RequestKey, capacity: nat)
    requires Remembers(b, after, Some(key), capacity) && key !in b.completed
    ensures Within(after, key, 1)
  {
    assert after.order[|after.order| - 1] == key;
  }

  lemma WithinIsCompleted(b: Broker, key: RequestKey, depth: nat, capacity: nat)
    requires CacheOk(b, capacity) && Within(b, key, depth)
    ensures key in b.completed
  {
  }

  // ---------------------------------------------------------------- the lease that goes live

  /** The live lease is for the request that was registered under it: well formed, of this session, and just checked. */
  lemma {:induction false} LiveWasRegistered(capacity: nat, states: seq<System>, steps: seq<Step>, n: nat) returns (j: nat, i: nat)
    requires capacity >= 1 && IsRun(capacity, states, steps) && n <= |steps| && states[n].broker.active.Some?
    ensures j < i < n && steps[j] == Register(Incoming(Some(states[n].broker.active.value.key), true))
    ensures steps[i] == RegisterChecked(states[j].nextTask, true) && states[i].nextExchange == states[n].broker.active.value.exchange
    decreases n
  {
    hide Next, Inv;
    InvAt(capacity, states, steps, n - 1);
    var s, t := states[n - 1], states[n];
    assert Next(capacity, s, steps[n - 1], t);
    if s.broker.active == t.broker.active {
      j, i := LiveWasRegistered(capacity, states, steps, n - 1);
    } else {
      LeaseStep(capacity, s, steps[n - 1], t);
      i := n - 1;
      j := CheckHasRequest(capacity, states, steps, n - 1, steps[n - 1].task, t.broker.active.value.key);
    }
  }

  lemma LeaseStep(capacity: nat, s: System, step: Step, t: System)
    requires Inv(capacity, s) && Next(capacity, s, step, t) && t.broker.active.Some? && t.broker.active != s.broker.active
    ensures step.RegisterChecked? && step.current && t.broker.active.value.exchange == s.nextExchange
    ensures ChecksRequest(s, step.task, t.broker.active.value.key)
  {
    hide CacheOk, TasksOk, LogsOk, ActiveOk, Remember, LogOf, Traced;
  }

  predicate ChecksRequest(s: System, k: nat, key: RequestKey) {
    k in s.tasks && s.tasks[k] == CheckRegistration(key)
  }

  lemma RequestStep(capacity: nat, s: System, step: Step, t: System, k: nat, key: RequestKey)
    requires Inv(capacity, s) && Next(capacity, s, step, t) && ChecksRequest(t, k, key) && !ChecksRequest(s, k, key)
    ensures step == Register(Incoming(Some(key), true)) && s.nextTask == k
  {
    hide CacheOk, LogsOk, ActiveOk, Remember, LogOf, Traced;
  }

  lemma {:induction false} CheckHasRequest(capacity: nat, states: seq<System>, steps: seq<Step>, n: nat, k: nat, key: RequestKey)
    returns (j: nat)
    requires capacity >= 1 && IsRun(capacity, states, steps) && n <= |steps| && ChecksRequest(states[n], k, key)
    ensures j < n && steps[j] == Register(Incoming(Some(key), true)) && states[j].nextTask == k
    decreases n
  {
    hide Next, Inv;
    InvAt(capacity, states, steps, n - 1);
    if ChecksRequest(states[n - 1], k, key) {
      j := CheckHasRequest(capacity, states, steps, n - 1, k, key);
    } else {
      RequestStep(capacity, states[n - 1], steps[n - 1], states[n], k, key);
      j := n - 1;
    }
  }
}
