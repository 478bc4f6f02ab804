/**
 * The native approval broker: the fields of the class, the stretches of code between two
 * awaits as methods on it, and the specification functions they refine.
 */
module ApprovalBroker {
  import opened Common

  datatype RequestKey = RequestKey(text: string)

  datatype Decision = Approve | Deny

  datatype Status = Resolved | Denied | Cancelled | TimedOut | Interrupted

  datatype Reason =
    | IdentityMismatch | ProcessInterrupted | DuplicateRequest | ConcurrentRequest | StaleSession
    | CancelledByBackend | TimeoutReached | ResponseDeliveryFailed

  /** The durable facts about one exchange; `exchange` stands for its approval id. */
  datatype Evidence = Evidence(exchange: nat, status: Status, decision: Option<Decision>, reason: Option<Reason>)

  /** A registered request; `exchange` is its lease. */
  datatype Live = Live(exchange: nat, key: RequestKey)

  /** How a lease ends: an approval, a decision or cleanup that is answered with a denial, or silent cleanup. */
  datatype Ending = Ending(status: Status, decision: Option<Decision>, reason: Option<Reason>, sendDeny: bool)

  function Resolution(decision: Decision): Ending {
    Ending(Resolved, Some(decision), None, false)
  }

  const STALE_AT_RESOLVE := Ending(Denied, None, Some(StaleSession), true)
  const DUPLICATED := Ending(Denied, None, Some(DuplicateRequest), true)
  const CANCELLED := Ending(Cancelled, None, Some(CancelledByBackend), false)
  const EXPIRED := Ending(TimedOut, None, Some(TimeoutReached), true)
  const INTERRUPTED := Ending(Interrupted, None, Some(ProcessInterrupted), true)

  function EvidenceOf(exchange: nat, e: Ending): Evidence {
    Evidence(exchange, e.status, e.decision, e.reason)
  }

  /** What a stretch of code starts before it yields. */
  datatype Await =
    | CheckRegistration(key: RequestKey)
    | CheckResolution(live: Live, decision: Decision)
    | RecordApproval(evidence: Evidence)
    | DeliverApproval(evidence: Evidence)
    | DeliverDenial(evidence: Evidence)
    | RecordOnly(evidence: Evidence)

  datatype Broker = Broker(active: Option<Live>, interrupted: bool, completed: set<RequestKey>, order: seq<RequestKey>)

  // ---------------------------------------------------------------- specification

  /** `rememberRequest`: the oldest remembered request gives way beyond the capacity. */
  function Remember(b: Broker, key: RequestKey, capacity: nat): (r: Broker)
    ensures r.active == b.active && r.interrupted == b.interrupted
  {
    if key in b.completed then b
    else
      var order := b.order + [key];
      if |order| > capacity then b.(completed := b.completed + {key} - {order[0]}, order := order[1..])
      else b.(completed := b.completed + {key}, order := order)
  }

  /** The await that ends a lease with `e`. */
  function EndingAwait(exchange: nat, e: Ending): Await {
    var evidence := EvidenceOf(exchange, e);
    if e.decision == Some(Approve) then RecordApproval(evidence)
    else if e.decision == Some(Deny) || e.sendDeny then DeliverDenial(evidence)
    else RecordOnly(evidence)
  }

  /** `terminalize` up to its first await; `None` is the stale no-op. */
  function Terminalize(b: Broker, live: Live, e: Ending, capacity: nat): (r: (Broker, Option<Await>))
    ensures r.1.Some? <==> b.active.Some? && b.active.value.exchange == live.exchange
    ensures if r.1.Some? then r.0.active.None? else r.0 == b
    ensures r.1.Some? ==> !r.1.value.CheckRegistration? && !r.1.value.CheckResolution?
  {
    if b.active.None? || b.active.value.exchange != live.exchange then (b, None)
    else (Remember(b.(active := None), live.key, capacity), Some(EndingAwait(live.exchange, e)))
  }

  /** `rejectIncoming` up to its first await; a malformed request has no key to remember. */
  function Reject(b: Broker, key: Option<RequestKey>, exchange: nat, reason: Reason, capacity: nat): (r: (Broker, Await))
    ensures r.0.active == b.active && r.1.DeliverDenial?
  {
    var status := if reason == ProcessInterrupted then Interrupted else Denied;
    var evidence := Evidence(exchange, status, None, Some(reason));
    (if key.Some? then Remember(b, key.value, capacity) else b, DeliverDenial(evidence))
  }

  /** An incoming request: its key if it is well formed, and whether it names this session. */
  datatype Incoming = Incoming(key: Option<RequestKey>, bound: bool)

  /** `register` up to its first await. */
  function BeginRegister(b: Broker, incoming: Incoming, exchange: nat, capacity: nat): (Broker, Await) {
    if incoming.key.None? || !incoming.bound then Reject(b, incoming.key, exchange, IdentityMismatch, capacity)
    else
      var key := incoming.key.value;
      if b.interrupted then Reject(b, Some(key), exchange, ProcessInterrupted, capacity)
      else if b.active.Some? then
        if b.active.value.key == key then
          var (after, await) := Terminalize(b, b.active.value, DUPLICATED, capacity);
          (after, await.value)
        else Reject(b, Some(key), exchange, ConcurrentRequest, capacity)
      else if key in b.completed then Reject(b, Some(key), exchange, DuplicateRequest, capacity)
      else (b, CheckRegistration(key))
  }

  /** `register` after the session check: a new lease becomes the active one, whatever was active. */
  function FinishRegister(b: Broker, key: RequestKey, current: bool, exchange: nat, capacity: nat): (Broker, Option<Await>) {
    if !current then
      var (after, await) := Reject(b, Some(key), exchange, StaleSession, capacity);
      (after, Some(await))
    else (b.(active := Some(Live(exchange, key))), None)
  }

  /** `resolve` up to its first await; `response` is `None` for a malformed response. */
  function BeginResolve(b: Broker, exchange: nat, response: Option<Decision>, capacity: nat): (Broker, Option<Await>) {
    if b.active.None? || b.active.value.exchange != exchange then (b, None)
    else if response.None? then Terminalize(b, b.active.value, STALE_AT_RESOLVE, capacity)
    else (b, Some(CheckResolution(b.active.value, response.value)))
  }

  function FinishResolve(b: Broker, live: Live, decision: Decision, current: bool, capacity: nat): (Broker, Option<Await>) {
    Terminalize(b, live, if current then Resolution(decision) else STALE_AT_RESOLVE, capacity)
  }

  /** `cancel` and the timeout callback. */
  function EndLease(b: Broker, exchange: nat, e: Ending, capacity: nat): (Broker, Option<Await>) {
    if b.active.None? || b.active.value.exchange != exchange then (b, None) else Terminalize(b, b.active.value, e, capacity)
  }

  function Interrupt(b: Broker, capacity: nat): (Broker, Option<Await>) {
    var stopped := b.(interrupted := true);
    if b.active.None? then (stopped, None) else Terminalize(stopped, b.active.value, INTERRUPTED, capacity)
  }

  /** What follows an awaited delivery or record; `None` ends the exchange. */
  function AfterAwait(await: Await, ok: bool): Option<Await> {
    match await
    case RecordApproval(evidence) => if ok then Some(DeliverApproval(evidence)) else None
    case DeliverDenial(evidence) =>
      Some(RecordOnly(if ok then evidence else Evidence(evidence.exchange, Interrupted, None, Some(ResponseDeliveryFailed))))
    case _ => None
  }

  // ---------------------------------------------------------------- the bounded cache

  /** The set and the FIFO list name the same requests, once each, and stay within the capacity. */
  ghost predicate CacheOk(b: Broker, capacity: nat) {
    b.completed == Elements(b.order) && NoDuplicates(b.order) && |b.order| <= capacity
  }

  lemma RememberKeepsCache(b: Broker, key: RequestKey, capacity: nat)
    requires CacheOk(b, capacity) && capacity >= 1
    ensures CacheOk(Remember(b, key, capacity), capacity)
    ensures key in Remember(b, key, capacity).completed
  {
    if key !in b.completed {
      var order := b.order + [key];
      assert NoDuplicates(order);
      assert Elements(order) == b.completed + {key};
      if |order| > capacity {
        assert forall k :: 0 < k < |order| ==> order[k] == order[1..][k - 1];
        assert Elements(order[1..]) == Elements(order) - {order[0]};
      }
    }
  }

  function RememberAll(b: Broker, keys: seq<RequestKey>, capacity: nat): Broker
    decreases |keys|
  {
    if |keys| == 0 then b else RememberAll(Remember(b, keys[0], capacity), keys[1..], capacity)
  }

  /** A newly completed request is recognised as a duplicate while fewer than `capacity` others complete. */
  lemma CompletedIsRecognised(b: Broker, key: RequestKey, keys: seq<RequestKey>, capacity: nat)
    requires CacheOk(b, capacity) && key !in b.completed && |keys| < capacity
    ensures key in RememberAll(Remember(b, key, capacity), keys, capacity).completed
  {
    RememberKeepsCache(b, key, capacity);
    RememberedAtDepth(Remember(b, key, capacity), key, 0, keys, capacity);
  }

  lemma {:induction false} RememberedAtDepth(b: Broker, key: RequestKey, behind: nat, keys: seq<RequestKey>, capacity: nat)
    requires CacheOk(b, capacity) && behind < |b.order| && b.order[|b.order| - 1 - behind] == key
    requires behind + |keys| < capacity
    ensures key in RememberAll(b, keys, capacity).completed
    decreases |keys|
  {
    if |keys| > 0 {
      RememberKeepsCache(b, keys[0], capacity);
      var after := Remember(b, keys[0], capacity);
      RememberedAtDepth(after, key, if keys[0] in b.completed then behind else behind + 1, keys[1..], capacity);
    }
  }

  // ---------------------------------------------------------------- the class

  class NativeApprovalBroker {
    const capacity: nat
    var active: Option<Live>
    var interrupted: bool
    var completedRequestIds: set<RequestKey>
    var completedRequestOrder: seq<RequestKey>

    ghost predicate Valid()
      reads this
    {
      capacity >= 1 && CacheOk(View(), capacity)
    }

    function View(): Broker
      reads this
    {
      Broker(active, interrupted, completedRequestIds, completedRequestOrder)
    }

    constructor (cacheSize: nat)
      requires cacheSize >= 1
      ensures Valid() && capacity == cacheSize && View() == Broker(None, false, {}, [])
    {
      capacity, active, interrupted := cacheSize, None, false;
      completedRequestIds, completedRequestOrder := {}, [];
    }

    method RememberRequest(key: RequestKey)
      requires Valid()
      modifies this
      ensures Valid() && View() == Remember(old(View()), key, capacity)
    {
      RememberKeepsCache(View(), key, capacity);
      if key in completedRequestIds {
        return;
      }
      completedRequestIds := completedRequestIds + {key};
      completedRequestOrder := completedRequestOrder + [key];
      if |completedRequestOrder| > capacity {
        var expired := completedRequestOrder[0];
        completedRequestOrder := completedRequestOrder[1..];
        completedRequestIds := completedRequestIds - {expired};
      }
    }

    method TerminalizeLease(live: Live, e: Ending) returns (await: Option<Await>)
      requires Valid()
      modifies this
      ensures Valid() && (View(), await) == Terminalize(old(View()), live, e, capacity)
    {
      if active.None? || active.value.exchange != live.exchange {
        return None;
      }
      active := None;
      RememberRequest(live.key);
      await := Some(EndingAwait(live.exchange, e));
    }

    method RejectIncoming(key: Option<RequestKey>, exchange: nat, reason: Reason) returns (await: Await)
      requires Valid()
      modifies this
      ensures Valid() && (View(), await) == Reject(old(View()), key, exchange, reason, capacity)
    {
      if key.Some? {
        RememberRequest(key.value);
      }
      await := DeliverDenial(Evidence(exchange, if reason == ProcessInterrupted then Interrupted else Denied, None, Some(reason)));
    }

    method Register(incoming: Incoming, exchange: nat) returns (await: Await)
      requires Valid()
      modifies this
      ensures Valid() && (View(), await) == BeginRegister(old(View()), incoming, exchange, capacity)
    {
      if incoming.key.None? || !incoming.bound {
        await := RejectIncoming(incoming.key, exchange, IdentityMismatch);
        return;
      }
      var key := incoming.key.value;
      if interrupted {
        await := RejectIncoming(Some(key), exchange, ProcessInterrupted);
      } else if active.Some? {
        if active.value.key == key {
          var ended := TerminalizeLease(active.value, DUPLICATED);
          await := ended.value;
        } else {
          await := RejectIncoming(Some(key), exchange, ConcurrentRequest);
        }
      } else if key in completedRequestIds {
        await := RejectIncoming(Some(key), exchange, DuplicateRequest);
      } else {
        await := CheckRegistration(key);
      }
    }

    method RegisterAfterCheck(key: RequestKey, current: bool, exchange: nat) returns (await: Option<Await>)
      requires Valid()
      modifies this
      ensures Valid() && (View(), await) == FinishRegister(old(View()), key, current, exchange, capacity)
    {
      if !current {
        var rejected := RejectIncoming(Some(key), exchange, StaleSession);
        return Some(rejected);
      }
      active := Some(Live(exchange, key));
      await := None;
    }

    method Resolve(exchange: nat, response: Option<Decision>) returns (await: Option<Await>)
      requires Valid()
      modifies this
      ensures Valid() && (View(), await) == BeginResolve(old(View()), exchange, response, capacity)
    {
      if active.None? || active.value.exchange != exchange {
        return None;
      }
      if response.None? {
        await := TerminalizeLease(active.value, STALE_AT_RESOLVE);
      } else {
        await := Some(CheckResolution(active.value, response.value));
      }
    }

    method CancelOrExpire(exchange: nat, e: Ending) returns (await: Option<Await>)
      requires Valid()
      modifies this
      ensures Valid() && (View(), await) == EndLease(old(View()), exchange, e, capacity)
    {
      if active.None? || active.value.exchange != exchange {
        return None;
      }
      await := TerminalizeLease(active.value, e);
    }

    method InterruptProcess() returns (await: Option<Await>)
      requires Valid()
      modifies this
      ensures Valid() && (View(), await) == Interrupt(old(View()), capacity)
    {
      interrupted := true;
      if active.None? {
        return None;
      }
      await := TerminalizeLease(active.value, INTERRUPTED);
    }
  }
}
