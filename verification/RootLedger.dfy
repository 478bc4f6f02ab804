/**
 * The durable operation ledger of one Root session: its records, the states the store
 * accepts on reload, and what each mutation does to it.
 */
module RootLedger {
  import opened Common
  import opened RetiredFilter

  /** Eve's cursor; only one that names a session can be resumed. */
  datatype SessionState =
    SessionState(continuationToken: Option<string>, sessionId: Option<string>, streamIndex: nat)

  predicate IsResumable(s: SessionState) {
    s.sessionId.Some? && s.sessionId.value != ""
  }

  /** A `request_id`; it is only ever compared and hashed. */
  datatype RequestId = RequestId(text: string)

  datatype IssueSelector = IssueSelector(repository: string, issueNumber: nat)

  datatype RootRequest = RootRequest(requestId: RequestId, issueSelector: Option<IssueSelector>, data: string)

  datatype RootStatus = Accepted | Completed | NeedsInput | Failed

  /** The summaries the invoker writes itself, one per message, or the text Root returned. */
  datatype Summary =
    | RootText(text: string)
    | SessionBlocked(reason: string)
    | RequestIdConflict
    | RequestIdRetired
    | OperationMissing
    | InvalidRootResult
    | DifferentRequestResult
    | SelectorWithoutIssue
    | SelectorOtherIssue

  datatype RootResult =
    RootResult(requestId: RequestId, status: RootStatus, issue: Option<IssueSelector>, summary: Summary)

  function OperationFailure(request: RootRequest, summary: Summary): RootResult {
    RootResult(request.requestId, Failed, None, summary)
  }

  datatype OperationBase =
    OperationBase(requestId: RequestId, fingerprint: string, createdAt: int, updatedAt: int)

  datatype Operation =
    | Queued(base: OperationBase, request: RootRequest)
    | Prepared(base: OperationBase, request: RootRequest, owner: Option<string>, startedAt: Option<int>)
    | Delivered(base: OperationBase, request: RootRequest, deliveryOwner: string, deliveredAt: int, cursor: SessionState)
    | Terminal(base: OperationBase, request: RootRequest, result: RootResult, completedAt: int)
    | Cleaned(base: OperationBase, result: RootResult, completedAt: int, cleanedAt: int)

  datatype Ledger = Ledger(
    sessionState: Option<SessionState>,
    active: Option<RequestId>,
    queue: seq<RequestId>,
    operations: map<RequestId, Operation>,
    retired: Option<string>,
    blocked: Option<string>)

  const EmptyLedger := Ledger(None, None, [], map[], None, None)

  /** SHA-256 and the request fingerprint built on it; no property relies on their values. */
  datatype Hashes = Hashes(sha256: RequestId -> Digest, fingerprint: RootRequest -> string)

  // ---------------------------------------------------------------- accepted states

  predicate OperationOk(h: Hashes, id: RequestId, op: Operation) {
    && op.base.requestId == id
    && (!op.Cleaned? ==> h.fingerprint(op.request) == op.base.fingerprint)
    && (op.Prepared? ==> (op.owner.Some? <==> op.startedAt.Some?) && op.owner != Some(""))
    && (op.Delivered? ==> op.deliveryOwner != "" && IsResumable(op.cursor))
    && (op.Terminal? || op.Cleaned? ==> op.result.requestId == id)
  }

  predicate IsActiveState(op: Operation) {
    op.Prepared? || op.Delivered?
  }

  ghost predicate QueueOk(l: Ledger) {
    && NoDuplicates(l.queue)
    && (forall id :: id in l.queue ==> id in l.operations && l.operations[id].Queued?)
    && (forall id :: id in l.operations && l.operations[id].Queued? ==> id in l.queue)
  }

  ghost predicate ActiveOk(l: Ledger) {
    && (forall id :: id in l.operations && IsActiveState(l.operations[id]) ==> l.active == Some(id))
    && (l.active.Some? ==> l.active.value in l.operations && IsActiveState(l.operations[l.active.value]))
    && (l.active.Some? && l.operations[l.active.value].Delivered? ==>
          l.sessionState == Some(l.operations[l.active.value].cursor))
  }

  ghost predicate OperationsOk(h: Hashes, l: Ledger) {
    forall id :: id in l.operations ==> OperationOk(h, id, l.operations[id])
  }

  /** The ledgers a reload accepts. */
  ghost predicate LedgerOk(h: Hashes, l: Ledger) {
    && OperationsOk(h, l)
    && QueueOk(l)
    && ActiveOk(l)
    && FilterOk(l.retired)
    && l.blocked != Some("")
  }

  /** What a reload returns: the ledger without a cursor that cannot be resumed. */
  function Normalized(l: Ledger): Ledger {
    if l.sessionState.Some? && !IsResumable(l.sessionState.value) then l.(sessionState := None) else l
  }

  method AllOperationsAccepted(h: Hashes, operations: map<RequestId, Operation>) returns (ok: bool)
    ensures ok <==> forall id :: id in operations ==> OperationOk(h, id, operations[id])
  {
    var pending := operations.Keys;
    while pending != {}
      invariant pending <= operations.Keys
      invariant forall id :: id in operations && id !in pending ==> OperationOk(h, id, operations[id])
      decreases |pending|
    {
      var id :| id in pending;
      if !OperationOk(h, id, operations[id]) {
        return false;
      }
      pending := pending - {id};
    }
    return true;
  }

  method QueueNamesQueuedOperations(queue: seq<RequestId>, operations: map<RequestId, Operation>) returns (ok: bool)
    ensures ok <==> forall id :: id in queue ==> id in operations && operations[id].Queued?
  {
    var next := 0;
    while next < |queue|
      invariant 0 <= next <= |queue|
      invariant forall id :: id in queue[..next] ==> id in operations && operations[id].Queued?
    {
      if queue[next] !in operations || !operations[queue[next]].Queued? {
        assert queue[next] in queue;
        return false;
      }
      assert queue[..next + 1] == queue[..next] + [queue[next]];
      next := next + 1;
    }
    assert queue[..next] == queue;
    return true;
  }

  /** Collects the active ids, or stops at a queued operation that the queue does not name. */
  method CollectActiveIds(queue: seq<RequestId>, operations: map<RequestId, Operation>) returns (r: Option<set<RequestId>>)
    requires forall id :: id in operations ==> operations[id].base.requestId == id
    ensures r.Some? <==> forall id :: id in operations && operations[id].Queued? ==> id in queue
    ensures r.Some? ==> r.value == set id | id in operations && IsActiveState(operations[id])
  {
    var activeIds: set<RequestId> := {};
    var pending := operations.Keys;
    while pending != {}
      invariant pending <= operations.Keys
      invariant forall id :: id in operations && id !in pending && operations[id].Queued? ==> id in queue
      invariant forall id :: id in activeIds <==> id in operations && id !in pending && IsActiveState(operations[id])
      decreases |pending|
    {
      var id :| id in pending;
      var op := operations[id];
      if op.Queued? && op.base.requestId !in queue {
        return None;
      }
      if op.Prepared? || op.Delivered? {
        activeIds := activeIds + {op.base.requestId};
      }
      pending := pending - {id};
    }
    return Some(activeIds);
  }

  /**
   * `parseRootSessionOperationLedger`, from the point where the shape of the fields is known.
   * It accepts exactly the ledgers described by `LedgerOk`.
   */
  method ParseLedger(h: Hashes, raw: Ledger) returns (r: Option<Ledger>)
    ensures r.Some? <==> LedgerOk(h, raw)
    ensures r.Some? ==> r.value == Normalized(raw)
  {
    DistinctCount(raw.queue);
    if |Elements(raw.queue)| != |raw.queue| || raw.blocked == Some("") || !FilterOk(raw.retired) {
      return None;
    }
    var operationsOk := AllOperationsAccepted(h, raw.operations);
    if !operationsOk {
      return None;
    }
    var queueOk := QueueNamesQueuedOperations(raw.queue, raw.operations);
    if !queueOk {
      return None;
    }
    var activeIds := CollectActiveIds(raw.queue, raw.operations);
    if activeIds.None? {
      return None;
    }
    assert QueueOk(raw);

    var sessionState := Normalized(raw).sessionState;
    if raw.active.Some? {
      var id := raw.active.value;
      if id !in raw.operations || !IsActiveState(raw.operations[id]) {
        return None;
      }
      var op := raw.operations[id];
      if op.Delivered? && sessionState != Some(op.cursor) {
        return None;
      }
    }
    var expected := if raw.active.None? then {} else {raw.active.value};
    if activeIds.value != expected {
      return None;
    }
    forall id | id in raw.operations && IsActiveState(raw.operations[id])
      ensures raw.active == Some(id)
    {
      assert id in activeIds.value;
    }
    assert ActiveOk(raw);
    return Some(Normalized(raw));
  }

  // ---------------------------------------------------------------- timestamps

  function Max(a: int, b: int): int {
    if a < b then b else a
  }

  /** The latest recorded update, or zero. */
  ghost function LatestUpdate(operations: map<RequestId, Operation>): (latest: int)
    ensures 0 <= latest
    ensures forall id :: id in operations ==> operations[id].base.updatedAt <= latest
    ensures latest == 0 || exists id :: id in operations && operations[id].base.updatedAt == latest
    decreases |operations|
  {
    if operations == map[] then 0 else
      var id :| id in operations;
      var others := operations - {id};
      var latest := LatestUpdate(others);
      assert forall other :: other in operations && other != id ==> other in others;
      Max(operations[id].base.updatedAt, latest)
  }

  /** The time written by a mutation: the clock, or just past the latest recorded update. */
  ghost function NextTimestamp(l: Ledger, clock: int): (t: int)
    ensures t >= clock
    ensures forall id :: id in l.operations ==> l.operations[id].base.updatedAt < t
  {
    Max(clock, LatestUpdate(l.operations) + 1)
  }

  // ---------------------------------------------------------------- compaction

  ghost function TerminalIds(l: Ledger): set<RequestId> {
    set id | id in l.operations && l.operations[id].Terminal?
  }

  ghost function CleanedIds(l: Ledger): set<RequestId> {
    set id | id in l.operations && l.operations[id].Cleaned?
  }

  function Clean(op: Operation, clock: int): Operation
    requires op.Terminal?
  {
    Cleaned(op.base.(updatedAt := clock), op.result, op.completedAt, op.completedAt)
  }

  predicate IsCompleted(op: Operation) {
    op.Terminal? || op.Cleaned?
  }

  ghost function CompletedIds(l: Ledger): set<RequestId> {
    set id | id in l.operations && IsCompleted(l.operations[id])
  }

  /** The time by which the compaction sorts order a completed record. */
  function Stamp(l: Ledger, id: RequestId): int {
    if id !in l.operations then 0
    else match l.operations[id]
      case Terminal(_, _, _, completedAt) => completedAt
      case Cleaned(_, _, _, cleanedAt) => cleanedAt
      case _ => 0
  }

  /** What remains of `all` without `gone` is its newest `limit` members, or all of them. */
  ghost predicate KeepsNewest(l: Ledger, all: set<RequestId>, gone: set<RequestId>, limit: nat) {
    && gone <= all
    && |all - gone| == (if |all| < limit then |all| else limit)
    && forall kept, lost :: kept in all - gone && lost in gone ==> Stamp(l, kept) >= Stamp(l, lost)
  }

  /** Which records a compaction turns into cleaned ones and which it drops. */
  ghost predicate Chosen(pre: Ledger, terminalLimit: nat, cleanedLimit: nat, aged: set<RequestId>, dropped: set<RequestId>) {
    && KeepsNewest(pre, TerminalIds(pre), aged, terminalLimit)
    && KeepsNewest(pre, CleanedIds(pre) + aged, dropped, cleanedLimit)
  }

  /** The effect of that choice on the records; nothing else of the ledger changes but its filter. */
  ghost predicate Applied(pre: Ledger, post: Ledger, clock: int, aged: set<RequestId>, dropped: set<RequestId>)
    requires aged <= TerminalIds(pre)
  {
    && post.operations.Keys == pre.operations.Keys - dropped
    && (forall id :: id in post.operations ==>
          post.operations[id] == if id in aged then Clean(pre.operations[id], clock) else pre.operations[id])
    && post == pre.(operations := post.operations, retired := post.retired)
  }

  ghost predicate RecordsCompacted(pre: Ledger, post: Ledger, terminalLimit: nat, cleanedLimit: nat, clock: int) {
    exists aged, dropped ::
      Chosen(pre, terminalLimit, cleanedLimit, aged, dropped) && Applied(pre, post, clock, aged, dropped)
  }

  ghost function PositionsOf(h: Hashes, ids: set<RequestId>): set<nat> {
    set id, bit: nat | id in ids && bit in RetiredFilterBits(h.sha256(id)) :: bit
  }

  ghost predicate FilterGains(h: Hashes, older: Option<string>, newer: Option<string>, ids: set<RequestId>) {
    && FilterOk(older) && FilterOk(newer)
    && SetPositions(newer) == SetPositions(older) + PositionsOf(h, ids)
    && (ids == {} ==> newer == older)
  }

  /**
   * What compaction may do to a ledger. Ties between equal completion times are left open,
   * so every enumeration order of the stored records is covered.
   */
  ghost predicate Compacted(h: Hashes, pre: Ledger, post: Ledger, terminalLimit: nat, cleanedLimit: nat, clock: int) {
    && RecordsCompacted(pre, post, terminalLimit, cleanedLimit, clock)
    && FilterGains(h, pre.retired, post.retired, pre.operations.Keys - post.operations.Keys)
  }

  // ---------------------------------------------------------------- mutations

  /** `registerOperation` after its compaction; no result means the caller joins the pump. */
  function Register(h: Hashes, l: Ledger, request: RootRequest, fingerprint: string, now: int)
    : (Ledger, Option<RootResult>)
    requires FilterOk(l.retired)
  {
    var id := request.requestId;
    if l.blocked.Some? then (l, Some(OperationFailure(request, SessionBlocked(l.blocked.value))))
    else if id in l.operations then
      var prior := l.operations[id];
      if prior.base.fingerprint != fingerprint then (l, Some(OperationFailure(request, RequestIdConflict)))
      else if prior.Terminal? || prior.Cleaned? then (l, Some(prior.result))
      else (l, None)
    else if RetiredFilterHas(l.retired, h.sha256(id)) then (l, Some(OperationFailure(request, RequestIdRetired)))
    else
      var base := OperationBase(id, fingerprint, now, now);
      if l.active.Some? || l.queue != [] then
        (l.(operations := l.operations[id := Queued(base, request)], queue := l.queue + [id]), None)
      else
        (l.(operations := l.operations[id := Prepared(base, request, None, None)], active := Some(id)), None)
  }

  /** The mutation inside `nextActiveOperation`; `None` stands for its thrown errors. */
  function Promote(l: Ledger, now: int): Option<(Ledger, Option<Operation>)> {
    if l.blocked.Some? then Some((l, None))
    else if l.active.None? then
      if l.queue == [] then Some((l, None))
      else
        var id := l.queue[0];
        if id !in l.operations || !l.operations[id].Queued? then None
        else
          var queued := l.operations[id];
          var prepared := Prepared(queued.base.(updatedAt := now), queued.request, None, None);
          Some((l.(queue := l.queue[1..], operations := l.operations[id := prepared], active := Some(id)),
                Some(prepared)))
    else if l.active.value !in l.operations || !IsActiveState(l.operations[l.active.value]) then None
    else Some((l, Some(l.operations[l.active.value])))
  }

  /** The claim that precedes every send. */
  function Claim(l: Ledger, id: RequestId, owner: string, now: int): (Ledger, Option<Operation>) {
    if id !in l.operations || !l.operations[id].Prepared? then (l, None)
    else
      var current := l.operations[id];
      if current.owner.Some? then (l, Some(current))
      else
        var next := current.(owner := Some(owner), startedAt := Some(now), base := current.base.(updatedAt := now));
        (l.(operations := l.operations[id := next]), Some(next))
  }

  function RecordDelivery(l: Ledger, id: RequestId, owner: string, cursor: SessionState, now: int): Option<Ledger> {
    if !IsResumable(cursor) then None
    else if id !in l.operations || !l.operations[id].Prepared? || l.operations[id].owner != Some(owner)
            || l.active != Some(id) then None
    else
      var current := l.operations[id];
      var next := Delivered(current.base.(updatedAt := now), current.request, owner, now, cursor);
      Some(l.(operations := l.operations[id := next], sessionState := Some(cursor)))
  }

  predicate IsDeliveredActive(l: Ledger, id: RequestId) {
    id in l.operations && l.operations[id].Delivered? && l.active == Some(id)
  }

  function PersistDeliveredCursor(l: Ledger, id: RequestId, cursor: SessionState, now: int): Option<Ledger> {
    if !IsDeliveredActive(l, id) then None
    else
      var op := l.operations[id];
      Some(l.(sessionState := Some(cursor),
              operations := l.operations[id := op.(cursor := cursor, base := op.base.(updatedAt := now))]))
  }

  /** `recordTerminalResult` before its compaction. */
  function RecordTerminal(l: Ledger, request: RootRequest, result: RootResult, cursor: SessionState, now: int)
    : Option<Ledger>
  {
    var id := request.requestId;
    if !IsDeliveredActive(l, id) then None
    else
      var op := l.operations[id];
      var resumable := if IsResumable(cursor) then cursor else op.cursor;
      var next := Terminal(OperationBase(id, op.base.fingerprint, op.base.createdAt, now), request, result, now);
      Some(l.(operations := l.operations[id := next], sessionState := Some(resumable), active := None))
  }

  function Block(l: Ledger, reason: string): Ledger {
    if l.blocked.Some? then l else l.(blocked := Some(reason))
  }

  /** The deprecated cursor-only write. */
  function WriteCursor(l: Ledger, state: SessionState): Option<Ledger> {
    if l.active.Some? then None else Some(l.(sessionState := Some(state)))
  }

  // ---------------------------------------------------------------- turns

  datatype TurnStatus = TurnCompleted | TurnFailed | TurnWaiting

  /** A finished Eve turn; `data` is the result when it passed the result schema. */
  datatype Turn = Turn(data: Option<RootResult>, status: TurnStatus, sessionState: SessionState)

  datatype TurnDecision = Record(result: RootResult) | DrainStale

  const MAX_STALE_TURNS := 8

  function SelectorFailure(request: RootRequest, result: RootResult): Option<Summary> {
    if request.issueSelector.None? || result.status == Failed then None
    else if result.issue.None? then Some(SelectorWithoutIssue)
    else if result.issue != request.issueSelector then Some(SelectorOtherIssue)
    else None
  }

  /** One round of `finishDeliveredTurn`. */
  function DecideTurn(request: RootRequest, turn: Turn, replayCount: nat, canConsume: bool): TurnDecision {
    if turn.data.None? then Record(OperationFailure(request, InvalidRootResult))
    else if turn.data.value.requestId != request.requestId then
      if replayCount >= MAX_STALE_TURNS || turn.status.TurnFailed? || !IsResumable(turn.sessionState) || !canConsume
      then Record(OperationFailure(request, DifferentRequestResult))
      else DrainStale
    else match SelectorFailure(request, turn.data.value)
      case Some(reason) => Record(OperationFailure(request, reason))
      case None => Record(turn.data.value)
  }

  /** Whatever a turn returned, the recorded result answers the request it is stored under. */
  lemma RecordedResultAnswersItsRequest(request: RootRequest, turn: Turn, replayCount: nat, canConsume: bool)
    ensures var d := DecideTurn(request, turn, replayCount, canConsume);
            && (d.Record? ==> d.result.requestId == request.requestId)
            && (d.Record? && d.result.status != Failed && request.issueSelector.Some? ==>
                  d.result.issue == request.issueSelector)
            && (d.DrainStale? ==> IsResumable(turn.sessionState) && replayCount < MAX_STALE_TURNS)
  {
  }
}
