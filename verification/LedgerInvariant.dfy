/** Every mutation keeps a ledger acceptable on reload and never forgets or rewinds a request. */
module LedgerInvariant {
  import opened Common
  import opened RetiredFilter
  import opened RootLedger

  /** A registered id is known while its record exists or the retired filter answers for it. */
  predicate Known(h: Hashes, l: Ledger, id: RequestId)
    requires FilterOk(l.retired)
  {
    id in l.operations || RetiredFilterHas(l.retired, h.sha256(id))
  }

  function Stage(op: Operation): nat {
    match op
    case Queued(_, _) => 0
    case Prepared(_, _, _, _) => 1
    case Delivered(_, _, _, _, _) => 2
    case Terminal(_, _, _, _) => 3
    case Cleaned(_, _, _, _) => 4
  }

  /** A record only moves forward, keeps its owner once claimed and its result once stored. */
  predicate Advances(pre: Operation, post: Operation) {
    && Stage(pre) <= Stage(post)
    && pre.base.fingerprint == post.base.fingerprint
    && pre.base.createdAt == post.base.createdAt
    && (!pre.Cleaned? && !post.Cleaned? ==> post.request == pre.request)
    && (IsCompleted(pre) ==> post.result == pre.result && post.completedAt == pre.completedAt)
    && (pre.Prepared? && pre.owner.Some? && post.Prepared? ==> post.owner == pre.owner)
    && (pre.Prepared? && pre.owner.Some? && post.Delivered? ==> Some(post.deliveryOwner) == pre.owner)
    && (pre.Delivered? && post.Delivered? ==> post.deliveryOwner == pre.deliveryOwner)
  }

  /** What happens to the records and the filter of a ledger between two states. */
  ghost predicate RecordsAdvance(h: Hashes, pre: Ledger, post: Ledger)
    requires FilterOk(pre.retired) && FilterOk(post.retired)
  {
    && SetPositions(pre.retired) <= SetPositions(post.retired)
    && (pre.blocked.Some? ==> post.blocked == pre.blocked)
    && (forall id :: id in pre.operations && id in post.operations ==>
          Advances(pre.operations[id], post.operations[id]))
    && (forall id :: id in pre.operations && id !in post.operations ==>
          RetiredFilterHas(post.retired, h.sha256(id)))
    && (forall id :: id in post.operations && id !in pre.operations ==> !Known(h, pre, id))
  }

  ghost predicate Evolves(h: Hashes, pre: Ledger, post: Ledger) {
    FilterOk(pre.retired) && LedgerOk(h, post) && RecordsAdvance(h, pre, post)
  }

  lemma EvolvesKeepsKnown(h: Hashes, pre: Ledger, post: Ledger, id: RequestId)
    requires Evolves(h, pre, post) && Known(h, pre, id)
    ensures Known(h, post, id)
  {
    if id !in pre.operations {
      HasMeansAllPositionsSet(pre.retired, h.sha256(id));
      HasMeansAllPositionsSet(post.retired, h.sha256(id));
      SupersetStillHas(pre.retired, post.retired, h.sha256(id));
    }
  }

  // ---------------------------------------------------------------- one lemma per mutation

  lemma EmptyLedgerAccepted(h: Hashes)
    ensures LedgerOk(h, EmptyLedger)
  {
  }

  lemma ReloadAccepted(h: Hashes, l: Ledger)
    requires LedgerOk(h, l)
    ensures Evolves(h, l, Normalized(l))
    ensures Normalized(Normalized(l)) == Normalized(l)
  {
  }

  lemma CompactionEvolves(h: Hashes, pre: Ledger, post: Ledger, terminalLimit: nat, cleanedLimit: nat, clock: int)
    requires LedgerOk(h, pre) && Compacted(h, pre, post, terminalLimit, cleanedLimit, clock)
    ensures Evolves(h, pre, post)
  {
    CompactionKeepsRecordsOk(h, pre, post, terminalLimit, cleanedLimit, clock);
    forall id | id in pre.operations && id !in post.operations
      ensures RetiredFilterHas(post.retired, h.sha256(id))
    {
      DroppedIdIsRemembered(h, pre.retired, post.retired, pre.operations.Keys - post.operations.Keys, id);
    }
  }

  /** Compaction touches completed records only, and moves those forward. */
  lemma CompactionAdvances(pre: Ledger, post: Ledger, terminalLimit: nat, cleanedLimit: nat, clock: int)
    requires RecordsCompacted(pre, post, terminalLimit, cleanedLimit, clock)
    ensures post.operations.Keys <= pre.operations.Keys
    ensures forall id :: id in pre.operations && id !in post.operations ==> IsCompleted(pre.operations[id])
    ensures forall id :: id in post.operations ==> Advances(pre.operations[id], post.operations[id])
    ensures forall id :: id in pre.operations && !IsCompleted(pre.operations[id]) ==>
              id in post.operations && post.operations[id] == pre.operations[id]
    ensures forall id :: id in post.operations && IsCompleted(pre.operations[id]) ==> IsCompleted(post.operations[id])
    ensures post == pre.(operations := post.operations, retired := post.retired)
  {
    var aged, dropped :|
      Chosen(pre, terminalLimit, cleanedLimit, aged, dropped) && Applied(pre, post, clock, aged, dropped);
    AppliedAdvances(pre, post, clock, aged, dropped);
  }

  lemma AppliedAdvances(pre: Ledger, post: Ledger, clock: int, aged: set<RequestId>, dropped: set<RequestId>)
    requires aged <= TerminalIds(pre) && dropped <= CleanedIds(pre) + aged && Applied(pre, post, clock, aged, dropped)
    ensures forall id :: id in pre.operations && id !in post.operations ==> IsCompleted(pre.operations[id])
    ensures forall id :: id in post.operations ==> Advances(pre.operations[id], post.operations[id])
    ensures forall id :: id in pre.operations && !IsCompleted(pre.operations[id]) ==>
              id in post.operations && post.operations[id] == pre.operations[id]
  {
  }

  lemma CompactionKeepsRecordsOk(h: Hashes, pre: Ledger, post: Ledger, terminalLimit: nat, cleanedLimit: nat, clock: int)
    requires OperationsOk(h, pre) && QueueOk(pre) && ActiveOk(pre)
    requires RecordsCompacted(pre, post, terminalLimit, cleanedLimit, clock)
    ensures OperationsOk(h, post) && QueueOk(post) && ActiveOk(post)
    ensures post == pre.(operations := post.operations, retired := post.retired)
    ensures post.operations.Keys <= pre.operations.Keys
    ensures forall id :: id in post.operations ==> Advances(pre.operations[id], post.operations[id])
  {
    CompactionAdvances(pre, post, terminalLimit, cleanedLimit, clock);
    var aged, dropped :|
      Chosen(pre, terminalLimit, cleanedLimit, aged, dropped) && Applied(pre, post, clock, aged, dropped);
    AppliedKeepsOperationsOk(h, pre, post, clock, aged, dropped);
    UntouchedActiveAndQueue(pre, post);
  }

  lemma UntouchedActiveAndQueue(pre: Ledger, post: Ledger)
    requires QueueOk(pre) && ActiveOk(pre)
    requires post.queue == pre.queue && post.active == pre.active && post.sessionState == pre.sessionState
    requires forall id :: id in pre.operations && !IsCompleted(pre.operations[id]) ==>
               id in post.operations && post.operations[id] == pre.operations[id]
    requires forall id :: id in post.operations && !IsCompleted(post.operations[id]) ==>
               id in pre.operations && !IsCompleted(pre.operations[id])
    ensures QueueOk(post) && ActiveOk(post)
  {
  }

  lemma AppliedKeepsOperationsOk(h: Hashes, pre: Ledger, post: Ledger, clock: int, aged: set<RequestId>, dropped: set<RequestId>)
    requires aged <= TerminalIds(pre) && OperationsOk(h, pre) && Applied(pre, post, clock, aged, dropped)
    ensures OperationsOk(h, post)
  {
    forall id | id in post.operations
      ensures OperationOk(h, id, post.operations[id])
    {
      assert OperationOk(h, id, pre.operations[id]);
    }
  }

  lemma DroppedIdIsRemembered(h: Hashes, older: Option<string>, newer: Option<string>, dropped: set<RequestId>, id: RequestId)
    requires FilterGains(h, older, newer, dropped) && id in dropped
    ensures RetiredFilterHas(newer, h.sha256(id))
  {
    var bits := RetiredFilterBits(h.sha256(id));
    assert forall bit :: bit in bits ==> bit in PositionsOf(h, dropped);
    assert bits[0] in SetPositions(newer);
    HasMeansAllPositionsSet(newer, h.sha256(id));
  }

  lemma RegisterEvolves(h: Hashes, l: Ledger, request: RootRequest, now: int)
    requires LedgerOk(h, l)
    ensures Evolves(h, l, Register(h, l, request, h.fingerprint(request), now).0)
  {
    var post := Register(h, l, request, h.fingerprint(request), now).0;
    if post != l {
      NewRecordAccepted(h, l, post, request.requestId);
      assert RecordsAdvance(h, l, post);
    }
  }

  lemma NewRecordAccepted(h: Hashes, l: Ledger, post: Ledger, id: RequestId)
    requires OperationsOk(h, l) && QueueOk(l) && ActiveOk(l)
    requires id !in l.operations && id in post.operations && OperationOk(h, id, post.operations[id])
    requires post.operations == l.operations[id := post.operations[id]]
    requires if post.operations[id].Queued?
             then post == l.(operations := post.operations, queue := l.queue + [id])
             else post.operations[id].Prepared? && l.active.None?
                  && post == l.(operations := post.operations, active := Some(id))
    ensures OperationsOk(h, post) && QueueOk(post) && ActiveOk(post)
  {
    assert id !in l.queue;
  }

  lemma PromoteEvolves(h: Hashes, l: Ledger, now: int)
    requires LedgerOk(h, l)
    ensures Promote(l, now).Some? && Evolves(h, l, Promote(l, now).value.0)
  {
    hide RetiredFilterHas, Known, FilterOk;
    if l.blocked.None? && l.active.None? && l.queue != [] {
      assert l.queue[0] in l.queue;
      var post := Promote(l, now).value.0;
      assert l.queue == [l.queue[0]] + post.queue;
    }
  }

  lemma ClaimEvolves(h: Hashes, l: Ledger, id: RequestId, owner: string, now: int)
    requires LedgerOk(h, l) && owner != ""
    ensures Evolves(h, l, Claim(l, id, owner, now).0)
  {
  }

  lemma RecordDeliveryEvolves(h: Hashes, l: Ledger, id: RequestId, owner: string, cursor: SessionState, now: int)
    requires LedgerOk(h, l) && RecordDelivery(l, id, owner, cursor, now).Some?
    ensures Evolves(h, l, RecordDelivery(l, id, owner, cursor, now).value)
  {
  }

  lemma PersistDeliveredCursorEvolves(h: Hashes, l: Ledger, id: RequestId, cursor: SessionState, now: int)
    requires LedgerOk(h, l) && IsResumable(cursor) && PersistDeliveredCursor(l, id, cursor, now).Some?
    ensures Evolves(h, l, PersistDeliveredCursor(l, id, cursor, now).value)
  {
  }

  lemma RecordTerminalEvolves(h: Hashes, l: Ledger, request: RootRequest, result: RootResult, cursor: SessionState, now: int)
    requires LedgerOk(h, l) && RecordTerminal(l, request, result, cursor, now).Some?
    requires result.requestId == request.requestId
    requires request == l.operations[request.requestId].request
    ensures Evolves(h, l, RecordTerminal(l, request, result, cursor, now).value)
  {
  }

  lemma BlockEvolves(h: Hashes, l: Ledger, reason: string)
    requires LedgerOk(h, l) && reason != ""
    ensures Evolves(h, l, Block(l, reason))
  {
  }

  lemma WriteCursorEvolves(h: Hashes, l: Ledger, state: SessionState)
    requires LedgerOk(h, l) && WriteCursor(l, state).Some?
    ensures Evolves(h, l, WriteCursor(l, state).value)
  {
  }

  /** Registering an id that was ever known never creates a second operation for it. */
  lemma KnownIdIsNotRegisteredAgain(h: Hashes, l: Ledger, request: RootRequest, fingerprint: string, now: int)
    requires FilterOk(l.retired) && Known(h, l, request.requestId)
    ensures Register(h, l, request, fingerprint, now).0 == l
  {
  }
}
