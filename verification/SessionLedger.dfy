/**
 * The mutable ledger object the invoker's mutations work on. Each method is proved against
 * the transition of `RootLedger` it performs.
 */
module SessionLedger {
  import opened Common
  import opened RetiredFilter
  import opened RootLedger

  /** A throwing mutation: the store then keeps the ledger it had. */
  datatype Outcome<T> = Done(value: T) | Thrown

  class RootSessionLedger {
    const hashes: Hashes
    var sessionState: Option<SessionState>
    var active: Option<RequestId>
    var queue: seq<RequestId>
    var operations: map<RequestId, Operation>
    var retired: Option<string>
    var blocked: Option<string>

    ghost function View(): Ledger
      reads this
    {
      Ledger(sessionState, active, queue, operations, retired, blocked)
    }

    constructor (hashes: Hashes, stored: Ledger)
      ensures View() == stored && this.hashes == hashes
    {
      this.hashes := hashes;
      sessionState, active, queue := stored.sessionState, stored.active, stored.queue;
      operations, retired, blocked := stored.operations, stored.retired, stored.blocked;
    }

    method NextLedgerTimestamp(clock: int) returns (now: int)
      ensures now == NextTimestamp(View(), clock)
    {
      var latest := 0;
      var pending := operations.Keys;
      while pending != {}
        invariant pending <= operations.Keys
        invariant 0 <= latest
        invariant forall id :: id in operations && id !in pending ==> operations[id].base.updatedAt <= latest
        invariant latest == 0 || exists id :: id in operations && operations[id].base.updatedAt == latest
        decreases |pending|
      {
        var id :| id in pending;
        latest := Max(latest, operations[id].base.updatedAt);
        pending := pending - {id};
      }
      now := Max(clock, latest + 1);
    }

    /** The given completed records, newest first. */
    method NewestFirst(ids: set<RequestId>) returns (sorted: seq<RequestId>)
      ensures Elements(sorted) == ids && NoDuplicates(sorted) && SortedNewest(View(), sorted)
    {
      sorted := [];
      var pending := ids;
      while pending != {}
        invariant pending <= ids && Elements(sorted) == ids - pending
        invariant NoDuplicates(sorted) && SortedNewest(View(), sorted)
        decreases |pending|
      {
        var id :| id in pending;
        var at := 0;
        while at < |sorted| && StampNow(sorted[at]) >= StampNow(id)
          invariant 0 <= at <= |sorted|
          invariant forall k :: 0 <= k < at ==> Stamp(View(), sorted[k]) >= Stamp(View(), id)
        {
          at := at + 1;
        }
        InsertKeepsDistinct(sorted, at, id);
        InsertKeepsSorted(View(), sorted, at, id);
        sorted := sorted[..at] + [id] + sorted[at..];
        pending := pending - {id};
      }
    }

    function StampNow(id: RequestId): int
      reads this
      ensures StampNow(id) == Stamp(View(), id)
    {
      if id !in operations then 0
      else match operations[id]
        case Terminal(_, _, _, completedAt) => completedAt
        case Cleaned(_, _, _, cleanedAt) => cleanedAt
        case _ => 0
    }

    /** First half of `compactTerminalOperations`: full records beyond the limit lose their request. */
    method AgeTerminalOperations(terminalLimit: nat, clock: int) returns (ghost aged: set<RequestId>)
      modifies this`operations
      ensures KeepsNewest(old(View()), TerminalIds(old(View())), aged, terminalLimit)
      ensures View() == WithAged(old(View()), aged, clock)
    {
      ghost var pre := View();
      var terminal := NewestFirst(set id | id in operations && operations[id].Terminal?);
      assert Elements(terminal) == TerminalIds(pre);
      var limit := Min(terminalLimit, |terminal|);
      aged := {};
      var next := limit;
      while next < |terminal|
        invariant limit <= next <= |terminal|
        invariant aged == Elements(terminal[limit..next]) && aged <= TerminalIds(pre)
        invariant View() == WithAged(pre, aged, clock)
      {
        var id := terminal[next];
        DistinctTail(terminal, limit, next);
        assert id in Elements(terminal);
        operations := operations[id := Clean(operations[id], clock)];
        aged := aged + {id};
        next := next + 1;
      }
      assert terminal[limit..next] == terminal[limit..];
      TailGivesUpOldest(pre, terminal, terminalLimit);
    }

    /** Removes the given records, remembering each id in the filter first. */
    method RetireOperations(ids: seq<RequestId>)
      requires FilterOk(retired)
      modifies this`operations, this`retired
      ensures retired == AddedAll(hashes, old(retired), ids)
      ensures operations == old(operations) - Elements(ids)
    {
      hide FilterOk;
      var next := 0;
      while next < |ids|
        invariant 0 <= next <= |ids|
        invariant operations == old(operations) - Elements(ids[..next])
        invariant retired == AddedAll(hashes, old(retired), ids[..next])
      {
        assert ids[..next + 1][..next] == ids[..next];
        var filter := RetiredFilterAdd(retired, hashes.sha256(ids[next]));
        retired := Some(filter);
        operations := operations - {ids[next]};
        assert Elements(ids[..next + 1]) == Elements(ids[..next]) + {ids[next]};
        next := next + 1;
      }
      assert ids[..next] == ids;
    }

    /** Second half: cleaned records beyond the limit are dropped and remembered in the filter. */
    method DropCleanedOperations(cleanedLimit: nat) returns (ghost dropped: set<RequestId>)
      requires FilterOk(retired)
      modifies this`operations, this`retired
      ensures KeepsNewest(old(View()), CleanedIds(old(View())), dropped, cleanedLimit)
      ensures View() == old(View()).(operations := old(operations) - dropped, retired := retired)
      ensures FilterGains(hashes, old(retired), retired, dropped)
    {
      var cleaned := NewestFirst(set id | id in operations && operations[id].Cleaned?);
      assert Elements(cleaned) == CleanedIds(View());
      TailGivesUpOldest(View(), cleaned, cleanedLimit);
      var limit := Min(cleanedLimit, |cleaned|);
      AddedAllGains(hashes, retired, cleaned[limit..]);
      dropped := Elements(cleaned[limit..]);
      RetireOperations(cleaned[limit..]);
    }

    /** `compactTerminalOperations`. */
    method CompactTerminalOperations(terminalLimit: nat, cleanedLimit: nat, clock: int)
      requires FilterOk(retired)
      modifies this
      ensures Compacted(hashes, old(View()), View(), terminalLimit, cleanedLimit, clock)
    {
      ghost var pre := View();
      ghost var aged := AgeTerminalOperations(terminalLimit, clock);
      ghost var mid := View();
      ghost var dropped := DropCleanedOperations(cleanedLimit);
      HalvesMakeCompaction(hashes, pre, View(), terminalLimit, cleanedLimit, clock, aged, dropped);
    }

    method RegisterOperation(request: RootRequest, fingerprint: string, terminalLimit: nat, cleanedLimit: nat,
                             compactionClock: int, clock: int)
      returns (reply: Option<RootResult>, ghost compacted: Ledger)
      requires FilterOk(retired)
      modifies this
      ensures Compacted(hashes, old(View()), compacted, terminalLimit, cleanedLimit, compactionClock)
      ensures (View(), reply) == Register(hashes, compacted, request, fingerprint, NextTimestamp(compacted, clock))
      ensures blocked.Some? ==> reply == Some(OperationFailure(request, SessionBlocked(blocked.value)))
      ensures blocked.None? && request.requestId in operations ==>
                var record := operations[request.requestId];
                && (record.base.fingerprint != fingerprint ==> reply == Some(OperationFailure(request, RequestIdConflict)))
                && (record.base.fingerprint == fingerprint && IsCompleted(record) ==> reply == Some(record.result))
                && (record.base.fingerprint == fingerprint && !IsCompleted(record) ==> reply == None)
      ensures blocked.None? && request.requestId !in operations ==> reply == Some(OperationFailure(request, RequestIdRetired))
    {
      CompactTerminalOperations(terminalLimit, cleanedLimit, compactionClock);
      compacted := View();
      var id := request.requestId;
      if blocked.Some? {
        return Some(OperationFailure(request, SessionBlocked(blocked.value))), compacted;
      }
      if id in operations {
        var prior := operations[id];
        if prior.base.fingerprint != fingerprint {
          return Some(OperationFailure(request, RequestIdConflict)), compacted;
        }
        if prior.Terminal? || prior.Cleaned? {
          return Some(prior.result), compacted;
        }
        return None, compacted;
      }
      if RetiredFilterHas(retired, hashes.sha256(id)) {
        return Some(OperationFailure(request, RequestIdRetired)), compacted;
      }
      var now := NextLedgerTimestamp(clock);
      if active.Some? || queue != [] {
        operations := operations[id := Queued(OperationBase(id, fingerprint, now, now), request)];
        queue := queue + [id];
      } else {
        operations := operations[id := Prepared(OperationBase(id, fingerprint, now, now), request, None, None)];
        active := Some(id);
      }
      reply := None;
    }

    /** `readOperationResult`, once a ledger exists; `None` while the operation is unfinished. */
    method ReadOperationResult(request: RootRequest, fingerprint: string) returns (reply: Option<RootResult>)
      requires FilterOk(retired)
      ensures blocked.Some? ==> reply == Some(OperationFailure(request, SessionBlocked(blocked.value)))
      ensures blocked.None? && request.requestId in operations ==>
                var record := operations[request.requestId];
                && (record.base.fingerprint != fingerprint ==> reply == Some(OperationFailure(request, RequestIdConflict)))
                && (record.base.fingerprint == fingerprint && IsCompleted(record) ==> reply == Some(record.result))
                && (record.base.fingerprint == fingerprint && !IsCompleted(record) ==> reply == None)
      ensures blocked.None? && request.requestId !in operations ==>
                reply == Some(OperationFailure(request, if RetiredFilterHas(retired, hashes.sha256(request.requestId))
                                                        then RequestIdRetired else OperationMissing))
    {
      if blocked.Some? {
        return Some(OperationFailure(request, SessionBlocked(blocked.value)));
      }
      if request.requestId !in operations {
        var retiredId := RetiredFilterHas(retired, hashes.sha256(request.requestId));
        return Some(OperationFailure(request, if retiredId then RequestIdRetired else OperationMissing));
      }
      var operation := operations[request.requestId];
      if operation.base.fingerprint != fingerprint {
        return Some(OperationFailure(request, RequestIdConflict));
      }
      reply := if operation.Terminal? || operation.Cleaned? then Some(operation.result) else None;
    }

    /** The mutation of `nextActiveOperation`. */
    method PromoteNext(clock: int) returns (r: Outcome<Option<Operation>>)
      modifies this
      ensures var spec := Promote(old(View()), NextTimestamp(old(View()), clock));
              if spec.None? then r.Thrown? else r == Done(spec.value.1) && View() == spec.value.0
    {
      if blocked.Some? {
        return Done(None);
      }
      if active.None? {
        if queue == [] {
          return Done(None);
        }
        var now := NextLedgerTimestamp(clock);
        var id := queue[0];
        queue := queue[1..];
        if id !in operations || !operations[id].Queued? {
          return Thrown;
        }
        var queued := operations[id];
        operations := operations[id := Prepared(queued.base.(updatedAt := now), queued.request, None, None)];
        active := Some(id);
      }
      if active.value !in operations || !IsActiveState(operations[active.value]) {
        return Thrown;
      }
      return Done(Some(operations[active.value]));
    }

    /** The claim of `deliverPreparedOperation`. */
    method ClaimDelivery(id: RequestId, owner: string, clock: int) returns (claimed: Option<Operation>)
      modifies this
      ensures (View(), claimed) == Claim(old(View()), id, owner, NextTimestamp(old(View()), clock))
    {
      if id !in operations || !operations[id].Prepared? {
        return None;
      }
      var current := operations[id];
      if current.owner.Some? {
        return Some(current);
      }
      var now := NextLedgerTimestamp(clock);
      var next := current.(owner := Some(owner), startedAt := Some(now), base := current.base.(updatedAt := now));
      operations := operations[id := next];
      return Some(next);
    }

    method RecordDeliveryOf(id: RequestId, owner: string, cursor: SessionState, clock: int) returns (r: Outcome<()>)
      modifies this
      ensures var spec := RecordDelivery(old(View()), id, owner, cursor, NextTimestamp(old(View()), clock));
              if spec.None? then r.Thrown? else r.Done? && View() == spec.value
    {
      if cursor.sessionId.None? || cursor.sessionId.value == "" {
        return Thrown;
      }
      if id !in operations || !operations[id].Prepared? || operations[id].owner != Some(owner) || active != Some(id) {
        return Thrown;
      }
      var now := NextLedgerTimestamp(clock);
      var current := operations[id];
      operations := operations[id := Delivered(current.base.(updatedAt := now), current.request, owner, now, cursor)];
      sessionState := Some(cursor);
      return Done(());
    }

    method PersistCursor(id: RequestId, cursor: SessionState, clock: int) returns (r: Outcome<()>)
      modifies this
      ensures var spec := PersistDeliveredCursor(old(View()), id, cursor, NextTimestamp(old(View()), clock));
              if spec.None? then r.Thrown? else r.Done? && View() == spec.value
    {
      if id !in operations || !operations[id].Delivered? || active != Some(id) {
        return Thrown;
      }
      sessionState := Some(cursor);
      var now := NextLedgerTimestamp(clock);
      var op := operations[id];
      operations := operations[id := op.(cursor := cursor, base := op.base.(updatedAt := now))];
      return Done(());
    }

    /** `recordTerminalResult`; the value says whether queued work remains. */
    method RecordTerminalResult(request: RootRequest, result: RootResult, cursor: SessionState, clock: int,
                                terminalLimit: nat, cleanedLimit: nat, compactionClock: int)
      returns (r: Outcome<bool>)
      requires FilterOk(retired)
      modifies this
      ensures var spec := RecordTerminal(old(View()), request, result, cursor, NextTimestamp(old(View()), clock));
              if spec.None? then r.Thrown?
              else r == Done(queue != []) &&
                   Compacted(hashes, spec.value, View(), terminalLimit, cleanedLimit, compactionClock)
    {
      var id := request.requestId;
      if id !in operations || !operations[id].Delivered? || active != Some(id) {
        return Thrown;
      }
      var op := operations[id];
      var resumable := if IsResumable(cursor) then cursor else op.cursor;
      var now := NextLedgerTimestamp(clock);
      operations := operations[
        id := Terminal(OperationBase(id, op.base.fingerprint, op.base.createdAt, now), request, result, now)];
      sessionState := Some(resumable);
      active := None;
      CompactTerminalOperations(terminalLimit, cleanedLimit, compactionClock);
      return Done(queue != []);
    }

    method BlockSession(reason: string)
      modifies this`blocked
      ensures View() == Block(old(View()), reason)
    {
      if blocked.None? {
        blocked := Some(reason);
      }
    }

    /** The deprecated cursor-only `write`. */
    method WriteSessionState(state: SessionState) returns (r: Outcome<()>)
      modifies this`sessionState
      ensures var spec := WriteCursor(old(View()), state);
              if spec.None? then r.Thrown? else r.Done? && View() == spec.value
    {
      if active.Some? {
        return Thrown;
      }
      sessionState := Some(state);
      return Done(());
    }
  }

  ghost function WithAged(l: Ledger, aged: set<RequestId>, clock: int): Ledger
    requires aged <= TerminalIds(l)
  {
    l.(operations := map id | id in l.operations ::
      if id in aged then Clean(l.operations[id], clock) else l.operations[id])
  }

  ghost predicate SortedNewest(l: Ledger, s: seq<RequestId>) {
    forall i, j :: 0 <= i < j < |s| ==> Stamp(l, s[i]) >= Stamp(l, s[j])
  }

  lemma InsertKeepsSorted(l: Ledger, s: seq<RequestId>, at: nat, id: RequestId)
    requires at <= |s| && SortedNewest(l, s)
    requires forall k :: 0 <= k < at ==> Stamp(l, s[k]) >= Stamp(l, id)
    requires at < |s| ==> Stamp(l, s[at]) < Stamp(l, id)
    ensures SortedNewest(l, s[..at] + [id] + s[at..])
  {
  }

  lemma DistinctTail(s: seq<RequestId>, limit: nat, next: nat)
    requires limit <= next < |s| && NoDuplicates(s)
    ensures s[next] !in Elements(s[limit..next])
    ensures Elements(s[limit..next + 1]) == Elements(s[limit..next]) + {s[next]}
  {
    assert s[limit..next + 1] == s[limit..next] + [s[next]];
  }

  lemma TailGivesUpOldest(l: Ledger, s: seq<RequestId>, limit: nat)
    requires NoDuplicates(s) && SortedNewest(l, s)
    ensures KeepsNewest(l, Elements(s), Elements(s[Min(limit, |s|)..]), limit)
  {
    var head, tail := s[..Min(limit, |s|)], s[Min(limit, |s|)..];
    assert s == head + tail;
    assert Elements(s) - Elements(tail) == Elements(head);
    DistinctCount(head);
    DistinctCount(s);
  }

  /** The filter after adding the ids one by one. */
  function AddedAll(h: Hashes, filter: Option<string>, ids: seq<RequestId>): (r: Option<string>)
    requires FilterOk(filter)
    ensures FilterOk(r)
  {
    if |ids| == 0 then filter
    else
      var before := AddedAll(h, filter, ids[..|ids| - 1]);
      AddedPositions(before, h.sha256(ids[|ids| - 1]));
      Some(Added(before, h.sha256(ids[|ids| - 1])))
  }

  lemma {:induction false} AddedAllGains(h: Hashes, filter: Option<string>, ids: seq<RequestId>)
    requires FilterOk(filter)
    ensures FilterGains(h, filter, AddedAll(h, filter, ids), Elements(ids))
  {
    hide FilterGains, Added;
    if |ids| == 0 {
      NothingGained(h, filter);
      assert Elements(ids) == {};
    } else {
      var init, last := ids[..|ids| - 1], ids[|ids| - 1];
      AddedAllGains(h, filter, init);
      AddingGains(h, filter, AddedAll(h, filter, init), Elements(init), last);
      assert ids == init + [last];
      assert Elements(ids) == Elements(init) + {last};
    }
  }

  lemma NothingGained(h: Hashes, filter: Option<string>)
    requires FilterOk(filter)
    ensures FilterGains(h, filter, filter, {})
  {
  }

  lemma AddingGains(h: Hashes, older: Option<string>, filter: Option<string>, ids: set<RequestId>, id: RequestId)
    requires FilterGains(h, older, filter, ids)
    ensures FilterGains(h, older, Some(Added(filter, h.sha256(id))), ids + {id})
  {
    AddedPositions(filter, h.sha256(id));
    PositionsOfMore(h, ids, id);
  }

  lemma PositionsOfMore(h: Hashes, ids: set<RequestId>, id: RequestId)
    ensures PositionsOf(h, ids + {id}) == PositionsOf(h, ids) + Elements(RetiredFilterBits(h.sha256(id)))
  {
  }

  lemma HalvesAreChosen(pre: Ledger, terminalLimit: nat, cleanedLimit: nat, clock: int, aged: set<RequestId>,
                        dropped: set<RequestId>)
    requires aged <= TerminalIds(pre) && KeepsNewest(pre, TerminalIds(pre), aged, terminalLimit)
    requires var mid := WithAged(pre, aged, clock); KeepsNewest(mid, CleanedIds(mid), dropped, cleanedLimit)
    ensures Chosen(pre, terminalLimit, cleanedLimit, aged, dropped)
  {
    hide KeepsNewest;
    AgedSets(pre, aged, clock);
    SameStampsSameChoice(pre, WithAged(pre, aged, clock), CleanedIds(pre) + aged, dropped, cleanedLimit);
  }

  lemma HalvesCompactRecords(pre: Ledger, post: Ledger, terminalLimit: nat, cleanedLimit: nat, clock: int,
                             aged: set<RequestId>, dropped: set<RequestId>)
    requires Chosen(pre, terminalLimit, cleanedLimit, aged, dropped) && aged <= TerminalIds(pre)
    requires var mid := WithAged(pre, aged, clock); post == mid.(operations := mid.operations - dropped, retired := post.retired)
    ensures RecordsCompacted(pre, post, terminalLimit, cleanedLimit, clock)
  {
    hide Chosen;
    assert Applied(pre, post, clock, aged, dropped);
  }

  lemma HalvesMakeCompaction(h: Hashes, pre: Ledger, post: Ledger, terminalLimit: nat, cleanedLimit: nat, clock: int,
                             aged: set<RequestId>, dropped: set<RequestId>)
    requires aged <= TerminalIds(pre) && KeepsNewest(pre, TerminalIds(pre), aged, terminalLimit)
    requires var mid := WithAged(pre, aged, clock);
             && KeepsNewest(mid, CleanedIds(mid), dropped, cleanedLimit)
             && post == mid.(operations := mid.operations - dropped, retired := post.retired)
    requires FilterGains(h, pre.retired, post.retired, dropped)
    ensures Compacted(h, pre, post, terminalLimit, cleanedLimit, clock)
  {
    HalvesAreChosen(pre, terminalLimit, cleanedLimit, clock, aged, dropped);
    HalvesCompactRecords(pre, post, terminalLimit, cleanedLimit, clock, aged, dropped);
    DroppedWereStored(pre, aged, dropped);
    hide FilterGains, RecordsCompacted;
    assert pre.operations.Keys - post.operations.Keys == dropped;
  }

  lemma DroppedWereStored(pre: Ledger, aged: set<RequestId>, dropped: set<RequestId>)
    requires aged <= TerminalIds(pre) && dropped <= CleanedIds(pre) + aged
    ensures dropped <= pre.operations.Keys
  {
  }

  lemma AgedSets(pre: Ledger, aged: set<RequestId>, clock: int)
    requires aged <= TerminalIds(pre)
    ensures CleanedIds(WithAged(pre, aged, clock)) == CleanedIds(pre) + aged
    ensures forall id :: Stamp(WithAged(pre, aged, clock), id) == Stamp(pre, id)
  {
  }

  lemma SameStampsSameChoice(a: Ledger, b: Ledger, all: set<RequestId>, gone: set<RequestId>, limit: nat)
    requires forall id :: Stamp(a, id) == Stamp(b, id)
    requires KeepsNewest(b, all, gone, limit)
    ensures KeepsNewest(a, all, gone, limit)
  {
  }

  function Min(a: nat, b: nat): nat {
    if a < b then a else b
  }

  lemma InsertKeepsDistinct(s: seq<RequestId>, at: nat, id: RequestId)
    requires at <= |s| && NoDuplicates(s) && id !in s
    ensures NoDuplicates(s[..at] + [id] + s[at..])
    ensures Elements(s[..at] + [id] + s[at..]) == Elements(s) + {id}
  {
    var t := s[..at] + [id] + s[at..];
    assert forall k :: 0 <= k < |s| ==> s[k] == t[if k < at then k else k + 1];
  }
}
