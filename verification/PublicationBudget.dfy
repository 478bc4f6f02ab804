/** What a prepared publication guarantees to the provider and to its author: the size of every body, and whose revision it follows. */
module PublicationBudget {
  import opened Common
  import opened Decimal
  import opened Workpad
  import opened Chunks
  import opened ChunkReuse
  import opened Lineage
  import opened IssueWorkpad
  import opened Publication
  import opened PublicationClosure
  import opened PublicationRuns

  // ---------------------------------------------------------------- the budget

  /** No comment that the plan writes, chunk or entry, is larger than the budget. */
  lemma PlanRespectsBudget(p: Platform, issue: Issue, current: Option<Existing>, report: Report, syncedAt: int, producer: Producer,
                           budget: nat, m: Mutation)
    requires Planned(p, issue, current, report, syncedAt, producer, budget, m)
    ensures m.SingleWrite? ==> p.size(m.body) <= budget
    ensures m.ChunkedWrite? ==> m.budget == budget
    ensures m.ChunkedWrite? && SizeIgnoresGroupDigits(p) && |issue.comments| < PADDED_LIMIT ==>
              forall i :: 0 <= i < |m.group.chunks| ==> p.size(ChunkBody(m.group.chunks[i], Rendered)) <= budget
  {
    hide OpeningEntry, AppendedEntry, GroupOf, SizeIgnoresGroupDigits, Reusable, RefsName;
    if m.ChunkedWrite? && SizeIgnoresGroupDigits(p) && |issue.comments| < PADDED_LIMIT {
      hide Fits;
      var n: nat, attempt: nat :| Fits(p, m.entry, n, budget)
        && Selected(p, m.entry, n, producer.actor, ProvisionalOf(issue.comments), attempt, m.refs)
        && GroupOf(p, m.entry, n, attempt) == Some(m.group);
      SelectedAttemptIsBounded(p, m.entry, n, producer.actor, issue.comments, attempt, m.refs);
      LaterAttemptsFit(p, m.entry, n, attempt, budget);
    }
  }

  /** Each attempt that was passed over is spoiled by a comment of its own. */
  lemma {:induction false} Spoilers(p: Platform, e: Entry, n: nat, actor: ActorId, provisional: seq<Comment>, attempt: nat)
    returns (spoilers: seq<nat>)
    requires forall a: nat :: a < attempt ==>
               GroupOf(p, e, n, a).Some? && !Reusable(p, GroupOf(p, e, n, a).value, actor, provisional)
    ensures |spoilers| == attempt && NoDuplicates(spoilers)
    ensures forall a: nat :: a < attempt ==>
              spoilers[a] < |provisional| && IsCandidate(p, GroupOf(p, e, n, a).value, provisional[spoilers[a]])
  {
    hide GroupOf, IsCandidate;
    if attempt == 0 {
      spoilers := [];
    } else {
      spoilers := Spoilers(p, e, n, actor, provisional, attempt - 1);
      var k :| 0 <= k < |provisional| && IsCandidate(p, GroupOf(p, e, n, attempt - 1).value, provisional[k]);
      forall a: nat | a < attempt - 1
        ensures spoilers[a] != k
      {
        if spoilers[a] == k {
          CandidateOfOneAttempt(p, e, n, a, attempt - 1, provisional[k]);
        }
      }
      spoilers := spoilers + [k];
    }
  }

  lemma {:induction false} ProvisionalIsPart(comments: seq<Comment>)
    ensures |ProvisionalOf(comments)| <= |comments|
  {
    if |comments| > 0 {
      ProvisionalIsPart(comments[..|comments| - 1]);
    }
  }

  lemma {:induction false} SelectedAttemptIsBounded(p: Platform, e: Entry, n: nat, actor: ActorId, comments: seq<Comment>, attempt: nat,
                                                    refs: seq<Option<CommentRef>>)
    requires Selected(p, e, n, actor, ProvisionalOf(comments), attempt, refs)
    ensures attempt <= |comments|
  {
    hide GroupOf, IsCandidate, Reusable, RefsName, ProvisionalOf;
    var spoilers := Spoilers(p, e, n, actor, ProvisionalOf(comments), attempt);
    Pigeonhole(spoilers, |ProvisionalOf(comments)|);
    ProvisionalIsPart(comments);
  }

  /**
   * When a plan appends, opens a comment or splits the entry: it appends if and only if the head is an
   * entries comment of the same account and takes the entry within the budget, opens a comment if and
   * only if it does not append and the entry alone fits one, and splits the entry in all other cases.
   */
  lemma PlanModeIff(p: Platform, issue: Issue, current: Option<Existing>, report: Report, syncedAt: int, producer: Producer,
                    budget: nat, m: Mutation)
    requires Planned(p, issue, current, report, syncedAt, producer, budget, m)
    ensures var takes :=
              && current.Some? && current.value.producer.actor == producer.actor && current.value.representation == AsEntries
              && current.value.comment.body.EntriesBody?
              && p.size(current.value.comment.body.(entries := current.value.comment.body.entries
                   + [AppendedEntry(issue.key, report, syncedAt, producer, current.value)])) <= budget;
            var opens := p.size(EntriesBody([OpeningEntry(issue.key, report, syncedAt, producer, current)], Rendered)) <= budget;
            && ((m.SingleWrite? && m.mode == Append) <==> takes)
            && ((m.SingleWrite? && m.mode == Create) <==> !takes && opens && current.None?)
            && ((m.SingleWrite? && m.mode == Continue) <==> !takes && opens && current.Some?)
            && (m.ChunkedWrite? <==> !takes && !opens)
            && (takes ==> m.target == Some(current.value.comment.id)
                          && m.body.entries == current.value.comment.body.entries + [m.entry])
            && (m.SingleWrite? && !takes ==> m.target.None? && m.body == EntriesBody([m.entry], Rendered))
  {
    hide OpeningEntry, AppendedEntry, GroupOf, ChunkPlan;
  }

  /** Every comment that a publication adds or changes stays within the budget. */
  lemma WrittenWithinBudget(p: Platform, issue: Issue, current: Option<Existing>, report: Report, syncedAt: int, producer: Producer,
                            budget: nat, m: Mutation, comments: seq<Comment>, id: CommentRef, refs: seq<CommentRef>, after: seq<Comment>)
    requires Planned(p, issue, current, report, syncedAt, producer, budget, m)
    requires Written(comments, m, producer.actor, id, refs, after)
    requires m.ChunkedWrite? ==> p.size(ManifestBody(ManifestFor(m.group, refs), Rendered)) <= m.budget
    ensures forall c :: c in after && c !in comments ==> p.size(c.body) <= budget
  {
    PlanRespectsBudget(p, issue, current, report, syncedAt, producer, budget, m);
    hide Planned, ManifestFor, ChunksPublished;
    if m.SingleWrite? && m.mode.Append? {
      var at :| 0 <= at < |comments| && m.target == Some(comments[at].id) && after == comments[at := comments[at].(body := m.body)];
      forall c | c in after && c !in comments
        ensures c.body == m.body
      {
        var i :| 0 <= i < |after| && after[i] == c;
        assert i == at;
      }
    }
  }

  // ---------------------------------------------------------------- whose revision it follows

  /** The report's own context, if it has one, agrees with what the Issue shows: same Issue, revision and session. */
  predicate ContextIsCurrent(key: IssueKey, context: Option<Context>, current: Option<Existing>) {
    context.Some? ==>
      var c := context.value;
      && c.issue.repository == key.repository && c.issue.issueNumber == key.issueNumber
      && (current.None? ==> c.revision == 0 && c.commentRef.None? && c.sessionId.None? && c.entryId.None?)
      && (current.Some? ==>
            c.revision == current.value.entry.revision && (c.sessionId.None? || c.sessionId == Some(current.value.sessionId)))
  }

  /** Nothing is published from a report that another revision, session or Issue has overtaken. */
  lemma PublishesFromCurrent(p: Platform, key: IssueKey, current: Option<Existing>, report: Report, syncedAt: int, producer: Producer,
                             budget: nat, m: Mutation)
    requires Publishes(p, key, current, report, syncedAt, producer, budget, m)
    ensures ContextIsCurrent(key, report.context, current)
  {
    hide OpeningEntry, AppendedEntry, GroupOf, AppendFits;
  }

  /** And a report of the head's revision, session and Issue is never refused as a conflict. */
  lemma CurrentIsNoConflict(p: Platform, key: IssueKey, head: Existing, report: Report, syncedAt: int, producer: Producer, budget: nat,
                            error: PrepareError)
    requires ContextIsCurrent(key, report.context, Some(head))
    requires Refused(p, key, Some(head), report, syncedAt, producer, budget, error)
    ensures error == RejectedContent || error == BudgetTooSmall
  {
    hide Rejected, FitsWhole, NoSliceFits, OpeningEntry;
  }
}
