/** Preparing the next revision of a workpad from a freshly read Issue. */
module Publication {
  import opened Common
  import opened Decimal
  import opened Workpad
  import opened Chunks
  import opened ChunkReuse
  import opened Lineage
  import opened IssueWorkpad

  datatype Mode = Create | Append | Continue

  /** What a write expects to find: Issue time, head revision and head comment. */
  datatype Expectation = Expectation(updatedAt: int, revision: Option<nat>, head: Option<CommentRef>)

  datatype Mutation =
    | SingleWrite(mode: Mode, expected: Expectation, entry: Entry, body: Body, target: Option<CommentRef>)
    | ChunkedWrite(expected: Expectation, entry: Entry, group: Group, refs: seq<Option<CommentRef>>, budget: nat)

  datatype PrepareError =
    | BadConfiguration
    | BadBudget
    | UnreadableWorkpad
    | OtherIssue
    | OrphanedContext
    | RevisionConflict
    | SessionConflict
    | RejectedContent
    | BudgetTooSmall

  function Revision(head: Existing): nat {
    head.entry.revision
  }

  /** `isCanonicalUnpersistedContext`: the context of an Issue that has no workpad yet. */
  predicate IsUnpersistedContext(key: IssueKey, c: Context) {
    c == Context(key, None, 0, None, None, None, None, None)
  }

  /** The conflicts between the report's own context and the verified head. */
  function ContextProblem(key: IssueKey, context: Option<Context>, current: Option<Existing>): Option<PrepareError> {
    if context.None? then None
    else
      var c := context.value;
      if c.issue.repository != key.repository || c.issue.issueNumber != key.issueNumber then Some(OtherIssue)
      else match current
        case None => if IsUnpersistedContext(key, c) then None else Some(OrphanedContext)
        case Some(head) =>
          if c.revision != Revision(head) then Some(RevisionConflict)
          else if c.sessionId.Some? && c.sessionId != Some(head.sessionId) then Some(SessionConflict)
          else None
  }

  function InitialSessionId(key: IssueKey, report: Report): Identifier {
    Identifier("github-issue/" + key.repository + "/" + Text(key.issueNumber) + "/" + report.id.text)
  }

  function BuildEntry(key: IssueKey, report: Report, syncedAt: int, producer: Producer, sessionId: Identifier, revision: nat,
                      target: Option<CommentRef>, predecessor: Option<CommentRef>, continuation: Option<Continuation>): Entry
  {
    var entryId := EntryIdFor(sessionId, revision);
    var context := Context(key, target, revision, Some(sessionId), Some(entryId), Some(producer.id), predecessor, Some(syncedAt));
    Entry(producer, sessionId, entryId, revision, predecessor, continuation,
          report.(updatedAt := syncedAt, context := Some(context)))
  }

  predicate SameProducer(head: Existing, producer: Producer) {
    head.producer.actor == producer.actor
  }

  /** The entry appended to the head comment of the same producer. */
  function AppendedEntry(key: IssueKey, report: Report, syncedAt: int, producer: Producer, head: Existing): Entry {
    BuildEntry(key, report, syncedAt, producer, head.sessionId, Revision(head) + 1, Some(head.comment.id), head.predecessor,
               head.continuation)
  }

  /** The entry that opens a new comment: the first one, a capacity successor or a producer transition. */
  function OpeningEntry(key: IssueKey, report: Report, syncedAt: int, producer: Producer, current: Option<Existing>): Entry {
    match current
    case None => BuildEntry(key, report, syncedAt, producer, InitialSessionId(key, report), 0, None, None, None)
    case Some(head) =>
      BuildEntry(key, report, syncedAt, producer, head.sessionId, Revision(head) + 1, None, Some(head.comment.id),
                 Some(if SameProducer(head, producer) then Capacity else ProducerTransition))
  }

  function AppendEntry(body: Body, e: Entry): Body
    requires body.EntriesBody?
  {
    body.(entries := body.entries + [e])
  }

  function ExpectationOf(issue: Issue, current: Option<Existing>): Expectation {
    match current
    case None => Expectation(issue.updatedAt, None, None)
    case Some(head) => Expectation(issue.updatedAt, Some(Revision(head)), Some(head.comment.id))
  }

  /** The head comment can take one more entry of this producer within the budget. */
  predicate AppendFits(p: Platform, key: IssueKey, report: Report, syncedAt: int, producer: Producer, current: Option<Existing>,
                       budget: nat)
  {
    && current.Some? && SameProducer(current.value, producer) && current.value.representation.AsEntries?
    && current.value.comment.body.EntriesBody?
    && p.size(AppendEntry(current.value.comment.body, AppendedEntry(key, report, syncedAt, producer, current.value))) <= budget
  }

  /** The schema or the publication checks refuse an entry that the plan has to render. */
  predicate Rejected(p: Platform, key: IssueKey, report: Report, syncedAt: int, producer: Producer, current: Option<Existing>,
                     budget: nat)
  {
    || (current.Some? && SameProducer(current.value, producer) && current.value.representation.AsEntries?
        && p.encode(AppendedEntry(key, report, syncedAt, producer, current.value)).None?)
    || (!AppendFits(p, key, report, syncedAt, producer, current, budget)
        && p.encode(OpeningEntry(key, report, syncedAt, producer, current)).None?)
  }

  /** One comment can take the next entry. */
  predicate FitsWhole(p: Platform, key: IssueKey, report: Report, syncedAt: int, producer: Producer, current: Option<Existing>,
                      budget: nat)
  {
    || AppendFits(p, key, report, syncedAt, producer, current, budget)
    || p.size(EntriesBody([OpeningEntry(key, report, syncedAt, producer, current)], Rendered)) <= budget
  }

  /** No slice size works; the search for one is complete where fitting is monotone. */
  ghost predicate NoSliceFits(p: Platform, e: Entry, budget: nat) {
    && p.encode(e).Some?
    && (FitsIsMonotone(p, e, budget) ==> forall n: nat :: 1 <= n <= |p.encode(e).value| ==> !Fits(p, e, n, budget))
  }

  /** Why no write is planned, given the verified head. */
  ghost predicate Refused(p: Platform, key: IssueKey, current: Option<Existing>, report: Report, syncedAt: int, producer: Producer,
                          budget: nat, error: PrepareError)
  {
    match error
    case RejectedContent =>
      ContextProblem(key, report.context, current).None? && Rejected(p, key, report, syncedAt, producer, current, budget)
    case BudgetTooSmall =>
      && ContextProblem(key, report.context, current).None?
      && !Rejected(p, key, report, syncedAt, producer, current, budget)
      && !FitsWhole(p, key, report, syncedAt, producer, current, budget)
      && NoSliceFits(p, OpeningEntry(key, report, syncedAt, producer, current), budget)
    case problem => ContextProblem(key, report.context, current) == Some(problem)
  }

  /** A chunked plan: a slice size that fits and the selected reusable group. */
  ghost predicate ChunkPlan(p: Platform, e: Entry, actor: ActorId, comments: seq<Comment>, budget: nat, m: Mutation) {
    && m.ChunkedWrite? && m.budget == budget
    && exists n: nat, attempt: nat ::
         && Fits(p, e, n, budget)
         && Selected(p, e, n, actor, ProvisionalOf(comments), attempt, m.refs)
         && GroupOf(p, e, n, attempt) == Some(m.group)
  }

  /** Which write publishes the next revision, given the verified head. */
  ghost predicate Publishes(p: Platform, key: IssueKey, current: Option<Existing>, report: Report, syncedAt: int, producer: Producer,
                            budget: nat, m: Mutation)
  {
    var opening := OpeningEntry(key, report, syncedAt, producer, current);
    var body := EntriesBody([opening], Rendered);
    && ContextProblem(key, report.context, current).None?
    && p.encode(m.entry).Some?
    && if AppendFits(p, key, report, syncedAt, producer, current, budget) then
         var e := AppendedEntry(key, report, syncedAt, producer, current.value);
         m == SingleWrite(Append, m.expected, e, AppendEntry(current.value.comment.body, e), Some(current.value.comment.id))
       else if p.size(body) <= budget then
         m == SingleWrite(if current.None? then Create else Continue, m.expected, opening, body, None)
       else
         && m.ChunkedWrite? && m.entry == opening
         && exists n: nat, attempt: nat :: GroupOf(p, opening, n, attempt) == Some(m.group)
  }

  /** A write planned against one reading of the Issue. */
  ghost predicate Planned(p: Platform, issue: Issue, current: Option<Existing>, report: Report, syncedAt: int, producer: Producer,
                          budget: nat, m: Mutation)
  {
    && Publishes(p, issue.key, current, report, syncedAt, producer, budget, m)
    && m.expected == ExpectationOf(issue, current)
    && (m.ChunkedWrite? ==> ChunkPlan(p, m.entry, producer.actor, issue.comments, budget, m))
  }

  /** What the Issue's readers see as the head. */
  ghost predicate IsCurrent(p: Platform, issue: Issue, producers: seq<Producer>, current: Option<Existing>) {
    match current
    case None => |ManagedOf(issue.comments)| == 0
    case Some(head) => IsHead(p, issue, producers, head)
  }

  /** Once the head is known, the plan follows it. */
  method PlanMutation(p: Platform, issue: Issue, current: Option<Existing>, report: Report, syncedAt: int,
                      configuration: Configuration, budget: nat) returns (r: Result<Mutation, PrepareError>)
    requires PlatformOk(p)
    requires current.Some? && current.value.representation.AsEntries? ==> current.value.comment.body.EntriesBody?
    ensures r.Success? ==>
              && Planned(p, issue, current, report, syncedAt, configuration.current, budget, r.value)
              && !Rejected(p, issue.key, report, syncedAt, configuration.current, current, budget)
              && (r.value.SingleWrite? ==> p.size(r.value.body) <= budget)
    ensures r.Failure? ==> Refused(p, issue.key, current, report, syncedAt, configuration.current, budget, r.error)
  {
    hide Selected, GroupOf, Fits, EntryIdFor, InitialSessionId;
    var producer := configuration.current;
    var problem := ContextProblem(issue.key, report.context, current);
    if problem.Some? {
      return Failure(problem.value);
    }
    var expected := ExpectationOf(issue, current);
    if current.Some? && SameProducer(current.value, producer) && current.value.representation.AsEntries? {
      var entry := AppendedEntry(issue.key, report, syncedAt, producer, current.value);
      if p.encode(entry).None? {
        return Failure(RejectedContent);
      }
      var body := AppendEntry(current.value.comment.body, entry);
      if p.size(body) <= budget {
        return Success(SingleWrite(Append, expected, entry, body, Some(current.value.comment.id)));
      }
    }
    var entry := OpeningEntry(issue.key, report, syncedAt, producer, current);
    if p.encode(entry).None? {
      return Failure(RejectedContent);
    }
    var body := EntriesBody([entry], Rendered);
    if p.size(body) <= budget {
      return Success(SingleWrite(if current.None? then Create else Continue, expected, entry, body, None));
    }
    var n := LargestFittingChunkByteLength(p, entry, budget);
    if n.None? {
      return Failure(BudgetTooSmall);
    }
    FittingGroupExists(p, entry, n.value, budget);
    var group, refs, attempt := SelectReusableChunkGroup(p, issue.comments, entry, n.value, configuration);
    r := Success(ChunkedWrite(expected, entry, group, refs, budget));
  }

  lemma FittingGroupExists(p: Platform, e: Entry, n: nat, budget: nat)
    requires Fits(p, e, n, budget)
    ensures GroupOf(p, e, n, 0).Some?
  {
  }

  /** Why `prepareIssueWorkpadMutation` throws. */
  ghost predicate NotPrepared(p: Platform, issue: Issue, current: Option<Existing>, report: Report, syncedAt: int,
                              configuration: Configuration, budget: nat, error: PrepareError)
  {
    if !ConfigurationOk(configuration) then error == BadConfiguration
    else if budget < 1 then error == BadBudget
    else if forall c :: !IsCurrent(p, issue, configuration.producers, c) then error == UnreadableWorkpad
    else
      && IsCurrent(p, issue, configuration.producers, current)
      && Refused(p, issue.key, current, report, syncedAt, configuration.current, budget, error)
  }

  method PrepareIssueWorkpadMutation(p: Platform, issue: Issue, report: Report, syncedAt: int, configuration: Configuration,
                                     budget: nat)
    returns (r: Result<Mutation, PrepareError>, current: Option<Existing>)
    requires PlatformOk(p)
    ensures r.Success? ==>
              && budget >= 1 && ConfigurationOk(configuration)
              && IsCurrent(p, issue, configuration.producers, current)
              && Planned(p, issue, current, report, syncedAt, configuration.current, budget, r.value)
              && !Rejected(p, issue.key, report, syncedAt, configuration.current, current, budget)
              && (r.value.SingleWrite? ==> p.size(r.value.body) <= budget)
    ensures r.Failure? ==> NotPrepared(p, issue, current, report, syncedAt, configuration, budget, r.error)
  {
    hide Planned, Refused, Rejected, IsHead, ConfigurationOk;
    var valid := ValidateProducerConfiguration(configuration);
    if !valid {
      return Failure(BadConfiguration), None;
    }
    if budget < 1 {
      return Failure(BadBudget), None;
    }
    var existing := FindExistingWorkpad(p, issue, configuration);
    if existing.Failure? {
      UnreadableHasNoHead(p, issue, configuration);
      return Failure(UnreadableWorkpad), None;
    }
    current := existing.value;
    if current.Some? {
      HeadHasEntriesBody(p, issue, configuration.producers, current.value);
    }
    assert IsCurrent(p, issue, configuration.producers, current);
    r := PlanMutation(p, issue, current, report, syncedAt, configuration, budget);
  }

  lemma UnreadableHasNoHead(p: Platform, issue: Issue, configuration: Configuration)
    requires ConfigurationOk(configuration) ==>
               && |ManagedOf(issue.comments)| > 0
               && forall chain: seq<Verified> :: !Reads(p, issue.comments, issue.key, configuration.producers, chain)
    ensures !ConfigurationOk(configuration) || forall c :: !IsCurrent(p, issue, configuration.producers, c)
  {
    hide ConfigurationOk, Reads;
  }

  /** Members of a readable lineage are verified comments of the Issue. */
  lemma ChainMember(p: Platform, comments: seq<Comment>, key: IssueKey, producers: seq<Producer>, chain: seq<Verified>, v: Verified)
    requires Reads(p, comments, key, producers, chain) && v in chain
    ensures v.comment in comments && IsManaged(v.comment.body) && VerifiedOf(p, comments, key, producers, v.comment) == Some(v)
  {
    hide VerifiedOf, IsChain;
    var vs :| AllVerified(p, comments, key, producers, vs) && IsLineageOf(vs, chain);
    SameMembers(chain, vs);
    var i :| 0 <= i < |vs| && vs[i] == v;
    assert ManagedOf(comments)[i] in ManagedOf(comments);
    VerifiedKeepsComment(p, comments, key, producers, ManagedOf(comments)[i]);
  }

  lemma VerifiedKeepsComment(p: Platform, comments: seq<Comment>, key: IssueKey, producers: seq<Producer>, c: Comment)
    requires VerifiedOf(p, comments, key, producers, c).Some?
    ensures VerifiedOf(p, comments, key, producers, c).value.comment == c
    ensures var v := VerifiedOf(p, comments, key, producers, c).value; v.representation.AsEntries? <==> c.body.EntriesBody?
  {
    hide ManifestEntry;
  }

  lemma HeadHasEntriesBody(p: Platform, issue: Issue, producers: seq<Producer>, head: Existing)
    requires IsHead(p, issue, producers, head)
    ensures head.representation.AsEntries? ==> head.comment.body.EntriesBody?
  {
    hide Reads;
    var chain: seq<Verified> :| Reads(p, issue.comments, issue.key, producers, chain)
      && |chain| > 0 && |chain[|chain| - 1].entries| > 0 && HeadOf(chain) == head;
    var v := chain[|chain| - 1];
    ChainMember(p, issue.comments, issue.key, producers, chain, v);
    VerifiedKeepsComment(p, issue.comments, issue.key, producers, v.comment);
  }
}
