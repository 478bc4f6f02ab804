/** The whole history of an Issue: what its readers see after any run of publications. */
module PublicationHistory {
  import opened Common
  import opened Workpad
  import opened Chunks
  import opened Lineage
  import opened IssueWorkpad
  import opened IssueChanges
  import opened Publication
  import opened PublicationClosure
  import opened PublicationRuns

  // ---------------------------------------------------------------- one reading

  /** The head a reader finds is the end of the one accepted chain. */
  lemma CurrentIsHead(p: Platform, issue: Issue, producers: seq<Producer>, chain: seq<Verified>, current: Option<Existing>)
    requires Readable(p, issue.comments, issue.key, producers, chain) && IsCurrent(p, issue, producers, current)
    ensures |chain| > 0 ==> |chain[|chain| - 1].entries| > 0
    ensures current == HeadIn(chain)
  {
    hide VerifiedOf, CanonicalIds, ManagedOf;
    if current.Some? {
      var other: seq<Verified> :| Reads(p, issue.comments, issue.key, producers, other)
        && |other| > 0 && |other[|other| - 1].entries| > 0 && HeadOf(other) == current.value;
      ReadsNeedsManaged(p, issue.comments, issue.key, producers, other);
      if |chain| > 0 {
        ReadsOneChain(p, issue.comments, issue.key, producers, chain, other);
      }
    } else if |chain| > 0 {
      ReadsNeedsManaged(p, issue.comments, issue.key, producers, chain);
    }
  }

  lemma ReadsNeedsManaged(p: Platform, comments: seq<Comment>, key: IssueKey, producers: seq<Producer>, chain: seq<Verified>)
    requires Reads(p, comments, key, producers, chain)
    ensures |ManagedOf(comments)| > 0
  {
    hide VerifiedOf, ManagedOf, IsChain;
    var vs :| AllVerified(p, comments, key, producers, vs) && IsLineageOf(vs, chain);
    SameMembers(chain, vs);
    ReadsMakesChain(p, comments, key, producers, chain);
  }

  // ---------------------------------------------------------------- writes that break the lineage

  /** Something is managed, but no lineage is accepted: `findExistingWorkpad` throws for every reader. */
  ghost predicate Unreadable(p: Platform, comments: seq<Comment>, key: IssueKey, producers: seq<Producer>) {
    |ManagedOf(comments)| > 0 && forall chain: seq<Verified> :: !Reads(p, comments, key, producers, chain)
  }

  /** Every managed comment of a readable Issue is a member of its chain. */
  lemma ManagedIsInChain(p: Platform, comments: seq<Comment>, key: IssueKey, producers: seq<Producer>, chain: seq<Verified>, a: Comment)
    requires Reads(p, comments, key, producers, chain) && a in ManagedOf(comments)
    ensures VerifiedOf(p, comments, key, producers, a).Some? && VerifiedOf(p, comments, key, producers, a).value in chain
  {
    hide VerifiedOf, ManagedOf, IsChain;
    var vs :| AllVerified(p, comments, key, producers, vs) && IsLineageOf(vs, chain);
    SameMembers(chain, vs);
    var i :| 0 <= i < |vs| && ManagedOf(comments)[i] == a;
    assert VerifiedOf(p, comments, key, producers, a) == Some(vs[i]);
  }

  /** Two managed comments that name different reports make the Issue unreadable. */
  lemma MixedReportsAreUnreadable(p: Platform, comments: seq<Comment>, key: IssueKey, producers: seq<Producer>, a: Comment, b: Comment)
    requires a in ManagedOf(comments) && b in ManagedOf(comments)
    requires VerifiedOf(p, comments, key, producers, a).Some? && VerifiedOf(p, comments, key, producers, b).Some?
    requires VerifiedOf(p, comments, key, producers, a).value.entries[0].report.id
             != VerifiedOf(p, comments, key, producers, b).value.entries[0].report.id
    ensures Unreadable(p, comments, key, producers)
  {
    hide VerifiedOf, ManagedOf, Reads, Linked, Contiguous, DistinctComments;
    forall chain: seq<Verified>
      ensures !Reads(p, comments, key, producers, chain)
    {
      if Reads(p, comments, key, producers, chain) {
        ReadsMakesChain(p, comments, key, producers, chain);
        ManagedIsInChain(p, comments, key, producers, chain, a);
        ManagedIsInChain(p, comments, key, producers, chain, b);
      }
    }
  }

  lemma FailedVerificationIsUnreadable(p: Platform, comments: seq<Comment>, key: IssueKey, producers: seq<Producer>, a: Comment)
    requires a in ManagedOf(comments) && VerifiedOf(p, comments, key, producers, a).None?
    ensures Unreadable(p, comments, key, producers)
  {
    hide VerifiedOf, ManagedOf, Reads;
    forall chain: seq<Verified>
      ensures !Reads(p, comments, key, producers, chain)
    {
      if Reads(p, comments, key, producers, chain) {
        ManagedIsInChain(p, comments, key, producers, chain, a);
      }
    }
  }

  /** Nothing looks for reserved markers before writing either, and a marked inline write is never read back. */
  lemma MarkedWriteBreaksLineage(p: Platform, issue: Issue, configuration: Configuration, chain: seq<Verified>, report: Report,
                                 syncedAt: int, budget: nat, m: Mutation, id: CommentRef, refs: seq<CommentRef>, after: seq<Comment>)
    requires Readable(p, issue.comments, issue.key, configuration.producers, chain)
    requires |chain| > 0 ==> |chain[|chain| - 1].entries| > 0
    requires Publishes(p, issue.key, HeadIn(chain), report, syncedAt, configuration.current, budget, m) && !ReadsBack(p, m)
    requires Written(issue.comments, m, configuration.current.actor, id, refs, after)
    ensures Unreadable(p, after, issue.key, configuration.producers)
  {
    hide Reads, CanonicalIds, ManagedOf, OpeningEntry, AppendedEntry, Unreadable, EntriesAgree;
    var at: nat;
    if m.mode.Append? {
      at :| 0 <= at < |issue.comments| && m.target == Some(issue.comments[at].id)
            && after == issue.comments[at := issue.comments[at].(body := m.body)];
    } else {
      at := |issue.comments|;
    }
    assert after[at] in after && after[at].body == m.body && m.entry in m.body.entries;
    FailedVerificationIsUnreadable(p, after, issue.key, configuration.producers, after[at]);
  }

  /** Nothing checks the report id before writing, and a foreign one makes the lineage unreadable. */
  lemma ForeignReportBreaksLineage(p: Platform, issue: Issue, configuration: Configuration, chain: seq<Verified>, report: Report,
                                   syncedAt: int, budget: nat, m: Mutation, id: CommentRef, refs: seq<CommentRef>, after: seq<Comment>)
    requires PlatformOk(p) && ConfigurationOk(configuration)
    requires Readable(p, issue.comments, issue.key, configuration.producers, chain) && |chain| > 0
    requires |chain[|chain| - 1].entries| > 0 && report.id != HeadOf(chain).entry.report.id
    requires Publishes(p, issue.key, HeadIn(chain), report, syncedAt, configuration.current, budget, m)
    requires Written(issue.comments, m, configuration.current.actor, id, refs, after)
    ensures Unreadable(p, after, issue.key, configuration.producers)
  {
    hide VerifiedOf, Reads, CanonicalIds, ManagedOf, MatchesOf, Unreadable;
    var head := chain[|chain| - 1];
    ChainMember(p, issue.comments, issue.key, configuration.producers, chain, head);
    OneReportPerComment(p, issue.comments, issue.key, configuration.producers, head);
    if !ReadsBack(p, m) {
      MarkedWriteBreaksLineage(p, issue, configuration, chain, report, syncedAt, budget, m, id, refs, after);
    } else if m.SingleWrite? && m.mode.Append? {
      var at :| 0 <= at < |issue.comments| && m.target == Some(issue.comments[at].id)
                && after == issue.comments[at := issue.comments[at].(body := m.body)];
      VerifiedShowsEntries(p, issue.comments, issue.key, configuration.producers, head);
      assert issue.comments[at] == head.comment;
      MixedCommentFails(p, after, issue.key, configuration.producers, after[at], m.entry);
      assert after[at] in after;
      FailedVerificationIsUnreadable(p, after, issue.key, configuration.producers, after[at]);
    } else {
      var v := NewCommentVerifies(p, issue, configuration, HeadIn(chain), report, syncedAt, budget, m, id, refs, after);
      var x := after[|issue.comments|];
      assert after == issue.comments + [x];
      VerifiedAfterAppend(p, issue.comments, issue.key, configuration.producers, head.comment, x);
      assert x in after && head.comment in after;
      MixedReportsAreUnreadable(p, after, issue.key, configuration.producers, head.comment, x);
    }
  }

  lemma VerifiedShowsEntries(p: Platform, comments: seq<Comment>, key: IssueKey, producers: seq<Producer>, v: Verified)
    requires VerifiedOf(p, comments, key, producers, v.comment) == Some(v)
    ensures v.comment.body.EntriesBody? ==> v.entries == v.comment.body.entries
  {
    hide ManifestEntry, EntriesAgree;
  }

  lemma MixedCommentFails(p: Platform, comments: seq<Comment>, key: IssueKey, producers: seq<Producer>, x: Comment, e: Entry)
    requires x.body.EntriesBody? && |x.body.entries| > 1 && x.body.entries[|x.body.entries| - 1] == e
    requires e.report.id != x.body.entries[0].report.id
    ensures VerifiedOf(p, comments, key, producers, x).None?
  {
  }

  // ---------------------------------------------------------------- exactly when a write is sound

  /** What a caller can check before a write: the lineage's own report, and nothing marked unless it goes out in chunks. */
  predicate IsSound(p: Platform, current: Option<Existing>, report: Report, m: Mutation) {
    && (current.Some? ==> report.id == current.value.entry.report.id)
    && ReadsBack(p, m)
  }

  /**
   * A planned write leaves a readable Issue, with exactly the prepared entry added, if and only if
   * it was sound. Any other leaves an Issue that nobody can read.
   */
  lemma PublicationOutcome(p: Platform, issue: Issue, configuration: Configuration, chain: seq<Verified>, report: Report,
                           syncedAt: int, budget: nat, m: Mutation, id: CommentRef, refs: seq<CommentRef>, after: seq<Comment>)
    returns (grown: seq<Verified>)
    requires PlatformOk(p) && ConfigurationOk(configuration)
    requires Readable(p, issue.comments, issue.key, configuration.producers, chain)
    requires |chain| > 0 ==> |chain[|chain| - 1].entries| > 0
    requires Publishes(p, issue.key, HeadIn(chain), report, syncedAt, configuration.current, budget, m)
    requires Written(issue.comments, m, configuration.current.actor, id, refs, after)
    ensures IsSound(p, HeadIn(chain), report, m) <==>
            exists other: seq<Verified> :: Readable(p, after, issue.key, configuration.producers, other)
    ensures IsSound(p, HeadIn(chain), report, m) ==>
              && Readable(p, after, issue.key, configuration.producers, grown) && AllEntries(grown) == AllEntries(chain) + [m.entry]
              && |grown| > 0 && |grown[|grown| - 1].entries| > 0 && HeadOf(grown).entry == m.entry
              && m.entry.revision == |AllEntries(chain)|
              && HeadOf(grown).comment.id == if m.SingleWrite? && m.mode.Append? && m.target.Some? then m.target.value else id
    ensures !IsSound(p, HeadIn(chain), report, m) ==> Unreadable(p, after, issue.key, configuration.producers)
  {
    hide Readable, Publishes, Written, ReadsBack, Unreadable, ConfigurationOk, AllEntries;
    grown := [];
    if IsSound(p, HeadIn(chain), report, m) {
      grown := PlannedWriteMovesHead(p, issue, configuration, chain, report, syncedAt, budget, m, id, refs, after);
    } else {
      if !ReadsBack(p, m) {
        MarkedWriteBreaksLineage(p, issue, configuration, chain, report, syncedAt, budget, m, id, refs, after);
      } else {
        ForeignReportBreaksLineage(p, issue, configuration, chain, report, syncedAt, budget, m, id, refs, after);
      }
      UnreadableHasNoChain(p, after, issue.key, configuration.producers);
    }
  }

  lemma UnreadableHasNoChain(p: Platform, comments: seq<Comment>, key: IssueKey, producers: seq<Producer>)
    requires Unreadable(p, comments, key, producers)
    ensures forall chain: seq<Verified> :: !Readable(p, comments, key, producers, chain)
    ensures forall updatedAt, current :: !IsCurrent(p, Issue(key, updatedAt, comments), producers, current)
  {
    hide Reads, ManagedOf, CanonicalIds;
  }

  // ---------------------------------------------------------------- runs

  datatype Step =
    | Foreign(x: Comment)
    | Publish(report: Report, syncedAt: int, updatedAt: int, producer: Producer, budget: nat, m: Mutation, id: CommentRef,
              refs: seq<CommentRef>)

  /** The author is no registered producer, or GitHub reports none. */
  ghost predicate Outsider(x: Comment, producers: seq<Producer>) {
    forall q :: q in producers ==> x.author != Some(q.actor)
  }

  /**
   * Comments without the managed marker may come from anyone, provisional chunks among them, and
   * outsiders may write comments that carry it. A publication starts from what its reader finds.
   */
  ghost predicate Next(p: Platform, key: IssueKey, producers: seq<Producer>, s: seq<Comment>, step: Step, t: seq<Comment>) {
    match step
    case Foreign(x) => Fresh(s, x.id) && (IsManaged(x.body) ==> Outsider(x, producers)) && t == s + [x]
    case Publish(report, syncedAt, updatedAt, producer, budget, m, id, refs) =>
      && producer in producers
      && Written(s, m, producer.actor, id, refs, t)
      && exists current ::
           && IsCurrent(p, Issue(key, updatedAt, s), producers, current)
           && Publishes(p, key, current, report, syncedAt, producer, budget, m)
  }

  /** A publication is sound for the head its reader finds, a foreign comment if it does not pose as a workpad. */
  ghost predicate SoundStep(p: Platform, key: IssueKey, producers: seq<Producer>, s: seq<Comment>, step: Step) {
    match step
    case Foreign(x) => !IsManaged(x.body)
    case Publish(report, _, updatedAt, _, _, m, _, _) =>
      forall current :: IsCurrent(p, Issue(key, updatedAt, s), producers, current) ==> IsSound(p, current, report, m)
  }

  ghost predicate IsRun(p: Platform, key: IssueKey, producers: seq<Producer>, states: seq<seq<Comment>>, steps: seq<Step>) {
    && |states| == |steps| + 1
    && |ManagedOf(states[0])| == 0 && DistinctIds(states[0])
    && forall i :: 0 <= i < |steps| ==> Next(p, key, producers, states[i], steps[i], states[i + 1])
  }

  ghost predicate AllSound(p: Platform, key: IssueKey, producers: seq<Producer>, states: seq<seq<Comment>>, steps: seq<Step>)
    requires |states| == |steps| + 1
  {
    forall i :: 0 <= i < |steps| ==> SoundStep(p, key, producers, states[i], steps[i])
  }

  /** The prepared entries, in the order they were published. */
  function Published(steps: seq<Step>): seq<Entry> {
    if |steps| == 0 then []
    else
      var last := steps[|steps| - 1];
      if last.Publish? then Published(steps[..|steps| - 1]) + [last.m.entry] else Published(steps[..|steps| - 1])
  }

  /** A comment that poses as a workpad and is not by a registered producer makes the Issue unreadable. */
  lemma OutsiderBreaksLineage(p: Platform, comments: seq<Comment>, key: IssueKey, producers: seq<Producer>, x: Comment)
    requires x in comments && IsManaged(x.body) && Outsider(x, producers)
    ensures Unreadable(p, comments, key, producers)
  {
    hide Unreadable, EntriesAgree, NoneMarked, ManifestOk, ReferencesOk;
    FailedVerificationIsUnreadable(p, comments, key, producers, x);
  }

  lemma ForeignKeepsReadable(p: Platform, comments: seq<Comment>, key: IssueKey, producers: seq<Producer>, x: Comment, chain: seq<Verified>)
    requires Readable(p, comments, key, producers, chain) && Fresh(comments, x.id) && !IsManaged(x.body)
    ensures Readable(p, comments + [x], key, producers, chain)
  {
    hide Reads, ManagedOf, CanonicalIds;
    UnmanagedIsInvisible(p, comments, key, producers, x, chain);
    ManagedAfterAppend(comments, x);
    forall i | 0 <= i < |comments|
      ensures (comments + [x])[i].id != x.id
    {
      assert comments[i] in comments;
    }
  }

  /** One step from a readable Issue. */
  lemma StepFromReadable(p: Platform, key: IssueKey, producers: seq<Producer>, s: seq<Comment>, step: Step, t: seq<Comment>,
                         chain: seq<Verified>) returns (grown: seq<Verified>)
    requires PlatformOk(p) && DistinctProducers(producers)
    requires Readable(p, s, key, producers, chain) && Next(p, key, producers, s, step, t)
    ensures SoundStep(p, key, producers, s, step) ==>
              && Readable(p, t, key, producers, grown)
              && AllEntries(grown) == AllEntries(chain) + if step.Publish? then [step.m.entry] else []
    ensures !SoundStep(p, key, producers, s, step) ==> Unreadable(p, t, key, producers)
  {
    hide Publishes, Written, Fresh, AllEntries, Unreadable, IsSound;
    match step
    case Foreign(x) =>
      grown := chain;
      if IsManaged(x.body) {
        OutsiderBreaksLineage(p, t, key, producers, x);
      } else {
        ForeignKeepsReadable(p, s, key, producers, x, chain);
      }
    case Publish(report, syncedAt, updatedAt, producer, budget, m, id, refs) =>
      hide Readable, IsCurrent;
      var issue := Issue(key, updatedAt, s);
      var current :| IsCurrent(p, issue, producers, current) && Publishes(p, issue.key, current, report, syncedAt, producer, budget, m);
      CurrentIsHead(p, issue, producers, chain, current);
      forall other | IsCurrent(p, issue, producers, other)
        ensures other == current
      {
        CurrentIsHead(p, issue, producers, chain, other);
      }
      grown := PublicationOutcome(p, issue, Configuration(producer, producers), chain, report, syncedAt, budget, m, id, refs, t);
  }

  /** Nothing but a comment of someone else can follow on an unreadable Issue, and it does not help. */
  lemma StepFromUnreadable(p: Platform, key: IssueKey, producers: seq<Producer>, s: seq<Comment>, step: Step, t: seq<Comment>)
    requires Unreadable(p, s, key, producers) && Next(p, key, producers, s, step, t)
    ensures step.Foreign? && Unreadable(p, t, key, producers)
  {
    hide Reads, ManagedOf, Fresh, Publishes, Written, IsCurrent;
    UnreadableHasNoChain(p, s, key, producers);
    if step.Foreign? {
      if IsManaged(step.x.body) {
        OutsiderBreaksLineage(p, t, key, producers, step.x);
      } else {
        ManagedAfterAppend(s, step.x);
        forall chain: seq<Verified>
          ensures !Reads(p, t, key, producers, chain)
        {
          UnmanagedIsInvisible(p, s, key, producers, step.x, chain);
        }
      }
    }
  }

  /**
   * Along every run from an Issue without a workpad in which each step is sound, the Issue stays
   * readable, and its history is exactly the sequence of published entries: none is lost, changed,
   * reordered or invented. After the first unsound publication, or the first comment by an outsider
   * that poses as a workpad, it is unreadable for good.
   */
  lemma {:induction false} RunKeepsHistory(p: Platform, key: IssueKey, producers: seq<Producer>, states: seq<seq<Comment>>, steps: seq<Step>)
    returns (chain: seq<Verified>)
    requires PlatformOk(p) && DistinctProducers(producers) && IsRun(p, key, producers, states, steps)
    ensures AllSound(p, key, producers, states, steps) ==>
              Readable(p, states[|steps|], key, producers, chain) && AllEntries(chain) == Published(steps)
    ensures !AllSound(p, key, producers, states, steps) ==> Unreadable(p, states[|steps|], key, producers)
  {
    hide Next, PlatformOk, DistinctProducers, SoundStep, Unreadable;
    if |steps| == 0 {
      chain := [];
    } else {
      var n := |steps| - 1;
      RunPrefix(p, key, producers, states, steps);
      SoundPrefix(p, key, producers, states, steps);
      chain := RunKeepsHistory(p, key, producers, states[..n + 1], steps[..n]);
      if AllSound(p, key, producers, states[..n + 1], steps[..n]) {
        chain := StepFromReadable(p, key, producers, states[n], steps[n], states[n + 1], chain);
      } else {
        StepFromUnreadable(p, key, producers, states[n], steps[n], states[n + 1]);
      }
    }
  }

  lemma SoundPrefix(p: Platform, key: IssueKey, producers: seq<Producer>, states: seq<seq<Comment>>, steps: seq<Step>)
    requires |states| == |steps| + 1 && |steps| > 0
    ensures var n := |steps| - 1;
            AllSound(p, key, producers, states, steps) <==>
            AllSound(p, key, producers, states[..n + 1], steps[..n]) && SoundStep(p, key, producers, states[n], steps[n])
  {
    hide SoundStep;
    var n := |steps| - 1;
    assert forall i :: 0 <= i < n ==> steps[..n][i] == steps[i] && states[..n + 1][i] == states[i];
  }

  /** A run ends readable exactly if every step in it was sound. */
  lemma RunIsReadableIffSound(p: Platform, key: IssueKey, producers: seq<Producer>, states: seq<seq<Comment>>, steps: seq<Step>)
    requires PlatformOk(p) && DistinctProducers(producers) && IsRun(p, key, producers, states, steps)
    ensures AllSound(p, key, producers, states, steps) <==>
            exists chain: seq<Verified> :: Readable(p, states[|steps|], key, producers, chain)
  {
    hide Next, ManagedOf, AllSound, Readable, Unreadable, PlatformOk;
    var chain := RunKeepsHistory(p, key, producers, states, steps);
    if !AllSound(p, key, producers, states, steps) {
      UnreadableHasNoChain(p, states[|steps|], key, producers);
    }
  }

  lemma RunPrefix(p: Platform, key: IssueKey, producers: seq<Producer>, states: seq<seq<Comment>>, steps: seq<Step>)
    requires IsRun(p, key, producers, states, steps) && |steps| > 0
    ensures var n := |steps| - 1;
            IsRun(p, key, producers, states[..n + 1], steps[..n]) && Next(p, key, producers, states[n], steps[n], states[n + 1])
  {
    hide Next, ManagedOf;
    var n := |steps| - 1;
    assert forall i :: 0 <= i < n ==> steps[..n][i] == steps[i] && states[..n + 1][i + 1] == states[i + 1];
  }

  /** A reader who finds anything at the end of a run finds the entry published last, at the next revision. */
  lemma ReaderSeesLastPublication(p: Platform, key: IssueKey, producers: seq<Producer>, states: seq<seq<Comment>>, steps: seq<Step>,
                                  updatedAt: int, current: Option<Existing>)
    requires PlatformOk(p) && DistinctProducers(producers) && IsRun(p, key, producers, states, steps)
    requires IsCurrent(p, Issue(key, updatedAt, states[|steps|]), producers, current)
    ensures AllSound(p, key, producers, states, steps)
    ensures current.None? <==> |Published(steps)| == 0
    ensures current.Some? ==>
              && current.value.entry == Published(steps)[|Published(steps)| - 1]
              && current.value.entry.revision == |Published(steps)| - 1
  {
    hide Next, IsCurrent, Readable, SoundStep, AllSound, Unreadable;
    var chain := RunKeepsHistory(p, key, producers, states, steps);
    if !AllSound(p, key, producers, states, steps) {
      UnreadableHasNoChain(p, states[|steps|], key, producers);
    }
    CurrentIsHead(p, Issue(key, updatedAt, states[|steps|]), producers, chain, current);
    if |chain| > 0 {
      HistoryEndsWithHead(p, states[|steps|], key, producers, chain);
    }
  }

  lemma HistoryEndsWithHead(p: Platform, comments: seq<Comment>, key: IssueKey, producers: seq<Producer>, chain: seq<Verified>)
    requires Readable(p, comments, key, producers, chain) && |chain| > 0 && |chain[|chain| - 1].entries| > 0
    ensures |AllEntries(chain)| > 0 && HeadOf(chain).entry == AllEntries(chain)[|AllEntries(chain)| - 1]
    ensures HeadOf(chain).entry.revision == |AllEntries(chain)| - 1
  {
    ReadsMakesChain(p, comments, key, producers, chain);
    hide Reads;
    HeadRevision(chain);
  }
}
