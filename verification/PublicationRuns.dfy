/** Runs of publications from an Issue without a workpad, with unrelated comments in between. */
module PublicationRuns {
  import opened Common
  import opened Workpad
  import opened Chunks
  import opened Lineage
  import opened IssueWorkpad
  import opened IssueChanges
  import opened Publication
  import opened PublicationClosure

  // ---------------------------------------------------------------- append

  lemma AppendedAgrees(entries: seq<Entry>, e: Entry, key: IssueKey, id: CommentRef)
    requires EntriesAgree(entries, key, id) && AgreesWith(e, entries[0]) && EntryBound(e, key, id)
    requires e.revision == entries[0].revision + |entries| && forall x :: x in entries ==> x.entryId != e.entryId
    ensures EntriesAgree(entries + [e], key, id)
  {
    hide EntryBound, AgreesWith;
    var grown := entries + [e];
    assert forall i :: 0 <= i < |entries| ==> grown[i] == entries[i] && entries[i] in entries;
  }

  lemma OneProducerPerActor(producers: seq<Producer>, a: Producer, b: Producer)
    requires DistinctProducers(producers) && a in producers && b in producers && a.actor == b.actor
    ensures a == b
  {
    var i :| 0 <= i < |producers| && producers[i] == a;
    var j :| 0 <= j < |producers| && producers[j] == b;
    assert i < j ==> producers[i].actor != producers[j].actor;
  }

  lemma AppendedEntryIsBound(key: IssueKey, report: Report, syncedAt: int, producer: Producer, head: Existing)
    ensures EntryBound(AppendedEntry(key, report, syncedAt, producer, head), key, head.comment.id)
  {
    hide EntryIdFor;
  }

  /** Entries of the head comment are entries of the lineage. */
  lemma HeadEntriesInLineage(chain: seq<Verified>, e: Entry)
    requires |chain| > 0 && e in chain[|chain| - 1].entries
    ensures e in AllEntries(chain)
  {
  }

  /** The head comment with one more entry of its own producer still verifies. */
  lemma AppendedVerifies(p: Platform, comments: seq<Comment>, key: IssueKey, configuration: Configuration, chain: seq<Verified>,
                         report: Report, syncedAt: int, x: Comment)
    requires ConfigurationOk(configuration) && Accepted(p, comments, key, configuration.producers, chain)
    requires |chain| > 0 && |chain[|chain| - 1].entries| > 0 && chain[|chain| - 1].representation.AsEntries?
    requires SameProducer(HeadOf(chain), configuration.current) && report.id == HeadOf(chain).entry.report.id
    requires HeadOf(chain).comment.body.EntriesBody?
    requires var e := AppendedEntry(key, report, syncedAt, configuration.current, HeadOf(chain));
             x == HeadOf(chain).comment.(body := AppendEntry(HeadOf(chain).comment.body, e)) && !p.marked(e)
    ensures var e := AppendedEntry(key, report, syncedAt, configuration.current, HeadOf(chain));
            var head := chain[|chain| - 1];
            forall others :: VerifiedOf(p, others, key, configuration.producers, x)
                             == Some(head.(comment := x, entries := head.entries + [e]))
  {
    var head := chain[|chain| - 1];
    var e := AppendedEntry(key, report, syncedAt, configuration.current, HeadOf(chain));
    var entries := head.comment.body.entries;
    ReadsMakesChain(p, comments, key, configuration.producers, chain);
    ChainMember(p, comments, key, configuration.producers, chain, head);
    OneProducerPerActor(configuration.producers, head.producer, configuration.current);
    AppendedEntryIsBound(key, report, syncedAt, configuration.current, HeadOf(chain));
    AppendedAgreesWithFirst(key, report, syncedAt, configuration.current, HeadOf(chain), entries);
    AppendedContinues(chain, key, report, syncedAt, configuration.current);
    NewIdInLineage(chain, e);
    AppendedAgrees(entries, e, key, x.id);
  }

  lemma AppendedAgreesWithFirst(key: IssueKey, report: Report, syncedAt: int, producer: Producer, head: Existing, entries: seq<Entry>)
    requires EntriesAgree(entries, key, head.comment.id) && entries[|entries| - 1] == head.entry
    requires report.id == head.entry.report.id && head.sessionId == entries[0].sessionId && producer == entries[0].producer
    requires head.predecessor == entries[0].predecessor && head.continuation == entries[0].continuation
    ensures var e := AppendedEntry(key, report, syncedAt, producer, head);
            AgreesWith(e, entries[0]) && e.revision == entries[0].revision + |entries|
  {
    hide EntryBound, EntryIdFor;
  }

  lemma AppendedContinues(chain: seq<Verified>, key: IssueKey, report: Report, syncedAt: int, producer: Producer)
    requires IsChain(chain) && |chain| > 0 && |chain[|chain| - 1].entries| > 0
    ensures var e := AppendedEntry(key, report, syncedAt, producer, HeadOf(chain));
            && e.revision == |AllEntries(chain)| == HeadOf(chain).entry.revision + 1
            && e.sessionId == chain[0].sessionId && e.entryId == EntryIdFor(e.sessionId, e.revision)
  {
    hide EntryIdFor, AllEntries;
    HeadRevision(chain);
    assert chain[0] in chain && chain[|chain| - 1] in chain;
  }

  /** The id of the next revision is new to the lineage. */
  lemma NewIdInLineage(chain: seq<Verified>, e: Entry)
    requires IsChain(chain) && CanonicalIds(chain) && |chain| > 0
    requires e.revision == |AllEntries(chain)| && e.entryId == EntryIdFor(chain[0].sessionId, e.revision)
    ensures forall x :: x in chain[|chain| - 1].entries ==> x.entryId != e.entryId
  {
    hide EntryIdFor, AllEntries;
    forall x | x in chain[|chain| - 1].entries
      ensures x.entryId != e.entryId
    {
      HeadEntriesInLineage(chain, x);
      if x.entryId == e.entryId {
        EntryIdsDiffer(chain[0].sessionId, x.revision, e.revision);
      }
    }
  }

  /** Appending to the head comment rewrites the end of the lineage to hold the new entry. */
  lemma AppendMovesHead(p: Platform, comments: seq<Comment>, key: IssueKey, configuration: Configuration, chain: seq<Verified>,
                        report: Report, syncedAt: int, at: nat, x: Comment)
    requires ConfigurationOk(configuration) && Accepted(p, comments, key, configuration.producers, chain)
    requires |chain| > 0 && |chain[|chain| - 1].entries| > 0 && chain[|chain| - 1].representation.AsEntries?
    requires SameProducer(HeadOf(chain), configuration.current) && report.id == HeadOf(chain).entry.report.id
    requires HeadOf(chain).comment.body.EntriesBody? && at < |comments| && comments[at] == HeadOf(chain).comment
    requires var e := AppendedEntry(key, report, syncedAt, configuration.current, HeadOf(chain));
             x == comments[at].(body := AppendEntry(comments[at].body, e)) && !p.marked(e)
    ensures var e, head := AppendedEntry(key, report, syncedAt, configuration.current, HeadOf(chain)), chain[|chain| - 1];
            var grown := chain[|chain| - 1 := head.(comment := x, entries := head.entries + [e])];
            && Accepted(p, comments[at := x], key, configuration.producers, grown)
            && AllEntries(grown) == AllEntries(chain) + [e]
            && HeadOf(grown).entry == e && HeadOf(grown).comment == x
            && e.revision == HeadOf(chain).entry.revision + 1
  {
    var e, head := AppendedEntry(key, report, syncedAt, configuration.current, HeadOf(chain)), chain[|chain| - 1];
    var v := head.(comment := x, entries := head.entries + [e]);
    ReadsMakesChain(p, comments, key, configuration.producers, chain);
    ChainMember(p, comments, key, configuration.producers, chain, head);
    hide VerifiedOf, IsChain, CanonicalIds, Reads, AllEntries, EntryIdFor;
    AppendedContinues(chain, key, report, syncedAt, configuration.current);
    AppendedVerifies(p, comments, key, configuration, chain, report, syncedAt, x);
    HeadGrows(chain, x, e);
    HeadRewritten(p, comments, key, configuration.producers, at, x, v, chain);
    EntriesOfRewritten(chain, v, e);
  }

  lemma EntriesOfRewritten(chain: seq<Verified>, v: Verified, e: Entry)
    requires |chain| > 0 && v.entries == chain[|chain| - 1].entries + [e]
    ensures AllEntries(chain[|chain| - 1 := v]) == AllEntries(chain) + [e]
  {
    var n := |chain| - 1;
    assert chain[n := v][..n] == chain[..n];
  }

  // ---------------------------------------------------------------- one planned write

  /** The Issue after a write: a rewritten comment for an append, otherwise a new comment by the producer. */
  ghost predicate Written(comments: seq<Comment>, m: Mutation, actor: ActorId, id: CommentRef, refs: seq<CommentRef>, after: seq<Comment>) {
    match m
    case SingleWrite(Append, _, _, body, target) =>
      exists at :: 0 <= at < |comments| && target == Some(comments[at].id)
        && after == comments[at := comments[at].(body := body)]
    case SingleWrite(_, _, _, body, _) => Fresh(comments, id) && after == comments + [Comment(id, body, Some(actor))]
    case ChunkedWrite(_, _, group, _, _) =>
      && Fresh(comments, id) && ChunksPublished(comments, group, refs, actor)
      && after == comments + [Comment(id, ManifestBody(ManifestFor(group, refs), Rendered), Some(actor))]
  }

  /** A readable Issue: nothing managed yet, or one accepted lineage. */
  ghost predicate Readable(p: Platform, comments: seq<Comment>, key: IssueKey, producers: seq<Producer>, chain: seq<Verified>) {
    && DistinctIds(comments)
    && if |chain| == 0 then |ManagedOf(comments)| == 0 else Accepted(p, comments, key, producers, chain)
  }

  /** The head that the chain shows, if there is one. */
  ghost function HeadIn(chain: seq<Verified>): Option<Existing>
    requires |chain| > 0 ==> |chain[|chain| - 1].entries| > 0
  {
    if |chain| == 0 then None else Some(HeadOf(chain))
  }

  /** The printed form of what the write shows parses back: a manifest always, entries unless marked. */
  predicate ReadsBack(p: Platform, m: Mutation) {
    m.ChunkedWrite? || !p.marked(m.entry)
  }

  lemma NewCommentVerifies(p: Platform, issue: Issue, configuration: Configuration, current: Option<Existing>, report: Report,
                           syncedAt: int, budget: nat, m: Mutation, id: CommentRef, refs: seq<CommentRef>, after: seq<Comment>)
    returns (v: Verified)
    requires PlatformOk(p) && ConfigurationOk(configuration)
    requires Publishes(p, issue.key, current, report, syncedAt, configuration.current, budget, m)
    requires Written(issue.comments, m, configuration.current.actor, id, refs, after)
    requires !(m.SingleWrite? && m.mode.Append?) && ReadsBack(p, m)
    ensures m.entry == OpeningEntry(issue.key, report, syncedAt, configuration.current, current)
    ensures |after| == |issue.comments| + 1 && IsManaged(after[|issue.comments|].body) && after[|issue.comments|].id == id
    ensures VerifiedOf(p, after, issue.key, configuration.producers, after[|issue.comments|]) == Some(v)
    ensures Shows(v, after[|issue.comments|], m.entry)
  {
    var e, x := OpeningEntry(issue.key, report, syncedAt, configuration.current, current), after[|issue.comments|];
    hide OpeningEntry, AppendFits, MatchesOf;
    OpeningEntryIsBound(issue.key, report, syncedAt, configuration.current, current, id);
    if m.SingleWrite? {
      hide VerifiedOf, EntryBound;
      EntriesCommentVerifies(p, after, issue.key, configuration.producers, x, e);
      v := EntriesView(x);
    } else {
      hide VerifiedOf, EntryBound, GroupOf;
      var n: nat, attempt: nat :| GroupOf(p, e, n, attempt) == Some(m.group);
      ChunksStayPublished(issue.comments, m.group, refs, configuration.current.actor, x);
      ManifestCommentVerifies(p, after, issue.key, configuration.producers, x, e, n, attempt, refs);
      v := ManifestView(x, e);
    }
  }

  lemma ChunksStayPublished(comments: seq<Comment>, g: Group, refs: seq<CommentRef>, actor: ActorId, x: Comment)
    requires ChunksPublished(comments, g, refs, actor) && Fresh(comments, x.id)
    ensures ChunksPublished(comments + [x], g, refs, actor)
  {
    hide MatchesOf;
    forall i | 0 <= i < |refs|
      ensures MatchesOf(comments + [x], refs[i]) == MatchesOf(comments, refs[i])
    {
      MatchesAfterAppend(comments, x, refs[i]);
      assert MatchesOf(comments, refs[i])[0] in MatchesOf(comments, refs[i]);
    }
  }

  /**
   * The closure theorem: whatever was planned for a readable Issue, once written by the current
   * producer under a fresh id, leaves a readable Issue whose history is the old one plus exactly
   * the prepared entry. It needs the report to be the lineage's and the write to be read back.
   */
  lemma PlannedWriteMovesHead(p: Platform, issue: Issue, configuration: Configuration, chain: seq<Verified>, report: Report,
                              syncedAt: int, budget: nat, m: Mutation, id: CommentRef, refs: seq<CommentRef>, after: seq<Comment>)
    returns (grown: seq<Verified>)
    requires PlatformOk(p) && ConfigurationOk(configuration)
    requires Readable(p, issue.comments, issue.key, configuration.producers, chain)
    requires |chain| > 0 ==> |chain[|chain| - 1].entries| > 0 && report.id == HeadOf(chain).entry.report.id
    requires Publishes(p, issue.key, HeadIn(chain), report, syncedAt, configuration.current, budget, m) && ReadsBack(p, m)
    requires Written(issue.comments, m, configuration.current.actor, id, refs, after)
    ensures Readable(p, after, issue.key, configuration.producers, grown) && |grown| > 0 && |grown[|grown| - 1].entries| > 0
    ensures AllEntries(grown) == AllEntries(chain) + [m.entry]
    ensures HeadOf(grown).entry == m.entry && m.entry.revision == |AllEntries(chain)|
    ensures HeadOf(grown).comment.id == if m.SingleWrite? && m.mode.Append? && m.target.Some? then m.target.value else id
  {
    hide VerifiedOf, Reads, CanonicalIds, ManagedOf, OpeningEntry, AppendedEntry;
    if m.SingleWrite? && m.mode.Append? {
      grown := AppendIsReadable(p, issue, configuration, chain, report, syncedAt, budget, m, id, refs, after);
    } else {
      var v := NewCommentVerifies(p, issue, configuration, HeadIn(chain), report, syncedAt, budget, m, id, refs, after);
      grown := NewCommentIsReadable(p, issue, configuration, chain, report, syncedAt, m, after, v);
    }
    HeadRevisionOf(p, after, issue.key, configuration.producers, grown);
  }

  lemma HeadRevisionOf(p: Platform, comments: seq<Comment>, key: IssueKey, producers: seq<Producer>, chain: seq<Verified>)
    requires Reads(p, comments, key, producers, chain) && |chain| > 0 && |chain[|chain| - 1].entries| > 0
    ensures HeadOf(chain).entry.revision == |AllEntries(chain)| - 1
  {
    ReadsMakesChain(p, comments, key, producers, chain);
    hide Reads;
    HeadRevision(chain);
  }

  lemma AppendIsReadable(p: Platform, issue: Issue, configuration: Configuration, chain: seq<Verified>, report: Report,
                         syncedAt: int, budget: nat, m: Mutation, id: CommentRef, refs: seq<CommentRef>, after: seq<Comment>)
    returns (grown: seq<Verified>)
    requires ConfigurationOk(configuration) && Readable(p, issue.comments, issue.key, configuration.producers, chain)
    requires |chain| > 0 ==> |chain[|chain| - 1].entries| > 0 && report.id == HeadOf(chain).entry.report.id
    requires Publishes(p, issue.key, HeadIn(chain), report, syncedAt, configuration.current, budget, m) && m.SingleWrite? && m.mode.Append?
    requires ReadsBack(p, m)
    requires Written(issue.comments, m, configuration.current.actor, id, refs, after)
    ensures Readable(p, after, issue.key, configuration.producers, grown) && |grown| > 0 && |grown[|grown| - 1].entries| > 0
    ensures AllEntries(grown) == AllEntries(chain) + [m.entry] && HeadOf(grown).entry == m.entry
    ensures m.target == Some(HeadOf(grown).comment.id)
  {
    hide VerifiedOf, Reads, CanonicalIds, ManagedOf, AppendedEntry, OpeningEntry, AllEntries;
    var head := chain[|chain| - 1];
    var at :| 0 <= at < |issue.comments| && m.target == Some(issue.comments[at].id)
              && after == issue.comments[at := issue.comments[at].(body := m.body)];
    ChainMember(p, issue.comments, issue.key, configuration.producers, chain, head);
    assert issue.comments[at] == head.comment;
    AppendMovesHead(p, issue.comments, issue.key, configuration, chain, report, syncedAt, at, after[at]);
    grown := chain[|chain| - 1 := head.(comment := after[at], entries := head.entries + [m.entry])];
  }

  lemma NewCommentIsReadable(p: Platform, issue: Issue, configuration: Configuration, chain: seq<Verified>, report: Report,
                             syncedAt: int, m: Mutation, after: seq<Comment>, v: Verified)
    returns (grown: seq<Verified>)
    requires Readable(p, issue.comments, issue.key, configuration.producers, chain)
    requires |chain| > 0 ==> |chain[|chain| - 1].entries| > 0 && report.id == HeadOf(chain).entry.report.id
    requires |after| == |issue.comments| + 1 && after == issue.comments + [after[|issue.comments|]]
    requires Fresh(issue.comments, after[|issue.comments|].id) && IsManaged(after[|issue.comments|].body)
    requires VerifiedOf(p, after, issue.key, configuration.producers, after[|issue.comments|]) == Some(v)
    requires m.entry == OpeningEntry(issue.key, report, syncedAt, configuration.current, HeadIn(chain))
    requires Shows(v, after[|issue.comments|], m.entry)
    ensures Readable(p, after, issue.key, configuration.producers, grown) && |grown| > 0 && |grown[|grown| - 1].entries| > 0
    ensures AllEntries(grown) == AllEntries(chain) + [m.entry] && HeadOf(grown).entry == m.entry
    ensures HeadOf(grown).comment == after[|issue.comments|]
  {
    hide VerifiedOf, Reads, CanonicalIds, ManagedOf, OpeningEntry;
    var x := after[|issue.comments|];
    assert DistinctIds(after) by {
      forall i | 0 <= i < |issue.comments|
        ensures after[i].id != x.id
      {
        assert issue.comments[i] in issue.comments;
      }
    }
    if |chain| == 0 {
      OpeningStarts(p, issue.comments, issue.key, configuration.producers, report, syncedAt, configuration.current, x, v);
      grown := [v];
    } else {
      OpeningExtends(p, issue.comments, issue.key, configuration.producers, chain, report, syncedAt, configuration.current, x, v);
      grown := chain + [v];
    }
  }
}
