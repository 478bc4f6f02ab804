/** What readers of a workpad may rely on, what a prepared entry says, and what a freshness check excludes. */
module PublicationContent {
  import opened Common
  import opened Decimal
  import opened Workpad
  import opened Chunks
  import opened Lineage
  import opened IssueWorkpad
  import opened Publication
  import opened PublicationClosure
  import opened PublicationRuns
  import opened PublicationHistory
  import opened IssueGateway

  // ---------------------------------------------------------------- readers

  /** Entry `e` of comment `c` is by a registered producer, who wrote the comment, and is bound to this Issue. */
  predicate IsAuthentic(e: Entry, c: Comment, key: IssueKey, producers: seq<Producer>) {
    && e.producer in producers && c.author == Some(e.producer.actor)
    && e.report.context.Some?
    && var context := e.report.context.value;
       && context.issue == key && (context.commentRef.None? || context.commentRef == Some(c.id))
       && context.revision == e.revision && context.entryId == Some(e.entryId) && context.sessionId == Some(e.sessionId)
       && context.producerId == Some(e.producer.id) && context.predecessor == e.predecessor
  }

  /** What verification vouches for in one comment. */
  ghost predicate VouchesFor(v: Verified, key: IssueKey, producers: seq<Producer>) {
    |v.entries| > 0 && forall i :: 0 <= i < |v.entries| ==>
      var e := v.entries[i];
      && IsAuthentic(e, v.comment, key, producers)
      && e.producer == v.producer && e.sessionId == v.sessionId && e.predecessor == v.predecessor
      && e.continuation == v.continuation && e.report.id == v.entries[0].report.id
  }

  lemma VerifiedVouches(p: Platform, comments: seq<Comment>, key: IssueKey, producers: seq<Producer>, c: Comment)
    requires VerifiedOf(p, comments, key, producers, c).Some?
    ensures VouchesFor(VerifiedOf(p, comments, key, producers, c).value, key, producers)
    ensures c.body.EntriesBody? ==> VerifiedOf(p, comments, key, producers, c).value.entries == c.body.entries
  {
    if c.body.ManifestBody? {
      ManifestVouches(p, comments, key, producers, c);
    } else {
      hide ManifestEntry;
    }
  }

  lemma ManifestVouches(p: Platform, comments: seq<Comment>, key: IssueKey, producers: seq<Producer>, c: Comment)
    requires c.body.ManifestBody? && ManifestEntry(p, comments, key, producers, c).Some?
    ensures VouchesFor(ManifestView(c, ManifestEntry(p, comments, key, producers, c).value), key, producers)
  {
    hide ManifestOk, ReferencesOk, PartsOf, ParsePayload, Concat, Resolved;
  }

  /** One session and one report, revisions from zero without a gap, and each comment after the one it names. */
  ghost predicate OneHistory(chain: seq<Verified>) {
    && |chain| > 0 && (forall v :: v in chain ==> |v.entries| > 0)
    && (forall v, w :: v in chain && w in chain ==> v.sessionId == w.sessionId && v.entries[0].report.id == w.entries[0].report.id)
    && (forall k :: 0 <= k < |AllEntries(chain)| ==> AllEntries(chain)[k].revision == k)
    && (forall j, k :: 0 <= j < k < |AllEntries(chain)| ==> AllEntries(chain)[j].entryId != AllEntries(chain)[k].entryId)
    && chain[0].predecessor.None? && chain[0].continuation.None?
    && (forall i :: 0 < i < |chain| ==>
          && chain[i].predecessor == Some(chain[i - 1].comment.id)
          && (chain[i].producer.actor == chain[i - 1].producer.actor ==> chain[i].continuation == Some(Capacity))
          && (chain[i].producer.actor != chain[i - 1].producer.actor ==> chain[i].continuation != Some(Capacity)))
  }

  lemma ChainIsOneHistory(chain: seq<Verified>)
    requires IsChain(chain)
    ensures OneHistory(chain)
  {
    PredecessorAt(chain, 0);
    forall i | 0 < i < |chain|
      ensures chain[i].predecessor == Some(chain[i - 1].comment.id)
      ensures chain[i].producer.actor == chain[i - 1].producer.actor ==> chain[i].continuation == Some(Capacity)
      ensures chain[i].producer.actor != chain[i - 1].producer.actor ==> chain[i].continuation != Some(Capacity)
    {
      PredecessorAt(chain, i);
      assert ContinuationFits(chain[i - 1], chain[i]);
    }
  }

  /**
   * What a reader of an accepted lineage may rely on: every managed comment is in it, written by the
   * registered producer it names and bound to this Issue; all entries are of one session and one
   * report, their revisions count from zero without a gap and no entry id is used twice; each comment
   * names the one before it.
   */
  lemma ReaderMayRelyOn(p: Platform, comments: seq<Comment>, key: IssueKey, producers: seq<Producer>, chain: seq<Verified>)
    requires Reads(p, comments, key, producers, chain)
    ensures OneHistory(chain)
    ensures forall c :: c in ManagedOf(comments) ==> exists v :: v in chain && v.comment == c
    ensures forall v :: v in chain ==> v.comment in comments && VouchesFor(v, key, producers)
  {
    ReadsMakesChain(p, comments, key, producers, chain);
    ChainIsOneHistory(chain);
    hide Reads, VerifiedOf, ManagedOf, VouchesFor, IsChain, OneHistory;
    forall c | c in ManagedOf(comments)
      ensures exists v :: v in chain && v.comment == c
    {
      ManagedIsInChain(p, comments, key, producers, chain, c);
      VerifiedKeepsComment(p, comments, key, producers, c);
    }
    forall v | v in chain
      ensures v.comment in comments && VouchesFor(v, key, producers)
    {
      ChainMember(p, comments, key, producers, chain, v);
      VerifiedVouches(p, comments, key, producers, v.comment);
    }
  }

  // ---------------------------------------------------------------- the prepared entry

  /** The entry of a plan: the next revision of the lineage, by the current producer, with the given report. */
  lemma PlannedEntryIs(p: Platform, key: IssueKey, current: Option<Existing>, report: Report, syncedAt: int, producer: Producer,
                       budget: nat, m: Mutation)
    requires Publishes(p, key, current, report, syncedAt, producer, budget, m)
    ensures var e := m.entry;
            && e.producer == producer && e.entryId == Identifier(e.sessionId.text + "/revision-" + Text(e.revision))
            && (current.None? ==>
                  && e.revision == 0 && e.predecessor.None? && e.continuation.None?
                  && e.sessionId.text == "github-issue/" + key.repository + "/" + Text(key.issueNumber) + "/" + report.id.text)
            && (current.Some? ==> e.revision == current.value.entry.revision + 1 && e.sessionId == current.value.sessionId)
            && (m.SingleWrite? && m.mode.Append? ==>
                  e.predecessor == current.value.predecessor && e.continuation == current.value.continuation)
            && (current.Some? && !(m.SingleWrite? && m.mode.Append?) ==>
                  && e.predecessor == Some(current.value.comment.id)
                  && e.continuation == Some(if current.value.producer.actor == producer.actor then Capacity else ProducerTransition))
            && e.report.id == report.id && e.report.content == report.content && e.report.updatedAt == syncedAt
            && e.report.context == Some(Context(
                 key, if m.SingleWrite? && m.mode.Append? then Some(current.value.comment.id) else None, e.revision,
                 Some(e.sessionId), Some(e.entryId), Some(producer.id), e.predecessor, Some(syncedAt)))
  {
    hide GroupOf;
  }

  // ---------------------------------------------------------------- freshness

  /** A plan that passes the freshness check finds the very head it was prepared from: nothing was published in between. */
  lemma FreshMeansUnchanged(p: Platform, issue: Issue, current: Option<Existing>, report: Report, syncedAt: int, configuration: Configuration,
                            budget: nat, m: Mutation, latest: Issue, ignoreTimestamp: bool, seen: Option<Existing>)
    requires Planned(p, issue, current, report, syncedAt, configuration.current, budget, m)
    requires FreshFor(p, latest, m, configuration, ignoreTimestamp) && IsCurrent(p, latest, configuration.producers, seen)
    ensures current.None? <==> seen.None?
    ensures current.Some? ==> seen.value.comment.id == current.value.comment.id && seen.value.entry.revision == current.value.entry.revision
    ensures !ignoreTimestamp ==> latest.updatedAt == issue.updatedAt
    ensures m.SingleWrite? && m.mode.Append? ==> seen.value.producer.actor == configuration.current.actor
  {
    hide Publishes, ChunkPlan, IsCurrent, ConfigurationOk;
    var found :| IsCurrent(p, latest, configuration.producers, found)
      && ExpectationMet(m, latest.updatedAt, found, configuration.current, ignoreTimestamp);
    OneCurrent(p, latest, configuration.producers, seen, found);
  }
}
