/** Two writers that prepared their publications against the same reading of an Issue. */
module PublicationConflicts {
  import opened Common
  import opened Workpad
  import opened Chunks
  import opened Lineage
  import opened IssueWorkpad
  import opened IssueChanges
  import opened Publication
  import opened PublicationClosure
  import opened PublicationRuns
  import opened PublicationHistory
  import opened IssueGateway

  /** One publication: who prepared what, and under which id it was written. */
  datatype Writer = Writer(producer: Producer, report: Report, syncedAt: int, budget: nat, m: Mutation, id: CommentRef,
                           refs: seq<CommentRef>)

  predicate Appends(w: Writer) {
    w.m.SingleWrite? && w.m.mode.Append?
  }

  ghost predicate Prepared(p: Platform, key: IssueKey, current: Option<Existing>, producers: seq<Producer>, w: Writer) {
    && w.producer in producers
    && Publishes(p, key, current, w.report, w.syncedAt, w.producer, w.budget, w.m) && IsSound(p, current, w.report, w.m)
  }

  ghost predicate Writes(comments: seq<Comment>, w: Writer, after: seq<Comment>) {
    Written(comments, w.m, w.producer.actor, w.id, w.refs, after)
  }

  // ---------------------------------------------------------------- two entries of one revision

  /** The body shows an entry of this revision to whoever can verify it. */
  predicate ShowsRevision(body: Body, revision: nat) {
    || (body.EntriesBody? && exists e :: e in body.entries && e.revision == revision)
    || (body.ManifestBody? && body.manifest.revision == revision)
  }

  lemma VerifiedShowsRevision(p: Platform, comments: seq<Comment>, key: IssueKey, producers: seq<Producer>, x: Comment, revision: nat)
    returns (e: Entry)
    requires ShowsRevision(x.body, revision) && VerifiedOf(p, comments, key, producers, x).Some?
    ensures e in VerifiedOf(p, comments, key, producers, x).value.entries && e.revision == revision
  {
    hide EntriesAgree, EntryBound, ManifestOk, PartsOf, MatchesOf, ReferencesOk;
    if x.body.EntriesBody? {
      e :| e in x.body.entries && e.revision == revision;
    } else {
      e := VerifiedOf(p, comments, key, producers, x).value.entries[0];
    }
  }

  lemma EntryPosition(chain: seq<Verified>, i: nat, e: Entry) returns (k: nat)
    requires i < |chain| && e in chain[i].entries
    ensures |AllEntries(chain[..i])| <= k < |AllEntries(chain[..i + 1])| <= |AllEntries(chain)|
    ensures AllEntries(chain)[k] == e
  {
    assert chain[..i + 1][..i] == chain[..i];
    AllEntriesPrefix(chain, i + 1);
    var j :| 0 <= j < |chain[i].entries| && chain[i].entries[j] == e;
    k := |AllEntries(chain[..i])| + j;
    assert AllEntries(chain[..i + 1])[k] == e;
  }

  lemma RevisionsDiffer(chain: seq<Verified>, i: nat, j: nat, d: Entry, e: Entry)
    requires Contiguous(AllEntries(chain)) && i < j < |chain| && d in chain[i].entries && e in chain[j].entries
    ensures d.revision < e.revision
  {
    hide AllEntries;
    var k := EntryPosition(chain, i, d);
    var l := EntryPosition(chain, j, e);
    AllEntriesPrefix(chain[..j], i + 1);
    assert chain[..j][..i + 1] == chain[..i + 1];
  }

  /** Two managed comments that show one revision fork the lineage. */
  lemma SameRevisionIsUnreadable(p: Platform, comments: seq<Comment>, key: IssueKey, producers: seq<Producer>, a: Comment, b: Comment,
                                 revision: nat)
    requires a in ManagedOf(comments) && b in ManagedOf(comments) && a != b
    requires ShowsRevision(a.body, revision) && ShowsRevision(b.body, revision)
    ensures Unreadable(p, comments, key, producers)
  {
    hide VerifiedOf, ManagedOf, Reads, ShowsRevision, IsChain;
    forall chain: seq<Verified>
      ensures !Reads(p, comments, key, producers, chain)
    {
      if Reads(p, comments, key, producers, chain) {
        ReadsMakesChain(p, comments, key, producers, chain);
        ManagedIsInChain(p, comments, key, producers, chain, a);
        ManagedIsInChain(p, comments, key, producers, chain, b);
        var d := VerifiedShowsRevision(p, comments, key, producers, a, revision);
        var e := VerifiedShowsRevision(p, comments, key, producers, b, revision);
        MembersShareRevision(chain, VerifiedOf(p, comments, key, producers, a).value, VerifiedOf(p, comments, key, producers, b).value, d, e);
      }
    }
  }

  lemma MembersShareRevision(chain: seq<Verified>, v: Verified, w: Verified, d: Entry, e: Entry)
    requires v in chain && w in chain && v != w && d in v.entries && e in w.entries && d.revision == e.revision
    ensures !IsChain(chain)
  {
    if IsChain(chain) {
      hide AllEntries, Contiguous, Linked;
      var i :| 0 <= i < |chain| && chain[i] == v;
      var j :| 0 <= j < |chain| && chain[j] == w;
      if i < j {
        RevisionsDiffer(chain, i, j, d, e);
      } else {
        RevisionsDiffer(chain, j, i, e, d);
      }
    }
  }

  // ---------------------------------------------------------------- one write

  /** Both writers prepared the same revision under the same entry id. */
  lemma PreparedRevision(p: Platform, key: IssueKey, current: Option<Existing>, producers: seq<Producer>, w: Writer)
    requires Prepared(p, key, current, producers, w)
    ensures w.m.entry.revision == if current.Some? then Revision(current.value) + 1 else 0
    ensures current.Some? ==> w.m.entry.entryId == EntryIdFor(current.value.sessionId, Revision(current.value) + 1)
    ensures Appends(w) ==> current.Some? && w.m.target == Some(current.value.comment.id) && current.value.comment.body.EntriesBody?
    ensures Appends(w) ==> w.m.body == AppendEntry(current.value.comment.body, w.m.entry)
  {
    hide EntryIdFor, InitialSessionId, GroupOf;
  }

  /** What a write leaves behind: one managed comment that shows the prepared revision. */
  lemma WrittenShowsRevision(p: Platform, key: IssueKey, current: Option<Existing>, producers: seq<Producer>, comments: seq<Comment>,
                             w: Writer, after: seq<Comment>) returns (at: nat)
    requires Prepared(p, key, current, producers, w) && Writes(comments, w, after)
    ensures at < |after| && IsManaged(after[at].body) && ShowsRevision(after[at].body, w.m.entry.revision)
    ensures Appends(w) ==> at < |comments| && Some(comments[at].id) == w.m.target && after == comments[at := comments[at].(body := w.m.body)]
    ensures !Appends(w) ==> at == |comments| && after[..at] == comments && Fresh(comments, after[at].id)
  {
    PreparedRevision(p, key, current, producers, w);
    hide GroupOf, ChunksPublished, Fresh, AppendFits, OpeningEntry;
    if Appends(w) {
      at :| 0 <= at < |comments| && w.m.target == Some(comments[at].id) && after == comments[at := comments[at].(body := w.m.body)];
      assert w.m.entry in after[at].body.entries;
    } else {
      at := |comments|;
      if w.m.SingleWrite? {
        assert w.m.entry in after[at].body.entries;
      } else {
        var n: nat, attempt: nat :| GroupOf(p, w.m.entry, n, attempt) == Some(w.m.group);
        GroupMetadata(p, w.m.entry, n, attempt, w.refs);
      }
    }
  }

  lemma SameIdSamePlace(comments: seq<Comment>, i: nat, j: nat)
    requires DistinctIds(comments) && i < |comments| && j < |comments| && comments[i].id == comments[j].id
    ensures i == j
  {
  }

  lemma HeadIsListed(p: Platform, comments: seq<Comment>, key: IssueKey, producers: seq<Producer>, chain: seq<Verified>)
    requires Readable(p, comments, key, producers, chain) && |chain| > 0 && |chain[|chain| - 1].entries| > 0
    ensures HeadOf(chain).comment in comments
  {
    hide Reads, CanonicalIds;
    ChainMember(p, comments, key, producers, chain, chain[|chain| - 1]);
  }

  // ---------------------------------------------------------------- both writes

  /**
   * Two sound publications prepared from one reading and both written. Unless both append to the
   * head comment they fork the lineage, and nobody can read the Issue any more. If both append,
   * the second write silently replaces the first: the Issue stays readable, the first entry is
   * gone, and the read-back of either writer finds the comment, entry id and revision it expects.
   */
  lemma TwoWritersFromOneReading(p: Platform, issue: Issue, producers: seq<Producer>, chain: seq<Verified>, v: Writer, w: Writer,
                                 between: seq<Comment>, after: seq<Comment>) returns (grown: seq<Verified>)
    requires PlatformOk(p) && DistinctProducers(producers)
    requires Readable(p, issue.comments, issue.key, producers, chain) && (|chain| > 0 ==> |chain[|chain| - 1].entries| > 0)
    requires Prepared(p, issue.key, HeadIn(chain), producers, v) && Prepared(p, issue.key, HeadIn(chain), producers, w)
    requires Writes(issue.comments, v, between) && Writes(between, w, after)
    ensures !(Appends(v) && Appends(w)) ==> Unreadable(p, after, issue.key, producers)
    ensures Appends(v) && Appends(w) ==>
              && |chain| > 0 && Readable(p, after, issue.key, producers, grown) && |grown| > 0 && |grown[|grown| - 1].entries| > 0
              && AllEntries(grown) == AllEntries(chain) + [w.m.entry]
              && IsWritten(HeadOf(grown), v.m, v.m.target.value) && IsWritten(HeadOf(grown), w.m, w.m.target.value)
  {
    hide Reads, CanonicalIds, ManagedOf, Publishes, Fresh, ShowsRevision, AllEntries, Unreadable, AppendEntry;
    PreparedRevision(p, issue.key, HeadIn(chain), producers, v);
    PreparedRevision(p, issue.key, HeadIn(chain), producers, w);
    if |chain| > 0 {
      HeadIsListed(p, issue.comments, issue.key, producers, chain);
    }
    var i := WrittenShowsRevision(p, issue.key, HeadIn(chain), producers, issue.comments, v, between);
    var j := WrittenShowsRevision(p, issue.key, HeadIn(chain), producers, between, w, after);
    if Appends(v) && Appends(w) {
      SameIdSamePlace(issue.comments, i, j);
      assert after == issue.comments[i := issue.comments[i].(body := w.m.body)];
      assert Writes(issue.comments, w, after);
      grown := PlannedWriteMovesHead(p, issue, Configuration(w.producer, producers), chain, w.report, w.syncedAt, w.budget, w.m,
                                     w.id, w.refs, after);
    } else {
      grown := [];
      var k := BothShow(issue.comments, HeadIn(chain), v, between, i, w, after, j);
      assert after[k] in after && after[j] in after;
      SameRevisionIsUnreadable(p, after, issue.key, producers, after[k], after[j], v.m.entry.revision);
    }
  }

  /** Where the first writer's comment is after the second write, if not both append. */
  lemma BothShow(comments: seq<Comment>, current: Option<Existing>, v: Writer, between: seq<Comment>, i: nat, w: Writer,
                 after: seq<Comment>, j: nat) returns (k: nat)
    requires !(Appends(v) && Appends(w)) && i < |between| && j < |after| && DistinctIds(comments)
    requires Appends(v) ==> i < |comments| && |between| == |comments| && Some(comments[i].id) == v.m.target
    requires !Appends(v) ==> i == |comments| && between[..i] == comments && |between| == i + 1 && Fresh(comments, between[i].id)
    requires Appends(w) ==> j < |between| && Some(between[j].id) == w.m.target && after == between[j := between[j].(body := w.m.body)]
    requires !Appends(w) ==> j == |between| && after[..j] == between && Fresh(between, after[j].id)
    requires Appends(w) ==> exists c :: c in comments && Some(c.id) == w.m.target
    ensures k < |after| && k != j && after[k] == between[i] && after[k].id != after[j].id
  {
    k := i;
    if Appends(w) {
      var c :| c in comments && Some(c.id) == w.m.target;
      assert between[i].id != c.id;
    } else {
      assert after[k] == after[..j][k] && between[i] in between;
    }
  }
}
