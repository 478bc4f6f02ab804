/** Every planned write leaves a readable Issue whose head is the entry that was prepared. */
module PublicationClosure {
  import opened Common
  import opened Workpad
  import opened Chunks
  import opened ChunkReuse
  import opened Lineage
  import opened IssueWorkpad
  import opened IssueChanges
  import opened Publication

  // ---------------------------------------------------------------- chains that grow

  /** Entry ids are the ones this protocol derives from session and revision. */
  ghost predicate CanonicalIds(chain: seq<Verified>) {
    forall e :: e in AllEntries(chain) ==> e.sessionId == chain[0].sessionId && e.entryId == EntryIdFor(e.sessionId, e.revision)
  }

  ghost predicate Accepted(p: Platform, comments: seq<Comment>, key: IssueKey, producers: seq<Producer>, chain: seq<Verified>) {
    Reads(p, comments, key, producers, chain) && CanonicalIds(chain)
  }

  lemma ReadsMakesChain(p: Platform, comments: seq<Comment>, key: IssueKey, producers: seq<Producer>, chain: seq<Verified>)
    requires Reads(p, comments, key, producers, chain)
    ensures IsChain(chain) && |chain| > 0 && |chain[|chain| - 1].entries| > 0
  {
    hide AllVerified;
    assert chain[|chain| - 1] in chain;
  }

  /** The head carries the last revision. */
  lemma HeadRevision(chain: seq<Verified>)
    requires IsChain(chain)
    ensures |chain| > 0 && |chain[|chain| - 1].entries| > 0
    ensures HeadOf(chain).entry == AllEntries(chain)[|AllEntries(chain)| - 1]
    ensures HeadOf(chain).entry.revision == |AllEntries(chain)| - 1
    ensures HeadOf(chain).entry in AllEntries(chain)
  {
    assert chain[|chain| - 1] in chain;
  }

  lemma ContiguousGrows(es: seq<Entry>, e: Entry, sessionId: Identifier)
    requires Contiguous(es) && e.revision == |es| && e.entryId == EntryIdFor(sessionId, e.revision)
    requires forall x :: x in es ==> x.entryId == EntryIdFor(sessionId, x.revision)
    ensures Contiguous(es + [e])
  {
    hide EntryIdFor;
    var grown := es + [e];
    forall k | 0 <= k < |es|
      ensures grown[k].entryId != e.entryId
    {
      assert es[k] in es;
      if es[k].entryId == e.entryId {
        EntryIdsDiffer(sessionId, es[k].revision, e.revision);
      }
    }
  }

  /** `v` shows one entry, with that entry's metadata. */
  predicate Shows(v: Verified, x: Comment, e: Entry) {
    && v.comment == x && v.entries == [e] && v.sessionId == e.sessionId && v.producer == e.producer
    && v.predecessor == e.predecessor && v.continuation == e.continuation
  }

  ghost predicate Continues(chain: seq<Verified>, v: Verified, e: Entry)
    requires |chain| > 0 && |chain[0].entries| > 0
  {
    && Shows(v, v.comment, e)
    && e.sessionId == chain[0].sessionId && e.report.id == chain[0].entries[0].report.id
    && e.revision == |AllEntries(chain)| && e.entryId == EntryIdFor(e.sessionId, e.revision)
    && e.predecessor == Some(chain[|chain| - 1].comment.id)
    && ContinuationFits(chain[|chain| - 1], v)
  }

  lemma ChainGrows(chain: seq<Verified>, v: Verified, e: Entry)
    requires IsChain(chain) && CanonicalIds(chain) && |chain| > 0 && |chain[0].entries| > 0 && Continues(chain, v, e)
    requires forall c :: c in chain ==> c.comment.id != v.comment.id
    ensures IsChain(chain + [v]) && CanonicalIds(chain + [v])
  {
    hide EntryIdFor, ContinuationFits;
    var grown := chain + [v];
    assert grown[..|chain|] == chain;
    assert AllEntries(grown) == AllEntries(chain) + [e];
    ContiguousGrows(AllEntries(chain), e, e.sessionId);
    assert chain[0] in chain;
    ChainLinksGrow(chain, v);
  }

  lemma ChainLinksGrow(chain: seq<Verified>, v: Verified)
    requires Linked(chain) && DistinctComments(chain) && v.predecessor == Some(chain[|chain| - 1].comment.id)
    requires ContinuationFits(chain[|chain| - 1], v) && forall c :: c in chain ==> c.comment.id != v.comment.id
    ensures Linked(chain + [v]) && DistinctComments(chain + [v])
  {
    var grown := chain + [v];
    forall i | 0 <= i < |grown|
      ensures PredecessorFits(grown, i)
    {
      if i < |chain| {
        PredecessorAt(chain, i);
        assert i > 0 ==> ContinuationFits(chain[i - 1], chain[i]);
      }
    }
    FittingPredecessorsLink(grown);
    assert forall i :: 0 <= i < |chain| ==> chain[i] in chain;
  }

  predicate PredecessorFits(cs: seq<Verified>, i: nat)
    requires i < |cs|
  {
    if i == 0 then cs[0].predecessor.None? && cs[0].continuation.None?
    else cs[i].predecessor == Some(cs[i - 1].comment.id) && ContinuationFits(cs[i - 1], cs[i])
  }

  lemma FittingPredecessorsLink(cs: seq<Verified>)
    requires |cs| > 0 && forall i :: 0 <= i < |cs| ==> PredecessorFits(cs, i)
    ensures Linked(cs)
  {
    forall i | 0 <= i < |cs|
      ensures cs[i].predecessor == if i == 0 then None else Some(cs[i - 1].comment.id)
    {
      assert PredecessorFits(cs, i);
    }
    forall i | 0 < i < |cs|
      ensures ContinuationFits(cs[i - 1], cs[i])
    {
      assert PredecessorFits(cs, i);
    }
    assert PredecessorFits(cs, 0);
  }

  /** The head comment gains one entry and keeps its place. */
  lemma HeadGrows(chain: seq<Verified>, x: Comment, e: Entry)
    requires IsChain(chain) && CanonicalIds(chain) && |chain| > 0
    requires x.id == chain[|chain| - 1].comment.id && e.revision == |AllEntries(chain)|
    requires e.sessionId == chain[0].sessionId && e.entryId == EntryIdFor(e.sessionId, e.revision)
    ensures var head := chain[|chain| - 1];
            var grown := chain[|chain| - 1 := head.(comment := x, entries := head.entries + [e])];
            IsChain(grown) && CanonicalIds(grown)
  {
    hide EntryIdFor, ContinuationFits;
    var n, head := |chain| - 1, chain[|chain| - 1];
    var v := head.(comment := x, entries := head.entries + [e]);
    var grown := chain[n := v];
    assert grown[..n] == chain[..n];
    assert AllEntries(grown) == AllEntries(chain) + [e];
    ContiguousGrows(AllEntries(chain), e, e.sessionId);
    HeadKeepsLinks(chain, v);
  }

  lemma HeadKeepsLinks(chain: seq<Verified>, v: Verified)
    requires NonEmptyEntries(chain) && SameSession(chain) && SameReport(chain) && Linked(chain) && DistinctComments(chain)
    requires var head := chain[|chain| - 1];
             && v == head.(comment := v.comment, entries := v.entries) && v.comment.id == head.comment.id
             && |v.entries| > |head.entries| && v.entries[0] == head.entries[0]
    ensures var grown := chain[|chain| - 1 := v];
            NonEmptyEntries(grown) && SameSession(grown) && SameReport(grown) && Linked(grown) && DistinctComments(grown)
  {
    var n, grown := |chain| - 1, chain[|chain| - 1 := v];
    assert chain[n] in chain;
    SameShapeKeepsLinks(chain, grown);
    assert forall c :: c in grown ==> c == v || c in chain;
  }

  /** Links depend only on comment ids, predecessors, producers and continuations. */
  lemma SameShapeKeepsLinks(a: seq<Verified>, b: seq<Verified>)
    requires Linked(a) && DistinctComments(a) && |a| == |b|
    requires forall i :: 0 <= i < |a| ==>
               && b[i].comment.id == a[i].comment.id && b[i].predecessor == a[i].predecessor
               && b[i].producer == a[i].producer && b[i].continuation == a[i].continuation
    ensures Linked(b) && DistinctComments(b)
  {
    forall i | 0 <= i < |b|
      ensures b[i].predecessor == (if i == 0 then None else Some(b[i - 1].comment.id))
      ensures i > 0 ==> ContinuationFits(b[i - 1], b[i])
    {
      PredecessorAt(a, i);
      assert i > 0 ==> ContinuationFits(a[i - 1], a[i]);
    }
  }

  // ---------------------------------------------------------------- opening a comment

  lemma OpeningEntryIsBound(key: IssueKey, report: Report, syncedAt: int, producer: Producer, current: Option<Existing>, id: CommentRef)
    ensures EntryBound(OpeningEntry(key, report, syncedAt, producer, current), key, id)
    ensures OpeningEntry(key, report, syncedAt, producer, current).producer == producer
  {
    hide EntryIdFor, InitialSessionId;
  }

  /** A new comment with one entry, by the registered producer the entry names, verifies. */
  lemma EntriesCommentVerifies(p: Platform, comments: seq<Comment>, key: IssueKey, producers: seq<Producer>, x: Comment, e: Entry)
    requires x.body == EntriesBody([e], Rendered) && EntryBound(e, key, x.id) && AuthoredBy(x, producers, e.producer)
    requires !p.marked(e)
    ensures VerifiedOf(p, comments, key, producers, x) == Some(EntriesView(x)) && Shows(EntriesView(x), x, e)
  {
    hide EntryBound;
    assert EntriesAgree([e], key, x.id);
  }

  /** The chunks of the group are published, once each, by the manifest's producer. */
  ghost predicate ChunksPublished(comments: seq<Comment>, g: Group, refs: seq<CommentRef>, actor: ActorId) {
    && |refs| == |g.chunks| && NoDuplicates(refs)
    && forall i :: 0 <= i < |refs| ==>
         && |MatchesOf(comments, refs[i])| == 1
         && MatchesOf(comments, refs[i])[0].body == ChunkBody(g.chunks[i], Rendered)
         && MatchesOf(comments, refs[i])[0].author == Some(actor)
  }

  lemma ManifestResolves(p: Platform, comments: seq<Comment>, g: Group, refs: seq<CommentRef>, actor: ActorId, x: Comment)
    requires ChunksPublished(comments, g, refs, actor) && !x.body.ChunkBody? && g.entry.producer.actor == actor
    ensures var m := ManifestFor(g, refs);
            && ReferencesOk(comments, x, m) && ReferencedBy(m) == Elements(refs)
            && HoldsGroup(Resolved(comments, m), g, refs)
  {
    hide MatchesOf;
    var m := ManifestFor(g, refs);
    assert forall i :: 0 <= i < |refs| ==> m.chunks[i].commentRef == refs[i];
    assert ReferencedBy(m) == Elements(refs) by {
      forall r | r in refs
        ensures r in ReferencedBy(m)
      {
        var i :| 0 <= i < |refs| && refs[i] == r;
        assert m.chunks[i] in m.chunks;
      }
    }
  }

  lemma ManifestCommentVerifies(p: Platform, comments: seq<Comment>, key: IssueKey, producers: seq<Producer>, x: Comment, e: Entry,
                                n: nat, attempt: nat, refs: seq<CommentRef>)
    requires PlatformOk(p) && GroupOf(p, e, n, attempt).Some?
    requires ChunksPublished(comments, GroupOf(p, e, n, attempt).value, refs, e.producer.actor)
    requires |refs| == |GroupOf(p, e, n, attempt).value.chunks|
    requires x.body == ManifestBody(ManifestFor(GroupOf(p, e, n, attempt).value, refs), Rendered)
    requires EntryBound(e, key, x.id) && AuthoredBy(x, producers, e.producer)
    ensures VerifiedOf(p, comments, key, producers, x) == Some(ManifestView(x, e)) && Shows(ManifestView(x, e), x, e)
  {
    var g, m := GroupOf(p, e, n, attempt).value, x.body.manifest;
    BoundEntryMatches(e, key, x.id);
    GroupMetadata(p, e, n, attempt, refs);
    hide MatchesOf, Reconstructed, GroupOf, EntryBound, ManifestOk, ChunksPublished, HoldsGroup, ContextMatches, ReferencesOk, ManifestFor;
    ManifestResolves(p, comments, g, refs, e.producer.actor, x);
    PublishedIsDistinct(comments, g, refs, e.producer.actor);
    assert ReferencesOk(comments, x, m);
    ReferencesResolve(comments, x, m);
    RoundTrip(p, e, n, attempt, refs, Resolved(comments, m));
    assert ManifestEntry(p, comments, key, producers, x) == Some(e);
  }

  lemma BoundEntryMatches(e: Entry, key: IssueKey, id: CommentRef)
    requires EntryBound(e, key, id)
    ensures ContextMatches(e)
  {
  }

  lemma ReferencesResolve(comments: seq<Comment>, x: Comment, m: Manifest)
    requires ReferencesOk(comments, x, m)
    ensures forall i :: 0 <= i < |m.chunks| ==> |MatchesOf(comments, m.chunks[i].commentRef)| == 1
  {
  }

  lemma GroupMetadata(p: Platform, e: Entry, n: nat, attempt: nat, refs: seq<CommentRef>)
    requires GroupOf(p, e, n, attempt).Some? && |refs| == |GroupOf(p, e, n, attempt).value.chunks|
    ensures GroupOf(p, e, n, attempt).value.entry == e
    ensures MetadataMatches(ManifestFor(GroupOf(p, e, n, attempt).value, refs), e)
  {
  }

  lemma PublishedIsDistinct(comments: seq<Comment>, g: Group, refs: seq<CommentRef>, actor: ActorId)
    requires ChunksPublished(comments, g, refs, actor)
    ensures NoDuplicates(refs) && |refs| == |g.chunks|
  {
  }

  /** A verified comment that shows the opening entry becomes the head. */
  lemma OpeningExtends(p: Platform, comments: seq<Comment>, key: IssueKey, producers: seq<Producer>, chain: seq<Verified>,
                       report: Report, syncedAt: int, producer: Producer, x: Comment, v: Verified)
    requires Accepted(p, comments, key, producers, chain) && Fresh(comments, x.id) && IsManaged(x.body)
    requires |chain| > 0 && |chain[|chain| - 1].entries| > 0 && report.id == HeadOf(chain).entry.report.id
    requires VerifiedOf(p, comments + [x], key, producers, x) == Some(v)
    requires Shows(v, x, OpeningEntry(key, report, syncedAt, producer, Some(HeadOf(chain))))
    ensures Accepted(p, comments + [x], key, producers, chain + [v])
    ensures AllEntries(chain + [v]) == AllEntries(chain) + v.entries
    ensures var e := OpeningEntry(key, report, syncedAt, producer, Some(HeadOf(chain)));
            && HeadOf(chain + [v]).entry == e && HeadOf(chain + [v]).comment == x
            && e.revision == HeadOf(chain).entry.revision + 1
  {
    var e := OpeningEntry(key, report, syncedAt, producer, Some(HeadOf(chain)));
    ReadsMakesChain(p, comments, key, producers, chain);
    OpeningContinues(p, comments, key, producers, chain, report, syncedAt, producer, v);
    forall c | c in chain
      ensures c.comment.id != x.id
    {
      ChainMember(p, comments, key, producers, chain, c);
    }
    hide VerifiedOf, IsChain, CanonicalIds, Reads, Fresh, Continues;
    ChainGrows(chain, v, e);
    ManagedExtends(p, comments, key, producers, x, v, chain);
    assert (chain + [v])[..|chain|] == chain;
  }

  lemma OpeningContinues(p: Platform, comments: seq<Comment>, key: IssueKey, producers: seq<Producer>, chain: seq<Verified>,
                         report: Report, syncedAt: int, producer: Producer, v: Verified)
    requires Reads(p, comments, key, producers, chain) && IsChain(chain) && CanonicalIds(chain)
    requires |chain| > 0 && |chain[0].entries| > 0 && |chain[|chain| - 1].entries| > 0
    requires report.id == HeadOf(chain).entry.report.id
    requires Shows(v, v.comment, OpeningEntry(key, report, syncedAt, producer, Some(HeadOf(chain))))
    ensures Continues(chain, v, OpeningEntry(key, report, syncedAt, producer, Some(HeadOf(chain))))
  {
    var head := chain[|chain| - 1];
    HeadRevision(chain);
    ChainMember(p, comments, key, producers, chain, head);
    OneReportPerComment(p, comments, key, producers, head);
    hide VerifiedOf, Reads, EntryIdFor;
    assert head in chain && chain[0] in chain;
  }

  lemma OneReportPerComment(p: Platform, comments: seq<Comment>, key: IssueKey, producers: seq<Producer>, v: Verified)
    requires VerifiedOf(p, comments, key, producers, v.comment) == Some(v)
    ensures v.entries[|v.entries| - 1].report.id == v.entries[0].report.id
    ensures v.entries[|v.entries| - 1].sessionId == v.entries[0].sessionId
  {
    hide ManifestEntry, EntryBound;
  }

  /** The first comment of an Issue becomes its whole lineage. */
  lemma OpeningStarts(p: Platform, comments: seq<Comment>, key: IssueKey, producers: seq<Producer>, report: Report, syncedAt: int,
                      producer: Producer, x: Comment, v: Verified)
    requires |ManagedOf(comments)| == 0 && IsManaged(x.body)
    requires VerifiedOf(p, comments + [x], key, producers, x) == Some(v)
    requires Shows(v, x, OpeningEntry(key, report, syncedAt, producer, None))
    ensures Accepted(p, comments + [x], key, producers, [v]) && AllEntries([v]) == v.entries
    ensures HeadOf([v]).entry == OpeningEntry(key, report, syncedAt, producer, None) && HeadOf([v]).entry.revision == 0
  {
    hide VerifiedOf, ManagedOf, InitialSessionId;
    var e := OpeningEntry(key, report, syncedAt, producer, None);
    assert [v][..0] == [];
    assert AllEntries([v]) == [e];
    assert IsChain([v]);
    ManagedOpens(p, comments, key, producers, x, v);
  }
}
