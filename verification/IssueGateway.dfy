/**
 * The publication flow against one GitHub Issue. The provider may fail at any write; every
 * prefix of a chunked publication is invisible to readers, and only the last write shows.
 */
module IssueGateway {
  import opened Common
  import opened Workpad
  import opened Chunks
  import opened ChunkReuse
  import opened Lineage
  import opened IssueWorkpad
  import opened IssueChanges
  import opened Publication
  import opened PublicationClosure
  import opened PublicationRuns
  import opened PublicationBudget
  import opened PublicationHistory

  /** One Issue at the provider: it assigns ids nobody has used and stops after `writesLeft` writes. */
  class GithubIssue {
    const key: IssueKey
    var updatedAt: int
    var comments: seq<Comment>
    var upcoming: seq<CommentRef>
    var writesLeft: nat

    ghost predicate Valid()
      reads this
    {
      && DistinctIds(comments) && |upcoming| >= writesLeft && NoDuplicates(upcoming)
      && forall i :: 0 <= i < |upcoming| ==> Fresh(comments, upcoming[i])
    }

    function Snapshot(): Issue
      reads this
    {
      Issue(key, updatedAt, comments)
    }

    constructor (key: IssueKey, upcoming: seq<CommentRef>, writesLeft: nat)
      requires NoDuplicates(upcoming) && |upcoming| >= writesLeft
      ensures Valid() && comments == [] && this.key == key && this.upcoming == upcoming && this.writesLeft == writesLeft
    {
      this.key, updatedAt, comments, this.upcoming, this.writesLeft := key, 0, [], upcoming, writesLeft;
    }

    method CreateIssueComment(body: Body, author: ActorId) returns (r: Option<CommentRef>)
      requires Valid()
      requires body.ManifestBody? ==> forall i :: 0 <= i < |upcoming| ==> upcoming[i] !in ReferencedBy(body.manifest)
      modifies this
      ensures Valid()
      ensures r.Some? <==> old(writesLeft) > 0
      ensures r.Some? ==> Fresh(old(comments), r.value) && comments == old(comments) + [Comment(r.value, body, Some(author))]
      ensures r.None? ==> comments == old(comments) && upcoming == old(upcoming)
      ensures writesLeft == if r.Some? then old(writesLeft) - 1 else 0
      ensures r.Some? ==> upcoming == old(upcoming)[1..]
      ensures updatedAt == old(updatedAt) + if r.Some? then 1 else 0
    {
      if writesLeft == 0 {
        return None;
      }
      var id := upcoming[0];
      var x := Comment(id, body, Some(author));
      assert upcoming[0] == id;
      StaysFresh(comments, upcoming, x);
      StaysDistinct(comments, x);
      comments, upcoming := comments + [x], upcoming[1..];
      updatedAt, writesLeft := updatedAt + 1, writesLeft - 1;
      r := Some(id);
    }

    method UpdateWorkpadComment(target: CommentRef, body: Body) returns (ok: bool)
      requires Valid() && !body.ManifestBody? && exists at :: 0 <= at < |comments| && comments[at].id == target
      modifies this
      ensures Valid()
      ensures ok <==> old(writesLeft) > 0
      ensures !ok ==> comments == old(comments)
      ensures upcoming == old(upcoming) && writesLeft == old(writesLeft) - (if ok then 1 else 0)
      ensures updatedAt == old(updatedAt) + if ok then 1 else 0
      ensures ok ==> exists at :: 0 <= at < |old(comments)| && old(comments)[at].id == target
                                  && comments == old(comments)[at := old(comments)[at].(body := body)]
    {
      if writesLeft == 0 {
        return false;
      }
      var at := 0;
      while comments[at].id != target
        invariant 0 <= at < |comments|
        invariant forall k :: 0 <= k < at ==> comments[k].id != target
        decreases |comments| - at
      {
        at := at + 1;
      }
      RewrittenStaysFresh(comments, upcoming, at, body);
      comments := comments[at := comments[at].(body := body)];
      updatedAt, writesLeft := updatedAt + 1, writesLeft - 1;
      ok := true;
    }
  }

  lemma StaysFresh(comments: seq<Comment>, upcoming: seq<CommentRef>, x: Comment)
    requires |upcoming| > 0 && NoDuplicates(upcoming) && x.id == upcoming[0]
    requires forall i :: 0 <= i < |upcoming| ==> Fresh(comments, upcoming[i])
    requires x.body.ManifestBody? ==> forall i :: 0 <= i < |upcoming| ==> upcoming[i] !in ReferencedBy(x.body.manifest)
    ensures forall i :: 0 <= i < |upcoming| - 1 ==> Fresh(comments + [x], upcoming[1..][i])
  {
    forall i | 0 <= i < |upcoming| - 1
      ensures Fresh(comments + [x], upcoming[1..][i])
    {
      assert upcoming[1..][i] == upcoming[i + 1];
    }
  }

  lemma StaysDistinct(comments: seq<Comment>, x: Comment)
    requires DistinctIds(comments) && Fresh(comments, x.id)
    ensures DistinctIds(comments + [x])
  {
    assert forall i :: 0 <= i < |comments| ==> comments[i] in comments;
  }

  lemma RewrittenStaysFresh(comments: seq<Comment>, upcoming: seq<CommentRef>, at: nat, body: Body)
    requires at < |comments| && DistinctIds(comments) && !body.ManifestBody?
    requires forall i :: 0 <= i < |upcoming| ==> Fresh(comments, upcoming[i])
    ensures var after := comments[at := comments[at].(body := body)];
            DistinctIds(after) && forall i :: 0 <= i < |upcoming| ==> Fresh(after, upcoming[i])
  {
    var x := comments[at].(body := body);
    var after := comments[at := x];
    assert forall i :: 0 <= i < |comments| ==> after[i].id == comments[i].id;
    forall i | 0 <= i < |upcoming|
      ensures Fresh(after, upcoming[i])
    {
      assert comments[at] in comments;
      forall c | c in after
        ensures c == x || c in comments
      {
      }
    }
  }

  // ---------------------------------------------------------------- freshness before a write

  /** The optimistic-concurrency conditions of `assertFreshWorkpadMutation` on the current head. */
  predicate ExpectationMet(m: Mutation, updatedAt: int, current: Option<Existing>, producer: Producer, ignoreTimestamp: bool) {
    && (ignoreTimestamp || updatedAt == m.expected.updatedAt)
    && (if current.Some? then Some(Revision(current.value)) else None) == m.expected.revision
    && (m.expected.head.Some? ==> current.Some? && Some(current.value.comment.id) == m.expected.head)
    && match m
       case SingleWrite(Create, _, _, _, _) => current.None?
       case SingleWrite(Append, _, _, _, _) => current.Some? && SameProducer(current.value, producer)
       case SingleWrite(Continue, _, e, _, _) => current.Some? && Some(current.value.comment.id) == e.predecessor
       case ChunkedWrite(_, _, _, _, _) =>
         if m.expected.revision.None? then current.None?
         else current.Some? && Some(current.value.comment.id) == m.expected.head
  }

  /** Readers of the Issue see a head that the mutation expects. */
  ghost predicate FreshFor(p: Platform, issue: Issue, m: Mutation, configuration: Configuration, ignoreTimestamp: bool) {
    && ConfigurationOk(configuration)
    && exists current :: IsCurrent(p, issue, configuration.producers, current)
                         && ExpectationMet(m, issue.updatedAt, current, configuration.current, ignoreTimestamp)
  }

  lemma OneCurrent(p: Platform, issue: Issue, producers: seq<Producer>, a: Option<Existing>, b: Option<Existing>)
    requires IsCurrent(p, issue, producers, a) && IsCurrent(p, issue, producers, b)
    ensures a == b
  {
    hide Reads, ManagedOf;
    if a.Some? {
      var chain: seq<Verified> :| Reads(p, issue.comments, issue.key, producers, chain)
        && |chain| > 0 && |chain[|chain| - 1].entries| > 0 && HeadOf(chain) == a.value;
      ReadsNeedsManaged(p, issue.comments, issue.key, producers, chain);
      var other: seq<Verified> :| Reads(p, issue.comments, issue.key, producers, other)
        && |other| > 0 && |other[|other| - 1].entries| > 0 && HeadOf(other) == b.value;
      ReadsOneChain(p, issue.comments, issue.key, producers, chain, other);
    } else if b.Some? {
      var other: seq<Verified> :| Reads(p, issue.comments, issue.key, producers, other)
        && |other| > 0 && |other[|other| - 1].entries| > 0 && HeadOf(other) == b.value;
      ReadsNeedsManaged(p, issue.comments, issue.key, producers, other);
    }
  }

  method AssertFreshWorkpadMutation(p: Platform, issue: Issue, m: Mutation, configuration: Configuration, ignoreTimestamp: bool)
    returns (ok: bool)
    ensures ok <==> FreshFor(p, issue, m, configuration, ignoreTimestamp)
  {
    hide IsHead, ConfigurationOk, ExpectationMet;
    var found := FindExistingWorkpad(p, issue, configuration);
    if found.Failure? {
      UnreadableHasNoHead(p, issue, configuration);
      return false;
    }
    var current := found.value;
    assert IsCurrent(p, issue, configuration.producers, current);
    forall other | IsCurrent(p, issue, configuration.producers, other)
      ensures other == current
    {
      OneCurrent(p, issue, configuration.producers, current, other);
    }
    ok := ExpectationMet(m, issue.updatedAt, current, configuration.current, ignoreTimestamp);
  }

  /** A plan is fresh for the reading it was made from. */
  lemma PlanIsFresh(p: Platform, issue: Issue, current: Option<Existing>, report: Report, syncedAt: int, configuration: Configuration,
                    budget: nat, m: Mutation)
    requires ConfigurationOk(configuration) && IsCurrent(p, issue, configuration.producers, current)
    requires Planned(p, issue, current, report, syncedAt, configuration.current, budget, m)
    ensures FreshFor(p, issue, m, configuration, false) && FreshFor(p, issue, m, configuration, true)
  {
    hide GroupOf, EntryIdFor, InitialSessionId, ChunkPlan, IsCurrent, ConfigurationOk;
    assert ExpectationMet(m, issue.updatedAt, current, configuration.current, false);
    assert ExpectationMet(m, issue.updatedAt, current, configuration.current, true);
  }

  // ---------------------------------------------------------------- writing chunks

  /** The indices whose chunk has no comment yet, in order. */
  function Missing(refs: seq<Option<CommentRef>>): (r: seq<nat>)
    ensures forall k :: 0 <= k < |r| ==> r[k] < |refs|
  {
    if |refs| == 0 then []
    else if refs[|refs| - 1].Some? then Missing(refs[..|refs| - 1])
    else Missing(refs[..|refs| - 1]) + [|refs| - 1]
  }

  /** `written` are the comments for the first missing chunks, by the given author. */
  ghost predicate ChunksWritten(g: Group, refs: seq<Option<CommentRef>>, actor: ActorId, written: seq<Comment>) {
    && |written| <= |Missing(refs)|
    && forall k :: 0 <= k < |written| ==>
         && Missing(refs)[k] < |g.chunks|
         && written[k].body == ChunkBody(g.chunks[Missing(refs)[k]], Rendered) && written[k].author == Some(actor)
  }

  /** Comments added one after the other, each under an id fresh at that moment. */
  ghost predicate AddedFresh(comments: seq<Comment>, written: seq<Comment>) {
    forall k :: 0 <= k < |written| ==> Fresh(comments + written[..k], written[k].id)
  }

  lemma OneMoreFresh(comments: seq<Comment>, written: seq<Comment>, x: Comment)
    requires AddedFresh(comments, written) && Fresh(comments + written, x.id)
    ensures AddedFresh(comments, written + [x])
  {
    hide Fresh;
    var more := written + [x];
    forall k | 0 <= k < |more|
      ensures Fresh(comments + more[..k], more[k].id)
    {
      assert more[..k] == written[..k];
      assert k == |written| ==> written[..k] == written;
    }
  }

  /** Every prefix of a chunked publication reads exactly as the Issue did before it. */
  lemma {:induction false} ChunksAreInvisible(p: Platform, comments: seq<Comment>, key: IssueKey, producers: seq<Producer>,
                                              written: seq<Comment>, chain: seq<Verified>)
    requires AddedFresh(comments, written) && forall k :: 0 <= k < |written| ==> !IsManaged(written[k].body)
    ensures Reads(p, comments + written, key, producers, chain) <==> Reads(p, comments, key, producers, chain)
    ensures ManagedOf(comments + written) == ManagedOf(comments)
  {
    hide Fresh, Reads, ManagedOf;
    if |written| == 0 {
      assert comments + written == comments;
    } else {
      var n := |written| - 1;
      assert forall k :: 0 <= k < n ==> written[..n][..k] == written[..k];
      ChunksAreInvisible(p, comments, key, producers, written[..n], chain);
      assert comments + written == comments + written[..n] + [written[n]];
      assert Fresh(comments + written[..n], written[n].id);
      UnmanagedIsInvisible(p, comments + written[..n], key, producers, written[n], chain);
      ManagedAfterAppend(comments + written[..n], written[n]);
    }
  }

  /** Each of the references names exactly one comment, which holds its chunk. */
  ghost predicate RefsHoldChunks(comments: seq<Comment>, g: Group, refs: seq<CommentRef>, actor: ActorId) {
    && |refs| <= |g.chunks|
    && forall i :: 0 <= i < |refs| ==>
         && |MatchesOf(comments, refs[i])| == 1
         && MatchesOf(comments, refs[i])[0].body == ChunkBody(g.chunks[i], Rendered)
         && MatchesOf(comments, refs[i])[0].author == Some(actor)
  }

  lemma RefsStillHoldChunks(comments: seq<Comment>, g: Group, refs: seq<CommentRef>, actor: ActorId, x: Comment)
    requires RefsHoldChunks(comments, g, refs, actor) && Fresh(comments, x.id)
    ensures RefsHoldChunks(comments + [x], g, refs, actor)
  {
    hide MatchesOf;
    forall i | 0 <= i < |refs|
      ensures MatchesOf(comments + [x], refs[i]) == MatchesOf(comments, refs[i])
    {
      MatchesAfterAppend(comments, x, refs[i]);
      assert MatchesOf(comments, refs[i])[0] in MatchesOf(comments, refs[i]);
    }
  }

  lemma NewCommentIsFound(comments: seq<Comment>, x: Comment)
    requires Fresh(comments, x.id)
    ensures MatchesOf(comments + [x], x.id) == [x]
  {
    MatchesAfterAppend(comments, x, x.id);
    UnusedIdHasNoMatches(comments, x.id);
  }

  lemma {:induction false} UnusedIdHasNoMatches(comments: seq<Comment>, id: CommentRef)
    requires forall c :: c in comments ==> c.id != id
    ensures MatchesOf(comments, id) == []
  {
    if |comments| > 0 {
      UnusedIdHasNoMatches(comments[..|comments| - 1], id);
    }
  }

  /** Chunks carry different indices, so the references that hold them differ. */
  lemma HeldRefsAreDistinct(comments: seq<Comment>, g: Group, refs: seq<CommentRef>, actor: ActorId)
    requires RefsHoldChunks(comments, g, refs, actor) && |refs| == |g.chunks|
    requires forall k :: 0 <= k < |g.chunks| ==> g.chunks[k].index == k
    ensures ChunksPublished(comments, g, refs, actor)
  {
    hide MatchesOf;
    forall i, j | 0 <= i < j < |refs|
      ensures refs[i] != refs[j]
    {
      assert g.chunks[i] != g.chunks[j];
    }
  }

  /** Every reference the plan wants to reuse still names exactly one comment, which holds its chunk. */
  ghost predicate RefsInPlace(comments: seq<Comment>, g: Group, refs: seq<Option<CommentRef>>, actor: ActorId) {
    && |refs| == |g.chunks|
    && forall i :: 0 <= i < |refs| && refs[i].Some? ==>
         && |MatchesOf(comments, refs[i].value)| == 1
         && MatchesOf(comments, refs[i].value)[0].body == ChunkBody(g.chunks[i], Rendered)
         && MatchesOf(comments, refs[i].value)[0].author == Some(actor)
  }

  /** Nothing but the provider can stop the chunk loop. */
  ghost predicate ReadyForChunks(p: Platform, issue: Issue, m: Mutation, configuration: Configuration)
    requires m.ChunkedWrite?
  {
    FreshFor(p, issue, m, configuration, true) && RefsInPlace(issue.comments, m.group, m.refs, configuration.current.actor)
  }

  lemma FreshAfterChunk(p: Platform, issue: Issue, after: Issue, m: Mutation, configuration: Configuration, x: Comment)
    requires FreshFor(p, issue, m, configuration, true) && Fresh(issue.comments, x.id) && x.body.ChunkBody?
    requires after.key == issue.key && after.comments == issue.comments + [x]
    ensures FreshFor(p, after, m, configuration, true)
  {
    hide ConfigurationOk, Fresh, Reads, ManagedOf;
    var current :| IsCurrent(p, issue, configuration.producers, current)
      && ExpectationMet(m, issue.updatedAt, current, configuration.current, true);
    ManagedAfterAppend(issue.comments, x);
    if current.Some? {
      var chain: seq<Verified> :| Reads(p, issue.comments, issue.key, configuration.producers, chain)
        && |chain| > 0 && |chain[|chain| - 1].entries| > 0 && HeadOf(chain) == current.value;
      UnmanagedIsInvisible(p, issue.comments, issue.key, configuration.producers, x, chain);
    }
    assert IsCurrent(p, after, configuration.producers, current);
    assert ExpectationMet(m, after.updatedAt, current, configuration.current, true);
  }

  lemma RefsStayInPlace(comments: seq<Comment>, g: Group, refs: seq<Option<CommentRef>>, actor: ActorId, x: Comment)
    requires RefsInPlace(comments, g, refs, actor) && Fresh(comments, x.id)
    ensures RefsInPlace(comments + [x], g, refs, actor)
  {
    hide MatchesOf;
    forall i | 0 <= i < |refs| && refs[i].Some?
      ensures MatchesOf(comments + [x], refs[i].value) == MatchesOf(comments, refs[i].value)
    {
      MatchesAfterAppend(comments, x, refs[i].value);
      assert MatchesOf(comments, refs[i].value)[0] in MatchesOf(comments, refs[i].value);
    }
  }

  lemma ReadyAfterChunk(p: Platform, issue: Issue, after: Issue, m: Mutation, configuration: Configuration, x: Comment)
    requires m.ChunkedWrite? && Fresh(issue.comments, x.id) && x.body.ChunkBody?
    requires after.key == issue.key && after.comments == issue.comments + [x]
    ensures ReadyForChunks(p, issue, m, configuration) ==> ReadyForChunks(p, after, m, configuration)
  {
    hide FreshFor, RefsInPlace, Fresh;
    if ReadyForChunks(p, issue, m, configuration) {
      FreshAfterChunk(p, issue, after, m, configuration, x);
      RefsStayInPlace(issue.comments, m.group, m.refs, configuration.current.actor, x);
    }
  }

  lemma ReadyMeans(p: Platform, issue: Issue, m: Mutation, configuration: Configuration, i: nat)
    requires m.ChunkedWrite? && ReadyForChunks(p, issue, m, configuration)
    ensures FreshFor(p, issue, m, configuration, true)
    ensures i < |m.refs| == |m.group.chunks| && m.refs[i].Some? ==>
              && |MatchesOf(issue.comments, m.refs[i].value)| == 1
              && MatchesOf(issue.comments, m.refs[i].value)[0].body == ChunkBody(m.group.chunks[i], Rendered)
              && MatchesOf(issue.comments, m.refs[i].value)[0].author == Some(configuration.current.actor)
  {
    hide FreshFor, MatchesOf;
  }

  lemma {:induction false} OneMatch(comments: seq<Comment>, c: Comment)
    requires DistinctIds(comments) && c in comments
    ensures MatchesOf(comments, c.id) == [c]
  {
    var init, last := comments[..|comments| - 1], comments[|comments| - 1];
    if c == last {
      UnusedIdHasNoMatches(init, c.id);
    } else {
      OneMatch(init, c);
    }
  }

  lemma {:induction false} ProvisionalIsListed(comments: seq<Comment>, k: nat)
    requires k < |ProvisionalOf(comments)|
    ensures ProvisionalOf(comments)[k] in comments
  {
    if k < |ProvisionalOf(comments[..|comments| - 1])| {
      ProvisionalIsListed(comments[..|comments| - 1], k);
    }
  }

  /** What the selection reuses is in place. */
  lemma SelectedInPlace(p: Platform, comments: seq<Comment>, e: Entry, n: nat, actor: ActorId, attempt: nat,
                        refs: seq<Option<CommentRef>>, g: Group)
    requires DistinctIds(comments) && GroupOf(p, e, n, attempt) == Some(g)
    requires Selected(p, e, n, actor, ProvisionalOf(comments), attempt, refs)
    ensures RefsInPlace(comments, g, refs, actor)
  {
    hide GroupOf, MatchesOf, ProvisionalOf, DistinctIds, IsCandidate;
    forall i | 0 <= i < |refs| && refs[i].Some?
      ensures exists c: Comment :: c.body == ChunkBody(g.chunks[i], Rendered) && c.author == Some(actor)
                                   && MatchesOf(comments, refs[i].value) == [c]
    {
      var k := ReusedRefsAreExact(p, g, actor, ProvisionalOf(comments), refs, i);
      ProvisionalIsListed(comments, k);
      OneMatch(comments, ProvisionalOf(comments)[k]);
    }
  }

  /** A fresh plan of this Issue is ready. */
  lemma PlanIsReady(p: Platform, issue: Issue, current: Option<Existing>, report: Report, syncedAt: int, configuration: Configuration,
                    budget: nat, m: Mutation)
    requires ConfigurationOk(configuration) && IsCurrent(p, issue, configuration.producers, current) && DistinctIds(issue.comments)
    requires Planned(p, issue, current, report, syncedAt, configuration.current, budget, m) && m.ChunkedWrite?
    ensures ReadyForChunks(p, issue, m, configuration)
  {
    hide ConfigurationOk, IsCurrent, FreshFor, Publishes, Fits, GroupOf, Selected, RefsInPlace, DistinctIds;
    PlanIsFresh(p, issue, current, report, syncedAt, configuration, budget, m);
    var n: nat, attempt: nat :| Fits(p, m.entry, n, budget)
      && Selected(p, m.entry, n, configuration.current.actor, ProvisionalOf(issue.comments), attempt, m.refs)
      && GroupOf(p, m.entry, n, attempt) == Some(m.group);
    SelectedInPlace(p, issue.comments, m.entry, n, configuration.current.actor, attempt, m.refs, m.group);
  }

  /**
   * The chunk loop of `writeWorkpad`. However far it gets, it has only added the missing chunks
   * in order; when it completes, every reference holds its chunk.
   */
  method WriteChunks(p: Platform, provider: GithubIssue, m: Mutation, configuration: Configuration)
    returns (r: Option<seq<CommentRef>>, ghost written: seq<Comment>)
    requires provider.Valid() && m.ChunkedWrite? && |m.refs| == |m.group.chunks|
    requires forall k :: 0 <= k < |m.group.chunks| ==> m.group.chunks[k].index == k
    modifies provider
    ensures provider.Valid() && provider.comments == old(provider.comments) + written
    ensures ChunksWritten(m.group, m.refs, configuration.current.actor, written)
    ensures AddedFresh(old(provider.comments), written)
    ensures r.Some? ==>
              && |written| == |Missing(m.refs)| && old(provider.writesLeft) >= |written|
              && ChunksPublished(provider.comments, m.group, r.value, configuration.current.actor)
              && FreshFor(p, provider.Snapshot(), m, configuration, true)
    ensures old(ReadyForChunks(p, provider.Snapshot(), m, configuration)) && r.None? ==> provider.writesLeft == 0
  {
    hide FreshFor, MatchesOf, Fresh, Missing, ChunksWritten, RefsHoldChunks, AddedFresh, ReadyForChunks;
    var actor := configuration.current.actor;
    var refs: seq<CommentRef> := [];
    written := [];
    NothingMissingYet(provider.comments, m.group, m.refs, actor);
    assert m.refs[..0] == [];
    assert RefsHoldChunks(provider.comments, m.group, refs, actor) by {
      NoRefsYet(provider.comments, m.group, actor);
    }
    for i := 0 to |m.refs|
      invariant provider.Valid() && |refs| == i
      invariant provider.comments == old(provider.comments) + written
      invariant ChunksWritten(m.group, m.refs, actor, written) && |written| == |Missing(m.refs[..i])|
      invariant AddedFresh(old(provider.comments), written)
      invariant RefsHoldChunks(provider.comments, m.group, refs, actor)
      invariant provider.writesLeft + |written| == old(provider.writesLeft)
      invariant old(ReadyForChunks(p, provider.Snapshot(), m, configuration)) ==>
                  ReadyForChunks(p, provider.Snapshot(), m, configuration)
    {
      NextMissing(m.refs, i);
      if ReadyForChunks(p, provider.Snapshot(), m, configuration) {
        ReadyMeans(p, provider.Snapshot(), m, configuration, i);
      }
      var unchangedHead := AssertFreshWorkpadMutation(p, provider.Snapshot(), m, configuration, true);
      if !unchangedHead {
        return None, written;
      }
      var body := ChunkBody(m.group.chunks[i], Rendered);
      if m.refs[i].Some? {
        var reusable := MatchesOf(provider.comments, m.refs[i].value);
        if |reusable| != 1 || reusable[0].body != body || reusable[0].author != Some(actor) {
          return None, written;
        }
        OneMoreHeldRef(provider.comments, m.group, refs, actor, m.refs[i].value);
        refs := refs + [m.refs[i].value];
      } else {
        ghost var before, issue := provider.comments, provider.Snapshot();
        var created := provider.CreateIssueComment(body, actor);
        if created.None? {
          return None, written;
        }
        var x := Comment(created.value, body, Some(actor));
        ReadyAfterChunk(p, issue, provider.Snapshot(), m, configuration, x);
        RefsStillHoldChunks(before, m.group, refs, actor, x);
        NewCommentIsFound(before, x);
        OneMoreHeldRef(provider.comments, m.group, refs, actor, created.value);
        OneMoreWritten(m.group, m.refs, actor, written, x);
        OneMoreFresh(old(provider.comments), written, x);
        written := written + [x];
        refs := refs + [created.value];
      }
    }
    assert m.refs[..|m.refs|] == m.refs;
    if ReadyForChunks(p, provider.Snapshot(), m, configuration) {
      ReadyMeans(p, provider.Snapshot(), m, configuration, |m.refs|);
    }
    var unchangedHead := AssertFreshWorkpadMutation(p, provider.Snapshot(), m, configuration, true);
    if !unchangedHead {
      return None, written;
    }
    HeldRefsAreDistinct(provider.comments, m.group, refs, actor);
    r := Some(refs);
  }

  lemma NothingMissingYet(comments: seq<Comment>, g: Group, refs: seq<Option<CommentRef>>, actor: ActorId)
    ensures ChunksWritten(g, refs, actor, []) && Missing([]) == [] && AddedFresh(comments, [])
  {
  }

  lemma NoRefsYet(comments: seq<Comment>, g: Group, actor: ActorId)
    ensures RefsHoldChunks(comments, g, [], actor)
  {
  }

  lemma OneMoreHeldRef(comments: seq<Comment>, g: Group, refs: seq<CommentRef>, actor: ActorId, ref: CommentRef)
    requires RefsHoldChunks(comments, g, refs, actor) && |refs| < |g.chunks|
    requires |MatchesOf(comments, ref)| == 1 && MatchesOf(comments, ref)[0].body == ChunkBody(g.chunks[|refs|], Rendered)
    requires MatchesOf(comments, ref)[0].author == Some(actor)
    ensures RefsHoldChunks(comments, g, refs + [ref], actor)
  {
    hide MatchesOf;
  }

  lemma OneMoreWritten(g: Group, refs: seq<Option<CommentRef>>, actor: ActorId, written: seq<Comment>, x: Comment)
    requires ChunksWritten(g, refs, actor, written) && |written| < |Missing(refs)| && Missing(refs)[|written|] < |g.chunks|
    requires x.body == ChunkBody(g.chunks[Missing(refs)[|written|]], Rendered) && x.author == Some(actor)
    ensures ChunksWritten(g, refs, actor, written + [x])
  {
    hide Missing;
  }

  /** What the `i`-th reference adds to the missing indices. */
  lemma NextMissing(refs: seq<Option<CommentRef>>, i: nat)
    requires i < |refs|
    ensures refs[i].Some? ==> Missing(refs[..i + 1]) == Missing(refs[..i])
    ensures refs[i].None? ==>
              && |Missing(refs[..i + 1])| == |Missing(refs[..i])| + 1
              && |Missing(refs[..i])| < |Missing(refs)| && Missing(refs)[|Missing(refs[..i])|] == i
  {
    assert refs[..i + 1][..i] == refs[..i];
    MissingPrefix(refs, i + 1);
  }

  lemma {:induction false} MissingPrefix(refs: seq<Option<CommentRef>>, i: nat)
    requires i <= |refs|
    ensures Missing(refs[..i]) <= Missing(refs)
    decreases |refs|
  {
    if i == |refs| {
      assert refs[..i] == refs;
    } else {
      MissingPrefix(refs[..|refs| - 1], i);
      assert refs[..|refs| - 1][..i] == refs[..i];
    }
  }

  // ---------------------------------------------------------------- the manifest

  method ChunksVerified(comments: seq<Comment>, g: Group, refs: seq<CommentRef>, actor: ActorId) returns (ok: bool)
    ensures ok <==> ChunksPublished(comments, g, refs, actor)
  {
    hide MatchesOf;
    if |refs| != |g.chunks| {
      return false;
    }
    var seen: set<CommentRef> := {};
    for i := 0 to |refs|
      invariant seen == set k | 0 <= k < i :: refs[k]
      invariant forall j, k :: 0 <= j < k < i ==> refs[j] != refs[k]
      invariant forall k :: 0 <= k < i ==>
                  && |MatchesOf(comments, refs[k])| == 1
                  && MatchesOf(comments, refs[k])[0].body == ChunkBody(g.chunks[k], Rendered)
                  && MatchesOf(comments, refs[k])[0].author == Some(actor)
    {
      var matches := MatchesOf(comments, refs[i]);
      if refs[i] in seen || |matches| != 1 || matches[0].body != ChunkBody(g.chunks[i], Rendered)
         || matches[0].author != Some(actor)
      {
        return false;
      }
      seen := seen + {refs[i]};
    }
    ok := true;
  }

  /** The id of the comment that `prepareVerifiedWorkpadManifest` verifies before it exists. */
  const PENDING_MANIFEST := CommentRef("__pending_manifest__")

  /**
   * `prepareVerifiedWorkpadManifest` for a planned group: it fails only if a planned chunk is
   * not in place or the manifest itself exceeds the budget.
   */
  method PrepareVerifiedManifest(p: Platform, issue: Issue, m: Mutation, refs: seq<CommentRef>, configuration: Configuration,
                                 ghost n: nat, ghost attempt: nat) returns (r: Option<Body>)
    requires PlatformOk(p) && ConfigurationOk(configuration)
    requires m.ChunkedWrite? && GroupOf(p, m.entry, n, attempt) == Some(m.group)
    requires m.entry.producer == configuration.current && EntryBound(m.entry, issue.key, PENDING_MANIFEST)
    ensures r.Some? <==>
              && ChunksPublished(issue.comments, m.group, refs, configuration.current.actor)
              && p.size(ManifestBody(ManifestFor(m.group, refs), Rendered)) <= m.budget
    ensures r.Some? ==> r.value == ManifestBody(ManifestFor(m.group, refs), Rendered)
  {
    hide ManifestFor, VerifiedOf, ChunksPublished, EntryBound, ManifestOk;
    var ok := ChunksVerified(issue.comments, m.group, refs, configuration.current.actor);
    if !ok {
      return None;
    }
    PublishedIsDistinct(issue.comments, m.group, refs, configuration.current.actor);
    GroupManifestOk(p, m.entry, n, attempt, refs);
    var manifest := RenderManifest(m.group, refs);
    var body := ManifestBody(manifest.value, Rendered);
    if p.size(body) > m.budget {
      return None;
    }
    var synthetic := Comment(PENDING_MANIFEST, body, Some(configuration.current.actor));
    ManifestCommentVerifies(p, issue.comments, issue.key, configuration.producers, synthetic, m.entry, n, attempt, refs);
    var verified := VerifyManifestComment(p, issue, synthetic, configuration);
    r := if verified.Some? && verified.value.entries[0].entryId == m.entry.entryId then Some(body) else None;
  }

  // ---------------------------------------------------------------- publishing

  /** The chunks an unfinished or finished publication added; nothing for a single write. */
  ghost predicate OnlyChunksAdded(before: seq<Comment>, added: seq<Comment>) {
    AddedFresh(before, added) && forall k :: 0 <= k < |added| ==> added[k].body.ChunkBody?
  }

  /** The plan names chunk indices in order and belongs to the entry. */
  lemma PlannedGroup(p: Platform, issue: Issue, current: Option<Existing>, report: Report, syncedAt: int, configuration: Configuration,
                     budget: nat, m: Mutation) returns (n: nat, attempt: nat)
    requires Planned(p, issue, current, report, syncedAt, configuration.current, budget, m) && m.ChunkedWrite?
    ensures GroupOf(p, m.entry, n, attempt) == Some(m.group) && |m.refs| == |m.group.chunks|
    ensures forall k :: 0 <= k < |m.group.chunks| ==> m.group.chunks[k].index == k
    ensures m.entry.producer == configuration.current && EntryBound(m.entry, issue.key, PENDING_MANIFEST)
  {
    hide AppendFits, Fits, KeyOf, OpeningEntry, EntryBound;
    n, attempt :| Fits(p, m.entry, n, budget)
      && Selected(p, m.entry, n, configuration.current.actor, ProvisionalOf(issue.comments), attempt, m.refs)
      && GroupOf(p, m.entry, n, attempt) == Some(m.group);
    OpeningEntryIsBound(issue.key, report, syncedAt, configuration.current, current, PENDING_MANIFEST);
  }

  /** All chunks are in place, but the manifest that would show them exceeds the budget. */
  ghost predicate ManifestTooLarge(p: Platform, comments: seq<Comment>, m: Mutation, actor: ActorId) {
    && m.ChunkedWrite?
    && exists refs :: ChunksPublished(comments, m.group, refs, actor) && p.size(ManifestBody(ManifestFor(m.group, refs), Rendered)) > m.budget
  }

  /** The chunked branch of `writeWorkpad`: all chunks, then the manifest that makes them visible. */
  method WriteChunkedWorkpad(p: Platform, provider: GithubIssue, m: Mutation, configuration: Configuration, ghost n: nat, ghost attempt: nat)
    returns (r: Option<CommentRef>, ghost added: seq<Comment>, ghost refs: seq<CommentRef>)
    requires provider.Valid() && PlatformOk(p) && ConfigurationOk(configuration)
    requires m.ChunkedWrite? && |m.refs| == |m.group.chunks| && GroupOf(p, m.entry, n, attempt) == Some(m.group)
    requires forall k :: 0 <= k < |m.group.chunks| ==> m.group.chunks[k].index == k
    requires m.entry.producer == configuration.current && EntryBound(m.entry, provider.key, PENDING_MANIFEST)
    modifies provider
    ensures provider.Valid() && OnlyChunksAdded(old(provider.comments), added)
    ensures ChunksWritten(m.group, m.refs, configuration.current.actor, added)
    ensures r.None? ==> provider.comments == old(provider.comments) + added
    ensures r.Some? ==>
              && |added| == |Missing(m.refs)|
              && Written(old(provider.comments) + added, m, configuration.current.actor, r.value, refs, provider.comments)
              && p.size(ManifestBody(ManifestFor(m.group, refs), Rendered)) <= m.budget
    ensures old(ReadyForChunks(p, provider.Snapshot(), m, configuration)) && r.None? ==>
              provider.writesLeft == 0 || ManifestTooLarge(p, provider.comments, m, configuration.current.actor)
  {
    hide GroupOf, FreshFor, ChunksPublished, ManifestFor, Fresh, Missing, AddedFresh, EntryBound, ReadyForChunks;
    refs := [];
    var chunkRefs;
    chunkRefs, added := WriteChunks(p, provider, m, configuration);
    WrittenAreChunks(m.group, m.refs, configuration.current.actor, added);
    if chunkRefs.None? {
      return None, added, [];
    }
    refs := chunkRefs.value;
    var body := PrepareVerifiedManifest(p, provider.Snapshot(), m, chunkRefs.value, configuration, n, attempt);
    if body.None? {
      return None, added, refs;
    }
    ReferencesAreUsed(provider.comments, m.group, refs, configuration.current.actor, provider.upcoming);
    r := provider.CreateIssueComment(body.value, configuration.current.actor);
  }

  lemma WrittenAreChunks(g: Group, refs: seq<Option<CommentRef>>, actor: ActorId, written: seq<Comment>)
    requires ChunksWritten(g, refs, actor, written)
    ensures forall k :: 0 <= k < |written| ==> written[k].body.ChunkBody?
  {
    hide Missing;
  }

  /** The manifest refers to comments that exist, never to an id still to be assigned. */
  lemma ReferencesAreUsed(comments: seq<Comment>, g: Group, refs: seq<CommentRef>, actor: ActorId, upcoming: seq<CommentRef>)
    requires ChunksPublished(comments, g, refs, actor)
    requires forall i :: 0 <= i < |upcoming| ==> Fresh(comments, upcoming[i])
    ensures |refs| == |g.chunks|
    ensures forall i :: 0 <= i < |upcoming| ==> upcoming[i] !in ReferencedBy(ManifestFor(g, refs))
  {
    hide MatchesOf;
    var m := ManifestFor(g, refs);
    forall r | r in ReferencedBy(m)
      ensures exists c :: c in comments && c.id == r
    {
      var k :| 0 <= k < |m.chunks| && m.chunks[k].commentRef == r;
      assert MatchesOf(comments, refs[k])[0] in MatchesOf(comments, refs[k]);
    }
  }

  /** `writeWorkpad`. */
  method WriteWorkpad(p: Platform, provider: GithubIssue, m: Mutation, configuration: Configuration, ghost current: Option<Existing>,
                      ghost report: Report, ghost syncedAt: int, ghost budget: nat)
    returns (r: Option<CommentRef>, ghost added: seq<Comment>, ghost refs: seq<CommentRef>)
    requires provider.Valid() && PlatformOk(p) && ConfigurationOk(configuration)
    requires Planned(p, provider.Snapshot(), current, report, syncedAt, configuration.current, budget, m)
    requires m.SingleWrite? && m.mode.Append? ==> exists at :: 0 <= at < |provider.comments| && Some(provider.comments[at].id) == m.target
    modifies provider
    ensures provider.Valid() && OnlyChunksAdded(old(provider.comments), added)
    ensures m.SingleWrite? ==> added == []
    ensures m.ChunkedWrite? ==> ChunksWritten(m.group, m.refs, configuration.current.actor, added)
    ensures r.None? ==> provider.comments == old(provider.comments) + added
    ensures r.Some? ==> Written(old(provider.comments) + added, m, configuration.current.actor, r.value, refs, provider.comments)
    ensures r.Some? && m.ChunkedWrite? ==> |added| == |Missing(m.refs)| && p.size(ManifestBody(ManifestFor(m.group, refs), Rendered)) <= m.budget
    ensures r.Some? && m.SingleWrite? && m.mode.Append? ==> r == m.target
    ensures old(IsCurrent(p, provider.Snapshot(), configuration.producers, current)) && r.None? ==>
              provider.writesLeft == 0 || ManifestTooLarge(p, provider.comments, m, configuration.current.actor)
  {
    hide ChunksPublished, ManifestFor, AddedFresh, Fresh, ChunksWritten, EntryBound, GroupOf, ConfigurationOk, IsCurrent, ReadyForChunks,
         ManifestTooLarge;
    if m.ChunkedWrite? {
      ghost var n, attempt := PlannedGroup(p, provider.Snapshot(), current, report, syncedAt, configuration, budget, m);
      if IsCurrent(p, provider.Snapshot(), configuration.producers, current) {
        PlanIsReady(p, provider.Snapshot(), current, report, syncedAt, configuration, budget, m);
      }
      r, added, refs := WriteChunkedWorkpad(p, provider, m, configuration, n, attempt);
    } else {
      added, refs := [], [];
      NothingMissingYet(provider.comments, Group(m.entry.entryId, seq(32, _ => 0), m.entry, []), [], configuration.current.actor);
      SingleBodyHoldsEntries(p, provider.Snapshot(), current, report, syncedAt, configuration.current, budget, m);
      assert provider.comments + added == provider.comments;
      if m.mode.Append? {
        var ok := provider.UpdateWorkpadComment(m.target.value, m.body);
        r := if ok then m.target else None;
      } else {
        r := provider.CreateIssueComment(m.body, configuration.current.actor);
      }
    }
  }

  lemma SingleBodyHoldsEntries(p: Platform, issue: Issue, current: Option<Existing>, report: Report, syncedAt: int, producer: Producer,
                               budget: nat, m: Mutation)
    requires Planned(p, issue, current, report, syncedAt, producer, budget, m) && m.SingleWrite?
    ensures m.body.EntriesBody? && (m.mode.Append? ==> m.target.Some?)
  {
    hide OpeningEntry, AppendedEntry;
  }

  datatype PublishError = WrongActor | Unprepared(reason: PrepareError) | NotFresh | WriteFailed | NotReadBack

  /** What a plan needs to be applied after its own chunks were added. */
  lemma PlanSurvivesChunks(p: Platform, provider: Issue, before: seq<Comment>, added: seq<Comment>, producers: seq<Producer>,
                           chain: seq<Verified>)
    requires Readable(p, before, provider.key, producers, chain) && OnlyChunksAdded(before, added)
    requires DistinctIds(before + added)
    ensures Readable(p, before + added, provider.key, producers, chain)
  {
    hide Reads, ManagedOf, CanonicalIds, AddedFresh;
    ChunksAreInvisible(p, before, provider.key, producers, added, chain);
  }

  /** The reads before the write: prepare against one snapshot, recheck against the latest. */
  method PrepareFresh(p: Platform, issue: Issue, latest: Issue, actor: ActorId, report: Report, syncedAt: int,
                      configuration: Configuration, budget: nat)
    returns (r: Result<Mutation, PublishError>, ghost current: Option<Existing>)
    requires PlatformOk(p)
    ensures r.Success? ==>
              && ConfigurationOk(configuration) && actor == configuration.current.actor
              && IsCurrent(p, issue, configuration.producers, current)
              && Planned(p, issue, current, report, syncedAt, configuration.current, budget, r.value)
              && FreshFor(p, latest, r.value, configuration, false)
    ensures r == Failure(WrongActor) <==> actor != configuration.current.actor
    ensures r.Failure? && r.error.Unprepared? ==>
              exists c :: NotPrepared(p, issue, c, report, syncedAt, configuration, budget, r.error.reason)
    ensures latest == issue && r.Failure? ==> r.error.WrongActor? || r.error.Unprepared?
  {
    hide Planned, ConfigurationOk, IsCurrent, FreshFor, NotPrepared, Rejected;
    current := None;
    if actor != configuration.current.actor {
      return Failure(WrongActor), current;
    }
    var prepared, head := PrepareIssueWorkpadMutation(p, issue, report, syncedAt, configuration, budget);
    if prepared.Failure? {
      return Failure(Unprepared(prepared.error)), current;
    }
    PlanIsFresh(p, issue, head, report, syncedAt, configuration, budget, prepared.value);
    var unchangedHead := AssertFreshWorkpadMutation(p, latest, prepared.value, configuration, false);
    r, current := if unchangedHead then Success(prepared.value) else Failure(NotFresh), head;
  }

  /** The head that the post-write read has to find. */
  predicate IsWritten(head: Existing, m: Mutation, id: CommentRef) {
    head.comment.id == id && head.entry.entryId == m.entry.entryId && head.entry.revision == m.entry.revision
  }

  /** The post-write read. */
  method ReadBack(p: Platform, issue: Issue, m: Mutation, id: CommentRef, configuration: Configuration) returns (r: Option<Existing>)
    requires ConfigurationOk(configuration)
    ensures r.Some? ==> IsCurrent(p, issue, configuration.producers, r) && IsWritten(r.value, m, id)
    ensures r.Some? ==>
              && r.value.comment.id == id && r.value.entry.entryId == m.entry.entryId
              && r.value.entry.revision == m.entry.revision
    ensures r.None? ==>
              forall head :: IsCurrent(p, issue, configuration.producers, Some(head)) ==>
                head.comment.id != id || head.entry.entryId != m.entry.entryId || head.entry.revision != m.entry.revision
  {
    hide ConfigurationOk, IsHead, Reads;
    var persisted := FindExistingWorkpad(p, issue, configuration);
    if persisted.Failure? {
      UnreadableHasNoHead(p, issue, configuration);
      return None;
    }
    assert IsCurrent(p, issue, configuration.producers, persisted.value);
    forall other | IsCurrent(p, issue, configuration.producers, other)
      ensures other == persisted.value
    {
      OneCurrent(p, issue, configuration.producers, persisted.value, other);
    }
    r := if persisted.value.Some? && IsWritten(persisted.value.value, m, id) then persisted.value else None;
  }

  /**
   * `publishSharedContext`. On success the history gained exactly the prepared entry and the
   * returned head is it. A failure before the visible write leaves readers with what they saw
   * before; the read-back fails exactly for an unsound write, when nobody can read the Issue any
   * more. With nobody else writing, the other failures are another actor, a refused report, a
   * provider that stopped, or a manifest over the budget.
   */
  method PublishSharedContext(p: Platform, provider: GithubIssue, actor: ActorId, report: Report, syncedAt: int,
                              configuration: Configuration, budget: nat, ghost chain: seq<Verified>)
    returns (r: Result<Existing, PublishError>, ghost added: seq<Comment>, ghost grown: seq<Verified>, ghost plan: Option<Mutation>)
    requires provider.Valid() && PlatformOk(p)
    requires Readable(p, provider.comments, provider.key, configuration.producers, chain)
    requires |chain| > 0 ==> |chain[|chain| - 1].entries| > 0
    modifies provider
    ensures provider.Valid() && OnlyChunksAdded(old(provider.comments), added)
    ensures plan.Some? ==> Planned(p, old(provider.Snapshot()), HeadIn(chain), report, syncedAt, configuration.current, budget, plan.value)
    ensures r.Success? || r == Failure(NotReadBack) ==> plan.Some?
    ensures r.Failure? && !r.error.NotReadBack? ==> provider.comments == old(provider.comments) + added
    ensures r.Success? ==>
              && IsSound(p, HeadIn(chain), report, plan.value)
              && Readable(p, provider.comments, provider.key, configuration.producers, grown)
              && |grown| > 0 && |grown[|grown| - 1].entries| > 0 && r.value == HeadOf(grown)
              && AllEntries(grown) == AllEntries(chain) + [r.value.entry]
              && r.value.entry.revision == |AllEntries(chain)|
              && r.value.entry.report == report.(updatedAt := syncedAt, context := r.value.entry.report.context)
              && forall c :: c in provider.comments && c !in old(provider.comments) + added ==> p.size(c.body) <= budget
    ensures r == Failure(NotReadBack) ==>
              && !IsSound(p, HeadIn(chain), report, plan.value)
              && Unreadable(p, provider.comments, provider.key, configuration.producers)
    ensures r == Failure(WrongActor) <==> actor != configuration.current.actor
    ensures r.Failure? && r.error.Unprepared? ==>
              exists c :: NotPrepared(p, old(provider.Snapshot()), c, report, syncedAt, configuration, budget, r.error.reason)
    ensures r.Failure? && !r.error.WrongActor? && !r.error.Unprepared? && !r.error.NotReadBack? ==>
              provider.writesLeft == 0 || (plan.Some? && ManifestTooLarge(p, provider.comments, plan.value, actor))
  {
    hide Readable, ConfigurationOk, Planned, Publishes, Written, FreshFor, AddedFresh, IsCurrent, ChunksWritten, Missing, AllEntries,
         NotPrepared, ManifestTooLarge, IsSound, Unreadable;
    added, grown, plan := [], [], None;
    NothingAdded(provider.comments);
    ghost var issue := provider.Snapshot();
    var prepared;
    ghost var current;
    prepared, current := PrepareFresh(p, provider.Snapshot(), provider.Snapshot(), actor, report, syncedAt, configuration, budget);
    if prepared.Failure? {
      return Failure(prepared.error), added, grown, plan;
    }
    var m := prepared.value;
    plan := Some(m);
    CurrentIsHead(p, issue, configuration.producers, chain, current);
    AppendTargetExists(p, issue, configuration, chain, report, syncedAt, budget, m);
    var written;
    ghost var refs;
    written, added, refs := WriteWorkpad(p, provider, m, configuration, current, report, syncedAt, budget);
    if written.None? {
      return Failure(WriteFailed), added, grown, plan;
    }
    grown := PublicationTakesEffect(p, issue, configuration, chain, report, syncedAt, budget, m, written.value, refs, added, provider.comments);
    var head := ReadBack(p, provider.Snapshot(), m, written.value, configuration);
    if !IsSound(p, HeadIn(chain), report, m) {
      UnreadableHasNoChain(p, provider.comments, provider.key, configuration.producers);
    } else {
      ReadableIsFound(p, provider.Snapshot(), configuration.producers, grown);
    }
    if head.None? {
      return Failure(NotReadBack), added, grown, plan;
    }
    CurrentIsHead(p, provider.Snapshot(), configuration.producers, grown, head);
    WrittenWithinBudget(p, issue, current, report, syncedAt, configuration.current, budget, m, issue.comments + added, written.value, refs,
                        provider.comments);
    PlannedEntryCarriesReport(p, issue, current, report, syncedAt, configuration.current, budget, m);
    r := Success(head.value);
  }

  lemma NothingAdded(comments: seq<Comment>)
    ensures OnlyChunksAdded(comments, []) && comments + [] == comments
  {
  }

  lemma AppendTargetExists(p: Platform, issue: Issue, configuration: Configuration, chain: seq<Verified>, report: Report, syncedAt: int,
                           budget: nat, m: Mutation)
    requires Readable(p, issue.comments, issue.key, configuration.producers, chain)
    requires |chain| > 0 ==> |chain[|chain| - 1].entries| > 0
    requires Planned(p, issue, HeadIn(chain), report, syncedAt, configuration.current, budget, m)
    ensures m.SingleWrite? && m.mode.Append? ==> exists at :: 0 <= at < |issue.comments| && Some(issue.comments[at].id) == m.target
  {
    hide VerifiedOf, Reads, CanonicalIds, ManagedOf, OpeningEntry, AppendedEntry;
    if m.SingleWrite? && m.mode.Append? {
      ChainMember(p, issue.comments, issue.key, configuration.producers, chain, chain[|chain| - 1]);
      var at :| 0 <= at < |issue.comments| && issue.comments[at] == HeadOf(chain).comment;
    }
  }

  lemma {:induction false} AddedStaysDistinct(comments: seq<Comment>, added: seq<Comment>)
    requires DistinctIds(comments) && AddedFresh(comments, added)
    ensures DistinctIds(comments + added)
  {
    hide Fresh;
    if |added| == 0 {
      assert comments + added == comments;
    } else {
      var n := |added| - 1;
      assert forall k :: 0 <= k < n ==> added[..n][..k] == added[..k];
      AddedStaysDistinct(comments, added[..n]);
      assert Fresh(comments + added[..n], added[n].id);
      StaysDistinct(comments + added[..n], added[n]);
      assert comments + added == comments + added[..n] + [added[n]];
    }
  }

  lemma PublicationTakesEffect(p: Platform, issue: Issue, configuration: Configuration, chain: seq<Verified>, report: Report,
                               syncedAt: int, budget: nat, m: Mutation, id: CommentRef, refs: seq<CommentRef>, added: seq<Comment>,
                               after: seq<Comment>) returns (grown: seq<Verified>)
    requires PlatformOk(p) && ConfigurationOk(configuration)
    requires Readable(p, issue.comments, issue.key, configuration.producers, chain)
    requires |chain| > 0 ==> |chain[|chain| - 1].entries| > 0
    requires Planned(p, issue, HeadIn(chain), report, syncedAt, configuration.current, budget, m)
    requires OnlyChunksAdded(issue.comments, added)
    requires Written(issue.comments + added, m, configuration.current.actor, id, refs, after)
    ensures IsSound(p, HeadIn(chain), report, m) ==>
              && Readable(p, after, issue.key, configuration.producers, grown) && |grown| > 0 && |grown[|grown| - 1].entries| > 0
              && AllEntries(grown) == AllEntries(chain) + [m.entry]
              && HeadOf(grown).entry == m.entry && m.entry.revision == |AllEntries(chain)|
              && HeadOf(grown).comment.id == if m.SingleWrite? && m.mode.Append? && m.target.Some? then m.target.value else id
    ensures !IsSound(p, HeadIn(chain), report, m) ==> Unreadable(p, after, issue.key, configuration.producers)
  {
    hide Accepted, AddedFresh, Publishes, Written, ManagedOf, ConfigurationOk, AllEntries, IsSound, Unreadable;
    AddedStaysDistinct(issue.comments, added);
    PlanSurvivesChunks(p, issue, issue.comments, added, configuration.producers, chain);
    grown := PublicationOutcome(p, issue.(comments := issue.comments + added), configuration, chain, report, syncedAt, budget, m,
                                id, refs, after);
  }

  /** A readable Issue shows its head. */
  lemma ReadableIsFound(p: Platform, issue: Issue, producers: seq<Producer>, chain: seq<Verified>)
    requires Readable(p, issue.comments, issue.key, producers, chain) && |chain| > 0 && |chain[|chain| - 1].entries| > 0
    ensures IsCurrent(p, issue, producers, Some(HeadOf(chain)))
  {
    hide Reads, ManagedOf, CanonicalIds;
  }

  lemma PlannedEntryCarriesReport(p: Platform, issue: Issue, current: Option<Existing>, report: Report, syncedAt: int,
                                  producer: Producer, budget: nat, m: Mutation)
    requires Planned(p, issue, current, report, syncedAt, producer, budget, m)
    ensures m.entry.report == report.(updatedAt := syncedAt, context := m.entry.report.context)
  {
    hide GroupOf, EntryIdFor, InitialSessionId, ChunkPlan;
  }
}
