/** Reading an Issue: verifying managed comments and finding the head of their lineage. */
module IssueWorkpad {
  import opened Common
  import opened Workpad
  import opened Chunks
  import opened Lineage

  // ---------------------------------------------------------------- producers

  ghost predicate DistinctProducers(producers: seq<Producer>) {
    forall i, j :: 0 <= i < j < |producers| ==>
      producers[i].id != producers[j].id && producers[i].actor != producers[j].actor
  }

  /** Every producer has its own id and actor, and the current one is among them. */
  ghost predicate ConfigurationOk(c: Configuration) {
    DistinctProducers(c.producers) && c.current in c.producers
  }

  method ValidateProducerConfiguration(c: Configuration) returns (ok: bool)
    ensures ok <==> ConfigurationOk(c)
  {
    var ids: set<Identifier> := {};
    var actors: set<ActorId> := {};
    for i := 0 to |c.producers|
      invariant ids == set q | q in c.producers[..i] :: q.id
      invariant actors == set q | q in c.producers[..i] :: q.actor
      invariant DistinctProducers(c.producers[..i])
    {
      var producer := c.producers[i];
      assert c.producers[..i + 1] == c.producers[..i] + [producer];
      OneMoreProducer(c.producers, i);
      if producer.id in ids || producer.actor in actors {
        return false;
      }
      ids, actors := ids + {producer.id}, actors + {producer.actor};
    }
    assert c.producers[..|c.producers|] == c.producers;
    ok := c.current in c.producers;
  }

  lemma OneMoreProducer(producers: seq<Producer>, i: nat)
    requires i < |producers| && DistinctProducers(producers[..i])
    ensures DistinctProducers(producers[..i + 1]) <==>
            forall q :: q in producers[..i] ==> q.id != producers[i].id && q.actor != producers[i].actor
    ensures !DistinctProducers(producers[..i + 1]) ==> !DistinctProducers(producers)
  {
    var grown := producers[..i + 1];
    assert grown == producers[..i] + [producers[i]];
    if DistinctProducers(grown) {
      forall q | q in producers[..i]
        ensures q.id != producers[i].id && q.actor != producers[i].actor
      {
        var k :| 0 <= k < i && producers[k] == q;
        assert grown[k] == q && grown[i] == producers[i];
      }
    }
  }

  // ---------------------------------------------------------------- one managed comment

  /** `assertEntryBoundToIssue`. */
  predicate EntryBound(e: Entry, key: IssueKey, comment: CommentRef) {
    && ContextMatches(e)
    && e.report.context.value.issue == key
    && (e.report.context.value.commentRef.None? || e.report.context.value.commentRef == Some(comment))
  }

  predicate AgreesWith(e: Entry, first: Entry) {
    && e.report.id == first.report.id && e.sessionId == first.sessionId && e.producer == first.producer
    && e.predecessor == first.predecessor && e.continuation == first.continuation
  }

  /** All entries of one comment tell one story, bound to this Issue and comment. */
  ghost predicate EntriesAgree(entries: seq<Entry>, key: IssueKey, comment: CommentRef) {
    && |entries| > 0
    && (forall i :: 0 <= i < |entries| ==>
          AgreesWith(entries[i], entries[0]) && entries[i].revision == entries[0].revision + i && EntryBound(entries[i], key, comment))
    && (forall i, j :: 0 <= i < j < |entries| ==> entries[i].entryId != entries[j].entryId)
  }

  /** `parseFailureReportWorkpad` reads the printed entries back. */
  predicate NoneMarked(p: Platform, entries: seq<Entry>) {
    forall e :: e in entries ==> !p.marked(e)
  }

  predicate AuthoredBy(c: Comment, producers: seq<Producer>, producer: Producer) {
    producer in producers && c.author == Some(producer.actor)
  }

  function EntriesView(c: Comment): Verified
    requires c.body.EntriesBody? && |c.body.entries| > 0
  {
    var first := c.body.entries[0];
    Verified(c, c.body.entries, first.sessionId, first.producer, first.predecessor, first.continuation, AsEntries)
  }

  method EntriesConsistent(entries: seq<Entry>, key: IssueKey, comment: CommentRef) returns (ok: bool)
    ensures ok <==> EntriesAgree(entries, key, comment)
  {
    if |entries| == 0 {
      return false;
    }
    var first := entries[0];
    var entryIds: set<Identifier> := {};
    var previousRevision: Option<nat> := None;
    for i := 0 to |entries|
      invariant forall k :: 0 <= k < i ==>
                  AgreesWith(entries[k], first) && entries[k].revision == first.revision + k && EntryBound(entries[k], key, comment)
      invariant forall j, k :: 0 <= j < k < i ==> entries[j].entryId != entries[k].entryId
      invariant forall k :: 0 <= k < i ==> entries[k].entryId in entryIds
      invariant forall x :: x in entryIds ==> exists k :: 0 <= k < i && entries[k].entryId == x
      invariant previousRevision == if i == 0 then None else Some(first.revision + i - 1)
    {
      var entry := entries[i];
      if !AgreesWith(entry, first) || entry.entryId in entryIds {
        return false;
      }
      entryIds := entryIds + {entry.entryId};
      if previousRevision.Some? && entry.revision != previousRevision.value + 1 {
        return false;
      }
      previousRevision := Some(entry.revision);
      if !EntryBound(entry, key, comment) {
        return false;
      }
    }
    ok := true;
  }

  // ---------------------------------------------------------------- one manifest

  /** `issue.comments.filter((candidate) => candidate.id === ref)`. */
  function MatchesOf(comments: seq<Comment>, ref: CommentRef): (r: seq<Comment>)
    ensures forall c :: c in r <==> c in comments && c.id == ref
  {
    if |comments| == 0 then []
    else
      var rest := MatchesOf(comments[..|comments| - 1], ref);
      var last := comments[|comments| - 1];
      assert comments == comments[..|comments| - 1] + [last];
      if last.id == ref then rest + [last] else rest
  }

  predicate ReferenceOk(comments: seq<Comment>, manifestComment: Comment, actor: ActorId, ref: CommentRef) {
    && |MatchesOf(comments, ref)| == 1
    && MatchesOf(comments, ref)[0] != manifestComment
    && MatchesOf(comments, ref)[0].author == Some(actor)
  }

  ghost predicate ReferencesOk(comments: seq<Comment>, manifestComment: Comment, m: Manifest) {
    forall i :: 0 <= i < |m.chunks| ==> ReferenceOk(comments, manifestComment, m.producer.actor, m.chunks[i].commentRef)
  }

  function ReferencedBy(m: Manifest): set<CommentRef> {
    set reference | reference in m.chunks :: reference.commentRef
  }

  /** The bodies the references resolve to. */
  ghost function Resolved(comments: seq<Comment>, m: Manifest): (r: map<CommentRef, Body>)
    requires forall i :: 0 <= i < |m.chunks| ==> |MatchesOf(comments, m.chunks[i].commentRef)| == 1
  {
    map ref | ref in ReferencedBy(m) :: MatchesOf(comments, ref)[0].body
  }

  ghost function ManifestEntry(p: Platform, comments: seq<Comment>, key: IssueKey, producers: seq<Producer>, c: Comment)
    : Option<Entry>
    requires c.body.ManifestBody?
  {
    var m := c.body.manifest;
    if ManifestOk(m) && AuthoredBy(c, producers, m.producer) && ReferencesOk(comments, c, m) then
      match Reconstructed(p, m, Resolved(comments, m))
      case Some(e) => if EntryBound(e, key, c.id) then Some(e) else None
      case None => None
    else None
  }

  function ManifestView(c: Comment, e: Entry): Verified
    requires c.body.ManifestBody?
  {
    var m := c.body.manifest;
    Verified(c, [e], m.sessionId, m.producer, m.predecessor, m.continuation, AsManifest)
  }

  // ---------------------------------------------------------------- verification

  /** What `verifyManagedComment` accepts a comment as; `None` where it throws. */
  ghost function VerifiedOf(p: Platform, comments: seq<Comment>, key: IssueKey, producers: seq<Producer>, c: Comment)
    : (v: Option<Verified>)
    ensures v.Some? ==> |v.value.entries| > 0 && v.value.comment == c
  {
    match c.body
    case EntriesBody(entries, _) =>
      if NoneMarked(p, entries) && EntriesAgree(entries, key, c.id) && AuthoredBy(c, producers, entries[0].producer)
      then Some(EntriesView(c)) else None
    case ManifestBody(_, _) =>
      (match ManifestEntry(p, comments, key, producers, c)
       case Some(e) => Some(ManifestView(c, e))
       case None => None)
    case _ => None
  }

  method ResolveReferences(comments: seq<Comment>, c: Comment, m: Manifest) returns (r: Option<seq<(CommentRef, Body)>>)
    requires ManifestOrdered(m)
    ensures r.Some? <==> ReferencesOk(comments, c, m)
    ensures r.Some? ==> DistinctRefs(r.value) && ByRef(r.value) == Resolved(comments, m)
  {
    var referenced: seq<(CommentRef, Body)> := [];
    for i := 0 to |m.chunks|
      invariant |referenced| == i
      invariant forall k :: 0 <= k < i ==> ReferenceOk(comments, c, m.producer.actor, m.chunks[k].commentRef)
      invariant forall k :: 0 <= k < i ==> referenced[k] == Resolution(comments, m.chunks[k])
    {
      var reference := m.chunks[i].commentRef;
      if !ReferenceOk(comments, c, m.producer.actor, reference) {
        return None;
      }
      referenced := referenced + [(reference, MatchesOf(comments, reference)[0].body)];
    }
    ResolvedByRef(comments, m, referenced);
    r := Some(referenced);
  }

  function Resolution(comments: seq<Comment>, reference: ChunkReference): (CommentRef, Body)
    requires |MatchesOf(comments, reference.commentRef)| == 1
  {
    (reference.commentRef, MatchesOf(comments, reference.commentRef)[0].body)
  }

  method VerifyManifestComment(p: Platform, issue: Issue, c: Comment, configuration: Configuration) returns (r: Option<Verified>)
    requires c.body.ManifestBody?
    ensures r == VerifiedOf(p, issue.comments, issue.key, configuration.producers, c)
  {
    hide EntryBound, ManifestView, Resolved, ReferencesOk, AuthoredBy, Reconstructed;
    var m := c.body.manifest;
    var ordered := AssertManifestOrdering(m);
    if |m.chunks| < 1 || !ordered || !AuthoredBy(c, configuration.producers, m.producer) {
      return None;
    }
    var referenced := ResolveReferences(issue.comments, c, m);
    if referenced.None? {
      return None;
    }
    var entry := ReconstructManifest(p, m, referenced.value);
    r := if entry.Some? && EntryBound(entry.value, issue.key, c.id) then Some(ManifestView(c, entry.value)) else None;
  }

  lemma ResolvedByRef(comments: seq<Comment>, m: Manifest, referenced: seq<(CommentRef, Body)>)
    requires ManifestOrdered(m) && |referenced| == |m.chunks|
    requires forall k :: 0 <= k < |m.chunks| ==> |MatchesOf(comments, m.chunks[k].commentRef)| == 1
    requires forall k :: 0 <= k < |m.chunks| ==> referenced[k] == Resolution(comments, m.chunks[k])
    ensures DistinctRefs(referenced) && ByRef(referenced) == Resolved(comments, m)
  {
    hide MatchesOf, ByRef;
    assert DistinctRefs(referenced);
    var byRef := ByRef(referenced);
    forall k | k in byRef
      ensures k in ReferencedBy(m) && byRef[k] == MatchesOf(comments, k)[0].body
    {
      var i :| 0 <= i < |referenced| && referenced[i] == (k, byRef[k]);
      assert m.chunks[i] in m.chunks;
    }
    forall k | k in ReferencedBy(m)
      ensures k in byRef
    {
      var i :| 0 <= i < |m.chunks| && m.chunks[i].commentRef == k;
      assert referenced[i] in referenced;
    }
  }

  method VerifyManagedComment(p: Platform, issue: Issue, c: Comment, configuration: Configuration) returns (r: Option<Verified>)
    requires IsManaged(c.body)
    ensures r == VerifiedOf(p, issue.comments, issue.key, configuration.producers, c)
  {
    if c.body.ManifestBody? {
      r := VerifyManifestComment(p, issue, c, configuration);
    } else if c.body.EntriesBody? {
      if !NoneMarked(p, c.body.entries) {
        return None;
      }
      var consistent := EntriesConsistent(c.body.entries, issue.key, c.id);
      if !consistent || !AuthoredBy(c, configuration.producers, c.body.entries[0].producer) {
        return None;
      }
      r := Some(EntriesView(c));
    } else {
      r := None;
    }
  }

  // ---------------------------------------------------------------- the whole Issue

  function ManagedOf(comments: seq<Comment>): (r: seq<Comment>)
    ensures forall c :: c in r <==> c in comments && IsManaged(c.body)
  {
    if |comments| == 0 then []
    else
      var last := comments[|comments| - 1];
      assert comments == comments[..|comments| - 1] + [last];
      if IsManaged(last.body) then ManagedOf(comments[..|comments| - 1]) + [last] else ManagedOf(comments[..|comments| - 1])
  }

  /** `vs` are the verified forms of the managed comments, in the order the Issue lists them. */
  ghost predicate AllVerified(p: Platform, comments: seq<Comment>, key: IssueKey, producers: seq<Producer>, vs: seq<Verified>) {
    && |vs| == |ManagedOf(comments)|
    && forall i :: 0 <= i < |vs| ==> VerifiedOf(p, comments, key, producers, ManagedOf(comments)[i]) == Some(vs[i])
  }

  /** The Issue's managed comments verify and form the lineage `chain`. */
  ghost predicate Reads(p: Platform, comments: seq<Comment>, key: IssueKey, producers: seq<Producer>, chain: seq<Verified>) {
    exists vs :: AllVerified(p, comments, key, producers, vs) && IsLineageOf(vs, chain)
  }

  lemma OneVerification(p: Platform, comments: seq<Comment>, key: IssueKey, producers: seq<Producer>, a: seq<Verified>, b: seq<Verified>)
    requires AllVerified(p, comments, key, producers, a) && AllVerified(p, comments, key, producers, b)
    ensures a == b
  {
    hide VerifiedOf;
    forall i | 0 <= i < |a|
      ensures a[i] == b[i]
    {
      assert VerifiedOf(p, comments, key, producers, ManagedOf(comments)[i]) == Some(a[i]);
    }
  }

  lemma ReadsOneChain(p: Platform, comments: seq<Comment>, key: IssueKey, producers: seq<Producer>, a: seq<Verified>, b: seq<Verified>)
    requires Reads(p, comments, key, producers, a) && Reads(p, comments, key, producers, b)
    ensures a == b
  {
    hide VerifiedOf, IsLineageOf;
    var va :| AllVerified(p, comments, key, producers, va) && IsLineageOf(va, a);
    var vb :| AllVerified(p, comments, key, producers, vb) && IsLineageOf(vb, b);
    OneVerification(p, comments, key, producers, va, vb);
    LineageIsUnique(va, a, b);
  }

  /** The validated head of a lineage. */
  datatype Existing = Existing(
    comment: Comment,
    entry: Entry,
    sessionId: Identifier,
    producer: Producer,
    predecessor: Option<CommentRef>,
    continuation: Option<Continuation>,
    representation: Representation)

  function HeadOf(chain: seq<Verified>): Existing
    requires |chain| > 0 && |chain[|chain| - 1].entries| > 0
  {
    var head := chain[|chain| - 1];
    Existing(head.comment, head.entries[|head.entries| - 1], head.sessionId, head.producer, head.predecessor, head.continuation,
             head.representation)
  }

  ghost predicate IsHead(p: Platform, issue: Issue, producers: seq<Producer>, head: Existing) {
    exists chain: seq<Verified> :: Reads(p, issue.comments, issue.key, producers, chain)
      && |chain| > 0 && |chain[|chain| - 1].entries| > 0 && HeadOf(chain) == head
  }

  method VerifyAll(p: Platform, issue: Issue, configuration: Configuration) returns (r: Option<seq<Verified>>)
    ensures r.Some? ==> AllVerified(p, issue.comments, issue.key, configuration.producers, r.value) && NonEmptyEntries(r.value)
    ensures r.None? ==> |ManagedOf(issue.comments)| > 0
    ensures r.None? ==> forall vs :: !AllVerified(p, issue.comments, issue.key, configuration.producers, vs)
  {
    hide VerifiedOf;
    var managed := ManagedOf(issue.comments);
    var vs: seq<Verified> := [];
    for i := 0 to |managed|
      invariant |vs| == i
      invariant forall k :: 0 <= k < i ==> VerifiedOf(p, issue.comments, issue.key, configuration.producers, managed[k]) == Some(vs[k])
    {
      assert managed[i] in managed;
      var v := VerifyManagedComment(p, issue, managed[i], configuration);
      if v.None? {
        OneFails(p, issue.comments, issue.key, configuration.producers, i);
        return None;
      }
      vs := vs + [v.value];
    }
    VerifiedHaveEntries(p, issue.comments, issue.key, configuration.producers, vs);
    r := Some(vs);
  }

  lemma OneFails(p: Platform, comments: seq<Comment>, key: IssueKey, producers: seq<Producer>, i: nat)
    requires i < |ManagedOf(comments)| && VerifiedOf(p, comments, key, producers, ManagedOf(comments)[i]).None?
    ensures forall vs :: !AllVerified(p, comments, key, producers, vs)
  {
  }

  lemma VerifiedHaveEntries(p: Platform, comments: seq<Comment>, key: IssueKey, producers: seq<Producer>, vs: seq<Verified>)
    requires AllVerified(p, comments, key, producers, vs)
    ensures NonEmptyEntries(vs)
  {
    forall v | v in vs
      ensures |v.entries| > 0
    {
      var i :| 0 <= i < |vs| && vs[i] == v;
      assert VerifiedOf(p, comments, key, producers, ManagedOf(comments)[i]) == Some(v);
    }
  }

  /**
   * `None` is an Issue without a workpad, `Some` the head of its one lineage, and a failure
   * means the configuration is invalid or the managed comments form no lineage.
   */
  method FindExistingWorkpad(p: Platform, issue: Issue, configuration: Configuration) returns (r: Result<Option<Existing>, ()>)
    ensures r.Success? ==> ConfigurationOk(configuration)
    ensures r.Success? && r.value.None? ==> |ManagedOf(issue.comments)| == 0
    ensures r.Success? && r.value.Some? ==> IsHead(p, issue, configuration.producers, r.value.value)
    ensures r.Failure? && ConfigurationOk(configuration) ==>
              |ManagedOf(issue.comments)| > 0
              && forall chain: seq<Verified> :: !Reads(p, issue.comments, issue.key, configuration.producers, chain)
  {
    var valid := ValidateProducerConfiguration(configuration);
    if !valid {
      return Failure(());
    }
    var verified := VerifyAll(p, issue, configuration);
    if verified.None? {
      return Failure(());
    }
    if |verified.value| == 0 {
      return Success(None);
    }
    var lineage := SelectLinearLineage(verified.value);
    if lineage.Failure? {
      forall chain: seq<Verified>
        ensures !Reads(p, issue.comments, issue.key, configuration.producers, chain)
      {
        OnlyVerification(p, issue, configuration.producers, verified.value, chain);
      }
      return Failure(());
    }
    var chain := lineage.value;
    SameMembers(chain, verified.value);
    assert chain[|chain| - 1] in chain;
    r := Success(Some(HeadOf(chain)));
  }

  lemma OnlyVerification(p: Platform, issue: Issue, producers: seq<Producer>, vs: seq<Verified>, chain: seq<Verified>)
    requires AllVerified(p, issue.comments, issue.key, producers, vs) && !IsLineageOf(vs, chain)
    ensures !Reads(p, issue.comments, issue.key, producers, chain)
  {
    hide VerifiedOf, AllVerified, IsLineageOf;
    if Reads(p, issue.comments, issue.key, producers, chain) {
      var other :| AllVerified(p, issue.comments, issue.key, producers, other) && IsLineageOf(other, chain);
      OneVerification(p, issue.comments, issue.key, producers, vs, other);
    }
  }
}
