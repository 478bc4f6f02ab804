/** How verification and the lineage react to a new comment and to an extended head comment. */
module IssueChanges {
  import opened Common
  import opened Workpad
  import opened Chunks
  import opened Lineage
  import opened IssueWorkpad

  /** An id the provider has not used and no manifest mentions. */
  ghost predicate Fresh(comments: seq<Comment>, id: CommentRef) {
    forall c :: c in comments ==> c.id != id && (c.body.ManifestBody? ==> id !in ReferencedBy(c.body.manifest))
  }

  // ---------------------------------------------------------------- one more comment

  lemma MatchesAfterAppend(comments: seq<Comment>, x: Comment, ref: CommentRef)
    ensures MatchesOf(comments + [x], ref) == if x.id == ref then MatchesOf(comments, ref) + [x] else MatchesOf(comments, ref)
  {
    assert (comments + [x])[..|comments|] == comments;
  }

  lemma ManagedAfterAppend(comments: seq<Comment>, x: Comment)
    ensures ManagedOf(comments + [x]) == if IsManaged(x.body) then ManagedOf(comments) + [x] else ManagedOf(comments)
  {
    assert (comments + [x])[..|comments|] == comments;
  }

  /** The references of a manifest resolve alike in both comment lists. */
  ghost predicate SameMatches(a: seq<Comment>, b: seq<Comment>, m: Manifest) {
    forall ref :: ref in ReferencedBy(m) ==> MatchesOf(a, ref) == MatchesOf(b, ref)
  }

  lemma SameMatchesSameEntry(p: Platform, a: seq<Comment>, b: seq<Comment>, key: IssueKey, producers: seq<Producer>, c: Comment)
    requires c.body.ManifestBody? && SameMatches(a, b, c.body.manifest)
    ensures ManifestEntry(p, a, key, producers, c) == ManifestEntry(p, b, key, producers, c)
  {
    hide ManifestOk, Reconstructed, EntryBound, MatchesOf;
    var m := c.body.manifest;
    assert forall i :: 0 <= i < |m.chunks| ==> m.chunks[i].commentRef in ReferencedBy(m);
    assert ReferencesOk(a, c, m) <==> ReferencesOk(b, c, m);
    if ReferencesOk(a, c, m) {
      assert Resolved(a, m) == Resolved(b, m);
    }
  }

  lemma VerifiedAfterAppend(p: Platform, comments: seq<Comment>, key: IssueKey, producers: seq<Producer>, c: Comment, x: Comment)
    requires c in comments && Fresh(comments, x.id)
    ensures VerifiedOf(p, comments + [x], key, producers, c) == VerifiedOf(p, comments, key, producers, c)
  {
    hide ManifestEntry, EntriesAgree, MatchesOf;
    if c.body.ManifestBody? {
      forall ref | ref in ReferencedBy(c.body.manifest)
        ensures MatchesOf(comments + [x], ref) == MatchesOf(comments, ref)
      {
        MatchesAfterAppend(comments, x, ref);
      }
      SameMatchesSameEntry(p, comments + [x], comments, key, producers, c);
    }
  }

  lemma AllVerifiedAfterAppend(p: Platform, comments: seq<Comment>, key: IssueKey, producers: seq<Producer>, x: Comment, vs: seq<Verified>)
    requires Fresh(comments, x.id) && !IsManaged(x.body)
    ensures AllVerified(p, comments + [x], key, producers, vs) <==> AllVerified(p, comments, key, producers, vs)
  {
    hide VerifiedOf, ManagedOf, Fresh;
    ManagedAfterAppend(comments, x);
    forall i | 0 <= i < |ManagedOf(comments)|
      ensures VerifiedOf(p, comments + [x], key, producers, ManagedOf(comments)[i])
              == VerifiedOf(p, comments, key, producers, ManagedOf(comments)[i])
    {
      assert ManagedOf(comments)[i] in ManagedOf(comments);
      VerifiedAfterAppend(p, comments, key, producers, ManagedOf(comments)[i], x);
    }
  }

  /** A comment without the managed marker changes nothing for readers, whoever wrote it. */
  lemma UnmanagedIsInvisible(p: Platform, comments: seq<Comment>, key: IssueKey, producers: seq<Producer>, x: Comment, chain: seq<Verified>)
    requires Fresh(comments, x.id) && !IsManaged(x.body)
    ensures Reads(p, comments + [x], key, producers, chain) <==> Reads(p, comments, key, producers, chain)
  {
    hide AllVerified, IsLineageOf, Fresh;
    if Reads(p, comments, key, producers, chain) {
      var vs :| AllVerified(p, comments, key, producers, vs) && IsLineageOf(vs, chain);
      AllVerifiedAfterAppend(p, comments, key, producers, x, vs);
    }
    if Reads(p, comments + [x], key, producers, chain) {
      var vs :| AllVerified(p, comments + [x], key, producers, vs) && IsLineageOf(vs, chain);
      AllVerifiedAfterAppend(p, comments, key, producers, x, vs);
    }
  }

  /** A verified comment that continues the chain becomes its new end. */
  lemma ManagedExtends(p: Platform, comments: seq<Comment>, key: IssueKey, producers: seq<Producer>, x: Comment, v: Verified,
                       chain: seq<Verified>)
    requires Fresh(comments, x.id) && IsManaged(x.body) && VerifiedOf(p, comments + [x], key, producers, x) == Some(v)
    requires Reads(p, comments, key, producers, chain) && IsChain(chain + [v])
    ensures Reads(p, comments + [x], key, producers, chain + [v])
  {
    hide VerifiedOf, ManagedOf, IsChain, Fresh;
    var vs :| AllVerified(p, comments, key, producers, vs) && IsLineageOf(vs, chain);
    ManagedAfterAppend(comments, x);
    forall i | 0 <= i < |vs|
      ensures VerifiedOf(p, comments + [x], key, producers, ManagedOf(comments)[i]) == Some(vs[i])
    {
      assert ManagedOf(comments)[i] in ManagedOf(comments);
      VerifiedAfterAppend(p, comments, key, producers, ManagedOf(comments)[i], x);
    }
    assert AllVerified(p, comments + [x], key, producers, vs + [v]);
    assert IsLineageOf(vs + [v], chain + [v]);
  }

  /** On an Issue without managed comments the first verified one is the whole lineage. */
  lemma ManagedOpens(p: Platform, comments: seq<Comment>, key: IssueKey, producers: seq<Producer>, x: Comment, v: Verified)
    requires |ManagedOf(comments)| == 0 && IsManaged(x.body) && VerifiedOf(p, comments + [x], key, producers, x) == Some(v)
    requires IsChain([v])
    ensures Reads(p, comments + [x], key, producers, [v])
  {
    hide VerifiedOf, ManagedOf, IsChain;
    ManagedAfterAppend(comments, x);
    assert ManagedOf(comments + [x]) == [x];
    assert AllVerified(p, comments + [x], key, producers, [v]);
    assert IsLineageOf([v], [v]);
  }

  // ---------------------------------------------------------------- a rewritten comment

  lemma {:induction false} MatchesAfterUpdate(comments: seq<Comment>, at: nat, x: Comment, ref: CommentRef)
    requires at < |comments| && x.id == comments[at].id && x.id != ref
    ensures MatchesOf(comments[at := x], ref) == MatchesOf(comments, ref)
  {
    var last := |comments| - 1;
    if at < last {
      MatchesAfterUpdate(comments[..last], at, x, ref);
      assert comments[at := x][..last] == comments[..last][at := x];
    } else {
      assert comments[at := x][..last] == comments[..last];
    }
  }

  lemma {:induction false} ManagedAfterUpdate(comments: seq<Comment>, at: nat, x: Comment) returns (k: nat)
    requires at < |comments| && IsManaged(comments[at].body) && IsManaged(x.body)
    ensures k < |ManagedOf(comments)| && ManagedOf(comments)[k] == comments[at]
    ensures ManagedOf(comments[at := x]) == ManagedOf(comments)[k := x]
  {
    var last := |comments| - 1;
    if at < last {
      k := ManagedAfterUpdate(comments[..last], at, x);
      assert comments[at := x][..last] == comments[..last][at := x];
    } else {
      assert comments[at := x][..last] == comments[..last];
      k := |ManagedOf(comments)| - 1;
    }
  }

  lemma OnlyMatch(comments: seq<Comment>, target: Comment)
    requires target in comments && |MatchesOf(comments, target.id)| == 1
    ensures MatchesOf(comments, target.id)[0] == target
  {
    assert target in MatchesOf(comments, target.id);
  }

  lemma NoPartFromEntries(p: Platform, m: Manifest, byRef: map<CommentRef, Body>, reference: ChunkReference)
    requires reference.commentRef in byRef && !byRef[reference.commentRef].ChunkBody?
    ensures PartOf(p, m, byRef, reference).None?
  {
  }

  /** A readable manifest never refers to a comment that holds entries. */
  lemma ManifestRefersToChunks(p: Platform, comments: seq<Comment>, key: IssueKey, producers: seq<Producer>, c: Comment, target: Comment)
    requires c.body.ManifestBody? && ManifestEntry(p, comments, key, producers, c).Some?
    requires target in comments && !target.body.ChunkBody?
    ensures target.id !in ReferencedBy(c.body.manifest)
  {
    hide ManifestOk, EntryBound, AuthoredBy, MatchesOf, PartOf, PartsOf;
    var m := c.body.manifest;
    if target.id in ReferencedBy(m) {
      var i :| 0 <= i < |m.chunks| && m.chunks[i].commentRef == target.id;
      assert ReferenceOk(comments, c, m.producer.actor, m.chunks[i].commentRef);
      OnlyMatch(comments, target);
      var byRef := Resolved(comments, m);
      NoPartFromEntries(p, m, byRef, m.chunks[i]);
      NoPartsWithoutOne(p, m, byRef, m.chunks, i);
    }
  }

  lemma VerifiedAfterUpdate(p: Platform, comments: seq<Comment>, key: IssueKey, producers: seq<Producer>, at: nat, x: Comment, c: Comment)
    requires at < |comments| && x.id == comments[at].id && comments[at].body.EntriesBody?
    requires VerifiedOf(p, comments, key, producers, c).Some?
    ensures VerifiedOf(p, comments[at := x], key, producers, c) == VerifiedOf(p, comments, key, producers, c)
  {
    hide ManifestEntry, EntriesAgree, MatchesOf;
    if c.body.ManifestBody? {
      ManifestRefersToChunks(p, comments, key, producers, c, comments[at]);
      forall ref | ref in ReferencedBy(c.body.manifest)
        ensures MatchesOf(comments[at := x], ref) == MatchesOf(comments, ref)
      {
        MatchesAfterUpdate(comments, at, x, ref);
      }
      SameMatchesSameEntry(p, comments[at := x], comments, key, producers, c);
    }
  }

  /** Rewriting the comment at the end of the chain replaces just that member. */
  lemma HeadRewritten(p: Platform, comments: seq<Comment>, key: IssueKey, producers: seq<Producer>, at: nat, x: Comment, v: Verified,
                      chain: seq<Verified>)
    requires at < |comments| && x.id == comments[at].id && comments[at].body.EntriesBody? && IsManaged(x.body)
    requires VerifiedOf(p, comments[at := x], key, producers, x) == Some(v)
    requires Reads(p, comments, key, producers, chain) && |chain| > 0
    requires VerifiedOf(p, comments, key, producers, comments[at]) == Some(chain[|chain| - 1])
    requires IsChain(chain[|chain| - 1 := v])
    ensures Reads(p, comments[at := x], key, producers, chain[|chain| - 1 := v])
  {
    hide VerifiedOf, ManagedOf, IsChain;
    var vs :| AllVerified(p, comments, key, producers, vs) && IsLineageOf(vs, chain);
    var k := ManagedAfterUpdate(comments, at, x);
    forall i | 0 <= i < |vs| && i != k
      ensures VerifiedOf(p, comments[at := x], key, producers, ManagedOf(comments)[i]) == Some(vs[i])
    {
      VerifiedAfterUpdate(p, comments, key, producers, at, x, ManagedOf(comments)[i]);
    }
    var n := |chain| - 1;
    assert vs[k] == chain[n];
    assert AllVerified(p, comments[at := x], key, producers, vs[k := v]);
    assert IsLineageOf(vs[k := v], chain[n := v]) by {
      UpdatedMultiset(vs, k, chain, n, v);
    }
  }

  lemma UpdatedMultiset(a: seq<Verified>, i: nat, b: seq<Verified>, j: nat, v: Verified)
    requires i < |a| && j < |b| && a[i] == b[j] && multiset(a) == multiset(b)
    ensures multiset(a[i := v]) == multiset(b[j := v])
  {
    ReplacedMultiset(a, i, v);
    ReplacedMultiset(b, j, v);
  }

  lemma ReplacedMultiset(a: seq<Verified>, i: nat, v: Verified)
    requires i < |a|
    ensures multiset(a[i := v]) == multiset(a) - multiset{a[i]} + multiset{v}
  {
    assert a == a[..i] + [a[i]] + a[i + 1..];
    assert a[i := v] == a[..i] + [v] + a[i + 1..];
  }
}
