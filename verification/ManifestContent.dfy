/** What an accepted manifest says about the comments it refers to, and that nothing more is asked of them. */
module ManifestContent {
  import opened Common
  import Base64
  import opened Workpad
  import opened Chunks
  import opened Lineage
  import opened IssueWorkpad

  /** Comment `d` is the chunk at position `i` of the manifest in comment `c`, and carries the bytes `slice`. */
  predicate IsPart(p: Platform, c: Comment, m: Manifest, i: nat, d: Comment, slice: seq<Byte>)
    requires i < |m.chunks|
  {
    && m.chunks[i].index == i && d.id == m.chunks[i].commentRef && d != c && d.author == Some(m.producer.actor)
    && d.body.ChunkBody?
    && var chunk := d.body.chunk;
       && chunk.producer == m.producer && chunk.sessionId == m.sessionId && chunk.entryId == m.entryId && chunk.revision == m.revision
       && chunk.groupId == m.groupId && chunk.payloadDigest == m.payloadDigest
       && chunk.index == i && chunk.count == |m.chunks|
       && chunk.content == Base64.Encode(slice) && chunk.chunkDigest == p.sha256(slice) && m.chunks[i].chunkDigest == p.sha256(slice)
  }

  /** Reference `i` has exactly one comment behind it, and that is its chunk. */
  ghost predicate HasPart(p: Platform, comments: seq<Comment>, c: Comment, m: Manifest, i: nat, slice: seq<Byte>)
    requires i < |m.chunks|
  {
    exists d :: MatchesOf(comments, m.chunks[i].commentRef) == [d] && IsPart(p, c, m, i, d, slice)
  }

  predicate DistinctReferences(m: Manifest) {
    forall i, j :: 0 <= i < j < |m.chunks| ==> m.chunks[i].commentRef != m.chunks[j].commentRef
  }

  /** The references name different comments, each its chunk. */
  ghost predicate HasParts(p: Platform, comments: seq<Comment>, c: Comment, m: Manifest, slices: seq<seq<Byte>>) {
    && |slices| == |m.chunks| > 0
    && DistinctReferences(m)
    && forall i :: 0 <= i < |m.chunks| ==> HasPart(p, comments, c, m, i, slices[i])
  }

  /** The payload is the entry, under the digest the manifest gives, and says of itself what the manifest says of it. */
  predicate IsPayload(p: Platform, m: Manifest, payload: seq<Byte>, e: Entry) {
    && p.sha256(payload) == m.payloadDigest && p.decode(payload) == Some(e)
    && e.producer == m.producer && e.sessionId == m.sessionId && e.entryId == m.entryId && e.revision == m.revision
    && e.predecessor == m.predecessor && e.continuation == m.continuation
  }

  // ---------------------------------------------------------------- one part

  lemma PartIs(p: Platform, comments: seq<Comment>, c: Comment, m: Manifest, i: nat, slice: seq<Byte>)
    requires ManifestOk(m) && i < |m.chunks| && ReferencesOk(comments, c, m)
    ensures PartOf(p, m, Resolved(comments, m), m.chunks[i]) == Some(slice) <==> HasPart(p, comments, c, m, i, slice)
  {
    var found := MatchesOf(comments, m.chunks[i].commentRef);
    PartBody(p, comments, c, m, i);
    assert found == [found[0]];
    hide MatchesOf, Resolved, Base64.Encode, Base64.DecodeCanonical;
    if found[0].body.ChunkBody? {
      Base64.DecodeCanonicalIsInverse(found[0].body.chunk.content, slice);
    }
  }

  lemma PartBody(p: Platform, comments: seq<Comment>, c: Comment, m: Manifest, i: nat)
    requires i < |m.chunks| && ReferencesOk(comments, c, m)
    ensures |MatchesOf(comments, m.chunks[i].commentRef)| == 1
    ensures var d := MatchesOf(comments, m.chunks[i].commentRef)[0];
            && d in MatchesOf(comments, m.chunks[i].commentRef)
            && d.id == m.chunks[i].commentRef && d != c && d.author == Some(m.producer.actor)
            && m.chunks[i].commentRef in Resolved(comments, m) && Resolved(comments, m)[m.chunks[i].commentRef] == d.body
  {
    hide MatchesOf;
    assert ReferenceOk(comments, c, m.producer.actor, m.chunks[i].commentRef);
    assert MatchesOf(comments, m.chunks[i].commentRef)[0] in MatchesOf(comments, m.chunks[i].commentRef);
    assert m.chunks[i] in m.chunks;
  }

  // ---------------------------------------------------------------- all parts

  lemma {:induction false} PartsAt(p: Platform, m: Manifest, byRef: map<CommentRef, Body>, references: seq<ChunkReference>)
    requires PartsOf(p, m, byRef, references).Some?
    ensures var parts := PartsOf(p, m, byRef, references).value;
            && |parts| == |references|
            && forall i :: 0 <= i < |references| ==> PartOf(p, m, byRef, references[i]) == Some(parts[i])
  {
    hide PartOf;
    if |references| > 0 {
      PartsAt(p, m, byRef, references[..|references| - 1]);
    }
  }

  function RefsOf(m: Manifest): seq<CommentRef> {
    seq(|m.chunks|, i requires 0 <= i < |m.chunks| => m.chunks[i].commentRef)
  }

  lemma ReferencesAreDistinct(m: Manifest)
    requires DistinctReferences(m)
    ensures |ReferencedBy(m)| == |m.chunks|
  {
    var refs := RefsOf(m);
    DistinctCount(refs);
    forall r | r in Elements(refs)
      ensures r in ReferencedBy(m)
    {
      var i :| 0 <= i < |refs| && refs[i] == r;
      assert m.chunks[i] in m.chunks;
    }
    forall r | r in ReferencedBy(m)
      ensures r in refs
    {
      var i :| 0 <= i < |m.chunks| && m.chunks[i].commentRef == r;
      assert refs[i] == r;
    }
    assert Elements(refs) == ReferencedBy(m);
  }

  lemma ResolvedHasParts(p: Platform, comments: seq<Comment>, c: Comment, m: Manifest)
    requires ManifestOk(m) && ReferencesOk(comments, c, m) && PartsOf(p, m, Resolved(comments, m), m.chunks).Some?
    ensures HasParts(p, comments, c, m, PartsOf(p, m, Resolved(comments, m), m.chunks).value)
  {
    var slices := PartsOf(p, m, Resolved(comments, m), m.chunks).value;
    PartsAt(p, m, Resolved(comments, m), m.chunks);
    hide PartsOf, PartOf, Resolved, HasPart, ReferencesOk;
    forall i | 0 <= i < |m.chunks|
      ensures HasPart(p, comments, c, m, i, slices[i])
    {
      PartIs(p, comments, c, m, i, slices[i]);
    }
  }

  lemma PartsAreReferred(p: Platform, comments: seq<Comment>, c: Comment, m: Manifest, slices: seq<seq<Byte>>)
    requires HasParts(p, comments, c, m, slices)
    ensures ManifestOk(m) && ReferencesOk(comments, c, m)
  {
    hide MatchesOf;
    forall i | 0 <= i < |m.chunks|
      ensures m.chunks[i].index == i && ReferenceOk(comments, c, m.producer.actor, m.chunks[i].commentRef)
    {
      assert HasPart(p, comments, c, m, i, slices[i]);
    }
  }

  lemma PartsFit(p: Platform, comments: seq<Comment>, c: Comment, m: Manifest, slices: seq<seq<Byte>>)
    requires ManifestOk(m) && ReferencesOk(comments, c, m) && HasParts(p, comments, c, m, slices)
    ensures forall i :: 0 <= i < |slices| ==> PartOf(p, m, Resolved(comments, m), m.chunks[i]) == Some(slices[i])
  {
    hide PartOf, Resolved, HasPart, ManifestOk, DistinctReferences, MatchesOf;
    forall i | 0 <= i < |slices|
      ensures PartOf(p, m, Resolved(comments, m), m.chunks[i]) == Some(slices[i])
    {
      PartIs(p, comments, c, m, i, slices[i]);
    }
  }

  lemma PartsResolve(p: Platform, comments: seq<Comment>, c: Comment, m: Manifest, slices: seq<seq<Byte>>)
    requires HasParts(p, comments, c, m, slices)
    ensures ManifestOk(m) && ReferencesOk(comments, c, m) && |Resolved(comments, m)| == |m.chunks|
    ensures PartsOf(p, m, Resolved(comments, m), m.chunks) == Some(slices)
  {
    PartsAreReferred(p, comments, c, m, slices);
    ResolvedCount(comments, c, m);
    PartsFit(p, comments, c, m, slices);
    hide PartOf, PartsOf, Resolved, HasPart, ManifestOk, DistinctReferences, MatchesOf;
    AllParts(p, m, Resolved(comments, m), slices);
  }

  lemma AllParts(p: Platform, m: Manifest, byRef: map<CommentRef, Body>, slices: seq<seq<Byte>>)
    requires |slices| == |m.chunks|
    requires forall i :: 0 <= i < |slices| ==> PartOf(p, m, byRef, m.chunks[i]) == Some(slices[i])
    ensures PartsOf(p, m, byRef, m.chunks) == Some(slices)
  {
    hide PartOf, PartsOf;
    GroupParts(p, m, byRef, slices, |m.chunks|);
    assert m.chunks[..|m.chunks|] == m.chunks && slices[..|m.chunks|] == slices;
  }

  lemma ResolvedCount(comments: seq<Comment>, c: Comment, m: Manifest)
    requires DistinctReferences(m) && ReferencesOk(comments, c, m)
    ensures |Resolved(comments, m)| == |m.chunks|
  {
    hide MatchesOf, DistinctReferences;
    assert Resolved(comments, m).Keys == ReferencedBy(m);
    ReferencesAreDistinct(m);
  }

  // ---------------------------------------------------------------- the manifest

  /**
   * A manifest comment is accepted as entry `e` exactly if a registered producer wrote it, each of its
   * references has one comment behind it, by the same account and none of them the manifest itself,
   * these hold the parts of the payload in order, each under its own digest and for this very group,
   * and the payload is `e`, under the manifest's digest, with the manifest's metadata, bound to this Issue.
   */
  lemma ManifestIsAcceptedIff(p: Platform, comments: seq<Comment>, key: IssueKey, producers: seq<Producer>, c: Comment, e: Entry)
    requires c.body.ManifestBody?
    ensures var m := c.body.manifest;
            VerifiedOf(p, comments, key, producers, c)
              == Some(Verified(c, [e], m.sessionId, m.producer, m.predecessor, m.continuation, AsManifest))
            <==> && m.producer in producers && c.author == Some(m.producer.actor) && EntryBound(e, key, c.id)
                 && exists slices :: HasParts(p, comments, c, m, slices) && IsPayload(p, m, Concat(slices), e)
  {
    var m := c.body.manifest;
    if VerifiedOf(p, comments, key, producers, c) == Some(ManifestView(c, e)) {
      AcceptedHasParts(p, comments, key, producers, c, e);
    } else if m.producer in producers && c.author == Some(m.producer.actor) && EntryBound(e, key, c.id) {
      hide VerifiedOf, HasParts, Concat, IsPayload, EntryBound;
      if slices :| HasParts(p, comments, c, m, slices) && IsPayload(p, m, Concat(slices), e) {
        PartsAreAccepted(p, comments, key, producers, c, e, slices);
      }
    }
  }

  lemma PartsReconstruct(p: Platform, comments: seq<Comment>, c: Comment, m: Manifest, e: Entry, slices: seq<seq<Byte>>)
    requires HasParts(p, comments, c, m, slices) && IsPayload(p, m, Concat(slices), e) && ContextMatches(e)
    ensures ManifestOk(m) && ReferencesOk(comments, c, m) && Reconstructed(p, m, Resolved(comments, m)) == Some(e)
  {
    PartsResolve(p, comments, c, m, slices);
    hide PartsOf, HasParts, Resolved, Concat, ReferencesOk, ManifestOk, ContextMatches;
  }

  lemma PartsAreAccepted(p: Platform, comments: seq<Comment>, key: IssueKey, producers: seq<Producer>, c: Comment, e: Entry,
                         slices: seq<seq<Byte>>)
    requires c.body.ManifestBody? && HasParts(p, comments, c, c.body.manifest, slices)
    requires IsPayload(p, c.body.manifest, Concat(slices), e) && EntryBound(e, key, c.id)
    requires c.body.manifest.producer in producers && c.author == Some(c.body.manifest.producer.actor)
    ensures VerifiedOf(p, comments, key, producers, c) == Some(ManifestView(c, e))
  {
    assert ContextMatches(e);
    PartsReconstruct(p, comments, c, c.body.manifest, e, slices);
    hide HasParts, IsPayload, Reconstructed, Resolved, ReferencesOk, ManifestOk, EntryBound, ContextMatches;
  }

  lemma AcceptedHasParts(p: Platform, comments: seq<Comment>, key: IssueKey, producers: seq<Producer>, c: Comment, e: Entry)
    requires c.body.ManifestBody? && VerifiedOf(p, comments, key, producers, c) == Some(ManifestView(c, e))
    ensures var m := c.body.manifest;
            && m.producer in producers && c.author == Some(m.producer.actor) && EntryBound(e, key, c.id)
            && exists slices :: HasParts(p, comments, c, m, slices) && IsPayload(p, m, Concat(slices), e)
  {
    var m := c.body.manifest;
    hide PartsOf, HasParts, Resolved, Concat, EntryBound, ManifestOk, ReferencesOk, ContextMatches;
    ResolvedHasParts(p, comments, c, m);
    var slices := PartsOf(p, m, Resolved(comments, m), m.chunks).value;
    assert IsPayload(p, m, Concat(slices), e);
  }
}
