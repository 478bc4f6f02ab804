/**
 * Oversized entries: splitting the canonical payload into content-addressed chunks, the final
 * manifest that names them, and rebuilding the entry from both.
 */
module Chunks {
  import opened Common
  import opened Decimal
  import opened Workpad
  import Base64

  // ---------------------------------------------------------------- slices

  function Slices(b: seq<Byte>, n: nat): (s: seq<seq<Byte>>)
    requires n >= 1
    ensures |b| > 0 <==> |s| > 0
    decreases |b|
  {
    if |b| == 0 then [] else if |b| <= n then [b] else [b[..n]] + Slices(b[n..], n)
  }

  function Concat(parts: seq<seq<Byte>>): seq<Byte> {
    if |parts| == 0 then [] else parts[0] + Concat(parts[1..])
  }

  lemma {:induction false} SlicesConcatenate(b: seq<Byte>, n: nat)
    requires n >= 1
    ensures Concat(Slices(b, n)) == b
    decreases |b|
  {
    if |b| > n {
      SlicesConcatenate(b[n..], n);
      assert Slices(b, n)[1..] == Slices(b[n..], n);
      assert b == b[..n] + b[n..];
    } else if |b| > 0 {
      assert Slices(b, n)[1..] == [];
    }
  }

  /** Every slice but the last has exactly `n` bytes, and the last has at most that many. */
  lemma {:induction false} SliceLengths(b: seq<Byte>, n: nat, i: nat)
    requires n >= 1 && i < |Slices(b, n)|
    ensures 0 < |Slices(b, n)[i]| <= n
    ensures i < |Slices(b, n)| - 1 ==> |Slices(b, n)[i]| == n
    decreases |b|
  {
    if |b| > n {
      assert Slices(b, n)[1..] == Slices(b[n..], n);
      if i > 0 {
        SliceLengths(b[n..], n, i - 1);
      }
    }
  }

  /** The slices from `offset` on. */
  function RestOf(b: seq<Byte>, n: nat, offset: nat): seq<seq<Byte>>
    requires n >= 1
  {
    if offset < |b| then Slices(b[offset..], n) else []
  }

  lemma NextSlice(b: seq<Byte>, n: nat, offset: nat)
    requires n >= 1 && offset < |b|
    ensures var end := if offset + n < |b| then offset + n else |b|;
            RestOf(b, n, offset) == [b[offset..end]] + RestOf(b, n, offset + n)
  {
    var tail := b[offset..];
    if |tail| > n {
      assert tail[..n] == b[offset..offset + n] && tail[n..] == b[offset + n..];
    } else {
      assert tail == b[offset..|b|];
    }
  }

  method SliceBytes(b: seq<Byte>, n: nat) returns (slices: seq<seq<Byte>>)
    requires n >= 1
    ensures slices == Slices(b, n)
  {
    slices := [];
    var offset: nat := 0;
    assert b[0..] == b;
    while offset < |b|
      invariant slices + RestOf(b, n, offset) == Slices(b, n)
    {
      var end := if offset + n < |b| then offset + n else |b|;
      NextSlice(b, n, offset);
      slices := slices + [b[offset..end]];
      offset := offset + n;
    }
  }

  // ---------------------------------------------------------------- chunk groups

  datatype Group = Group(groupId: Identifier, payloadDigest: Digest, entry: Entry, chunks: seq<Chunk>)

  function HexDigit(v: nat): char
    requires v < 16
  {
    if v < 10 then Digit(v) else ('a' as int + (v - 10)) as char
  }

  function Hex(b: seq<Byte>): (s: string)
    ensures |s| == 2 * |b|
  {
    if |b| == 0 then "" else [HexDigit(b[0] / 16), HexDigit(b[0] % 16)] + Hex(b[1..])
  }

  function GroupIdOf(p: Platform, key: GroupKey): Identifier {
    Identifier("workpad-group/" + Hex(p.groupDigest(key)) + "/attempt-" + Padded(key.attempt))
  }

  function KeyOf(p: Platform, e: Entry, payload: seq<Byte>, n: nat, attempt: nat): GroupKey
    requires n >= 1
  {
    var slices := Slices(payload, n);
    GroupKey(e.producer, e.sessionId, e.entryId, e.revision, e.predecessor, e.continuation, p.sha256(payload),
             seq(|slices|, i requires 0 <= i < |slices| => p.sha256(slices[i])), attempt)
  }

  function ChunkOf(p: Platform, e: Entry, payload: seq<Byte>, n: nat, attempt: nat, i: nat): Chunk
    requires n >= 1 && i < |Slices(payload, n)|
  {
    var slices := Slices(payload, n);
    Chunk(e.producer, e.sessionId, e.entryId, e.revision, GroupIdOf(p, KeyOf(p, e, payload, n, attempt)), i, |slices|,
          p.sha256(slices[i]), p.sha256(payload), Base64.Encode(slices[i]))
  }

  /** `createFailureReportWorkpadChunkGroup`; `None` where it throws. */
  function GroupOf(p: Platform, e: Entry, n: nat, attempt: nat): Option<Group> {
    if n == 0 || p.encode(e).None? || |p.encode(e).value| == 0 then None
    else
      var payload := p.encode(e).value;
      Some(Group(GroupIdOf(p, KeyOf(p, e, payload, n, attempt)), p.sha256(payload), e,
                 seq(|Slices(payload, n)|, i requires 0 <= i < |Slices(payload, n)| => ChunkOf(p, e, payload, n, attempt, i))))
  }

  method CreateChunkGroup(p: Platform, e: Entry, n: nat, attempt: nat) returns (r: Option<Group>)
    ensures r == GroupOf(p, e, n, attempt)
  {
    if n < 1 || p.encode(e).None? {
      return None;
    }
    var payload := p.encode(e).value;
    var slices := SliceBytes(payload, n);
    if |slices| == 0 {
      return None;
    }
    var digests := seq(|slices|, i requires 0 <= i < |slices| => p.sha256(slices[i]));
    var key := GroupKey(e.producer, e.sessionId, e.entryId, e.revision, e.predecessor, e.continuation, p.sha256(payload),
                        digests, attempt);
    assert key == KeyOf(p, e, payload, n, attempt);
    var chunks := [];
    for i := 0 to |slices|
      invariant |chunks| == i
      invariant forall j :: 0 <= j < i ==> chunks[j] == ChunkOf(p, e, payload, n, attempt, j)
    {
      chunks := chunks + [Chunk(e.producer, e.sessionId, e.entryId, e.revision, GroupIdOf(p, key), i, |slices|, digests[i],
                                p.sha256(payload), Base64.Encode(slices[i]))];
    }
    assert chunks == GroupOf(p, e, n, attempt).value.chunks;
    r := Some(Group(GroupIdOf(p, key), p.sha256(payload), e, chunks));
  }

  /** Different attempts at one payload get different group ids, whatever the digests are. */
  lemma AttemptsHaveDifferentIds(p: Platform, a: GroupKey, b: GroupKey)
    requires GroupIdOf(p, a) == GroupIdOf(p, b)
    ensures a.attempt == b.attempt
  {
    var prefix := "workpad-group/" + Hex(p.groupDigest(a)) + "/attempt-";
    var other := "workpad-group/" + Hex(p.groupDigest(b)) + "/attempt-";
    assert |prefix| == |other|;
    assert (prefix + Padded(a.attempt))[|prefix|..] == Padded(a.attempt);
    assert (other + Padded(b.attempt))[|other|..] == Padded(b.attempt);
    PaddedIsInjective(a.attempt, b.attempt);
  }

  /** The zero-padded attempt keeps the length of a group id constant below 10^10 attempts. */
  lemma GroupIdLength(p: Platform, key: GroupKey)
    requires key.attempt < PADDED_LIMIT
    ensures |GroupIdOf(p, key).text| == 97
  {
    PaddedLength(key.attempt);
    assert |"workpad-group/" + Hex(p.groupDigest(key)) + "/attempt-"| == 87;
  }

  // ---------------------------------------------------------------- chunk comments

  function ContentOf(p: Platform, chunk: Chunk): Option<seq<Byte>> {
    match Base64.DecodeCanonical(chunk.content)
    case Some(bytes) => if p.sha256(bytes) == chunk.chunkDigest then Some(bytes) else None
    case None => None
  }

  /** `parseFailureReportWorkpadChunk`. */
  function ParseChunk(p: Platform, body: Body): Option<Chunk> {
    if body.ChunkBody? && ContentOf(p, body.chunk).Some? && body.chunk.index < body.chunk.count then Some(body.chunk) else None
  }

  lemma GroupChunkContent(p: Platform, e: Entry, n: nat, attempt: nat, i: nat)
    requires GroupOf(p, e, n, attempt).Some? && i < |GroupOf(p, e, n, attempt).value.chunks|
    ensures var chunk := GroupOf(p, e, n, attempt).value.chunks[i];
            && ContentOf(p, chunk) == Some(Slices(p.encode(e).value, n)[i])
            && ParseChunk(p, ChunkBody(chunk, Rendered)) == Some(chunk)
  {
    var slice := Slices(p.encode(e).value, n)[i];
    Base64.DecodeCanonicalIsInverse(Base64.Encode(slice), slice);
  }

  // ---------------------------------------------------------------- manifests

  /** References carry contiguous indices from zero and name different comments. */
  ghost predicate ManifestOrdered(m: Manifest) {
    && (forall i :: 0 <= i < |m.chunks| ==> m.chunks[i].index == i)
    && (forall i, j :: 0 <= i < j < |m.chunks| ==> m.chunks[i].commentRef != m.chunks[j].commentRef)
  }

  method AssertManifestOrdering(m: Manifest) returns (ok: bool)
    ensures ok <==> ManifestOrdered(m)
  {
    var refs: set<CommentRef> := {};
    for i := 0 to |m.chunks|
      invariant forall r :: r in refs <==> exists k :: 0 <= k < i && m.chunks[k].commentRef == r
      invariant forall k :: 0 <= k < i ==> m.chunks[k].index == k
      invariant forall k, j :: 0 <= k < j < i ==> m.chunks[k].commentRef != m.chunks[j].commentRef
    {
      if m.chunks[i].index != i || m.chunks[i].commentRef in refs {
        return false;
      }
      refs := refs + {m.chunks[i].commentRef};
    }
    ok := true;
  }

  ghost predicate ManifestOk(m: Manifest) {
    |m.chunks| >= 1 && ManifestOrdered(m)
  }

  /** The manifest `renderFailureReportWorkpadManifest` writes for a group. */
  function ManifestFor(g: Group, refs: seq<CommentRef>): Manifest
    requires |refs| == |g.chunks|
  {
    Manifest(g.entry.producer, g.entry.sessionId, g.entry.entryId, g.entry.revision, g.groupId, g.payloadDigest,
             g.entry.predecessor, g.entry.continuation,
             seq(|refs|, i requires 0 <= i < |refs| => ChunkReference(refs[i], g.chunks[i].index, g.chunks[i].chunkDigest)))
  }

  method RenderManifest(g: Group, refs: seq<CommentRef>) returns (r: Option<Manifest>)
    ensures r == if |refs| == |g.chunks| && ManifestOk(ManifestFor(g, refs)) then Some(ManifestFor(g, refs)) else None
  {
    if |refs| != |g.chunks| {
      return None;
    }
    var manifest := ManifestFor(g, refs);
    var ordered := AssertManifestOrdering(manifest);
    r := if |manifest.chunks| >= 1 && ordered then Some(manifest) else None;
  }

  // ---------------------------------------------------------------- reconstruction

  predicate ChunkFits(m: Manifest, reference: ChunkReference, chunk: Chunk) {
    && chunk.producer == m.producer && chunk.sessionId == m.sessionId && chunk.entryId == m.entryId
    && chunk.revision == m.revision && chunk.groupId == m.groupId && chunk.payloadDigest == m.payloadDigest
    && chunk.count == |m.chunks| && chunk.index == reference.index && chunk.chunkDigest == reference.chunkDigest
  }

  /** The bytes one reference contributes. */
  function PartOf(p: Platform, m: Manifest, byRef: map<CommentRef, Body>, reference: ChunkReference): Option<seq<Byte>> {
    if reference.commentRef !in byRef then None
    else match ParseChunk(p, byRef[reference.commentRef])
      case Some(chunk) => if ChunkFits(m, reference, chunk) then ContentOf(p, chunk) else None
      case None => None
  }

  /** The parts of all references in order, or `None` if one is missing or does not fit. */
  function PartsOf(p: Platform, m: Manifest, byRef: map<CommentRef, Body>, references: seq<ChunkReference>)
    : Option<seq<seq<Byte>>>
  {
    if |references| == 0 then Some([])
    else
      var last := |references| - 1;
      match (PartsOf(p, m, byRef, references[..last]), PartOf(p, m, byRef, references[last]))
      case (Some(parts), Some(part)) => Some(parts + [part])
      case (_, _) => None
  }

  predicate MetadataMatches(m: Manifest, e: Entry) {
    && e.producer == m.producer && e.sessionId == m.sessionId && e.entryId == m.entryId && e.revision == m.revision
    && e.predecessor == m.predecessor && e.continuation == m.continuation
  }

  /** `parseFailureReportWorkpadPayload`. */
  function ParsePayload(p: Platform, bytes: seq<Byte>): Option<Entry> {
    match p.decode(bytes)
    case Some(e) => if ContextMatches(e) then Some(e) else None
    case None => None
  }

  ghost function Reconstructed(p: Platform, m: Manifest, byRef: map<CommentRef, Body>): Option<Entry> {
    if !ManifestOk(m) || |byRef| != |m.chunks| then None
    else match PartsOf(p, m, byRef, m.chunks)
      case None => None
      case Some(parts) =>
        var payload := Concat(parts);
        if p.sha256(payload) != m.payloadDigest then None
        else match ParsePayload(p, payload)
          case Some(e) => if MetadataMatches(m, e) then Some(e) else None
          case None => None
  }

  function ByRef(comments: seq<(CommentRef, Body)>): (r: map<CommentRef, Body>)
    ensures forall c :: c in comments ==> c.0 in r
    ensures forall k :: k in r ==> (k, r[k]) in comments
  {
    if |comments| == 0 then map[]
    else
      var last := comments[|comments| - 1];
      assert comments == comments[..|comments| - 1] + [last];
      ByRef(comments[..|comments| - 1])[last.0 := last.1]
  }

  ghost predicate DistinctRefs(comments: seq<(CommentRef, Body)>) {
    forall i, j :: 0 <= i < j < |comments| ==> comments[i].0 != comments[j].0
  }

  lemma IndexSnoc(comments: seq<(CommentRef, Body)>, c: (CommentRef, Body))
    ensures ByRef(comments + [c]) == ByRef(comments)[c.0 := c.1]
  {
    assert (comments + [c])[..|comments|] == comments;
  }

  lemma DistinctSnoc(comments: seq<(CommentRef, Body)>, c: (CommentRef, Body))
    ensures DistinctRefs(comments + [c]) <==> DistinctRefs(comments) && c.0 !in ByRef(comments)
  {
    hide ByRef;
    var grown := comments + [c];
    if c.0 in ByRef(comments) {
      assert (c.0, ByRef(comments)[c.0]) in comments;
      var k :| 0 <= k < |comments| && comments[k] == (c.0, ByRef(comments)[c.0]);
      assert grown[k].0 == grown[|comments|].0;
    } else {
      forall k | 0 <= k < |comments|
        ensures grown[k].0 != c.0
      {
        assert comments[k] in comments;
      }
    }
    if DistinctRefs(grown) {
      assert forall k :: 0 <= k < |comments| ==> grown[k] == comments[k];
    }
  }

  lemma NothingIndexed(comments: seq<(CommentRef, Body)>)
    ensures comments[..0] == [] && ByRef(comments[..0]) == map[] && DistinctRefs(comments[..0])
  {
  }

  lemma {:induction false} RepetitionStays(comments: seq<(CommentRef, Body)>, i: nat)
    requires i <= |comments| && !DistinctRefs(comments[..i])
    ensures !DistinctRefs(comments)
  {
    var j, k :| 0 <= j < k < i && comments[..i][j].0 == comments[..i][k].0;
    assert comments[j].0 == comments[k].0;
  }

  method IndexComments(comments: seq<(CommentRef, Body)>) returns (r: Option<map<CommentRef, Body>>)
    ensures r == if DistinctRefs(comments) then Some(ByRef(comments)) else None
  {
    hide DistinctRefs, ByRef;
    NothingIndexed(comments);
    var byRef: map<CommentRef, Body> := map[];
    for i := 0 to |comments|
      invariant byRef == ByRef(comments[..i])
      invariant DistinctRefs(comments[..i])
    {
      assert comments[..i + 1] == comments[..i] + [comments[i]];
      IndexSnoc(comments[..i], comments[i]);
      DistinctSnoc(comments[..i], comments[i]);
      if comments[i].0 in byRef {
        RepetitionStays(comments, i + 1);
        return None;
      }
      byRef := byRef[comments[i].0 := comments[i].1];
    }
    assert comments[..|comments|] == comments;
    r := Some(byRef);
  }

  method CollectParts(p: Platform, m: Manifest, byRef: map<CommentRef, Body>) returns (r: Option<seq<seq<Byte>>>)
    ensures r == PartsOf(p, m, byRef, m.chunks)
  {
    var parts: seq<seq<Byte>> := [];
    for i := 0 to |m.chunks|
      invariant PartsOf(p, m, byRef, m.chunks[..i]) == Some(parts)
    {
      var part := PartOf(p, m, byRef, m.chunks[i]);
      if part.None? {
        NoPartsWithoutOne(p, m, byRef, m.chunks, i);
        return None;
      }
      OneMorePart(p, m, byRef, i);
      parts := parts + [part.value];
    }
    assert m.chunks[..|m.chunks|] == m.chunks;
    r := Some(parts);
  }

  lemma OneMorePart(p: Platform, m: Manifest, byRef: map<CommentRef, Body>, i: nat)
    requires i < |m.chunks|
    requires PartsOf(p, m, byRef, m.chunks[..i]).Some? && PartOf(p, m, byRef, m.chunks[i]).Some?
    ensures PartsOf(p, m, byRef, m.chunks[..i + 1])
            == Some(PartsOf(p, m, byRef, m.chunks[..i]).value + [PartOf(p, m, byRef, m.chunks[i]).value])
  {
    hide PartOf;
    assert m.chunks[..i + 1][..i] == m.chunks[..i];
  }

  method ReconstructManifest(p: Platform, m: Manifest, comments: seq<(CommentRef, Body)>) returns (r: Option<Entry>)
    ensures r == if DistinctRefs(comments) then Reconstructed(p, m, ByRef(comments)) else None
  {
    var ordered := AssertManifestOrdering(m);
    if |m.chunks| < 1 || !ordered {
      return None;
    }
    var byRef := IndexComments(comments);
    if byRef.None? || |byRef.value| != |m.chunks| {
      return None;
    }
    var parts := CollectParts(p, m, byRef.value);
    if parts.None? {
      return None;
    }
    var payload := Concat(parts.value);
    if p.sha256(payload) != m.payloadDigest {
      return None;
    }
    var parsed := ParsePayload(p, payload);
    r := if parsed.Some? && MetadataMatches(m, parsed.value) then parsed else None;
  }

  lemma {:induction false} NoPartsWithoutOne(p: Platform, m: Manifest, byRef: map<CommentRef, Body>,
                                             references: seq<ChunkReference>, i: nat)
    requires i < |references| && PartOf(p, m, byRef, references[i]).None?
    ensures PartsOf(p, m, byRef, references).None?
  {
    if i < |references| - 1 {
      NoPartsWithoutOne(p, m, byRef, references[..|references| - 1], i);
    }
  }

  // ---------------------------------------------------------------- round trip

  /** The chunk comments of a group are present under the given references and nothing else is. */
  ghost predicate HoldsGroup(byRef: map<CommentRef, Body>, g: Group, refs: seq<CommentRef>) {
    && |refs| == |g.chunks|
    && byRef.Keys == Elements(refs)
    && forall i :: 0 <= i < |refs| ==> refs[i] in byRef && byRef[refs[i]] == ChunkBody(g.chunks[i], Rendered)
  }

  lemma GroupPart(p: Platform, e: Entry, n: nat, attempt: nat, refs: seq<CommentRef>, byRef: map<CommentRef, Body>, i: nat)
    requires GroupOf(p, e, n, attempt).Some? && HoldsGroup(byRef, GroupOf(p, e, n, attempt).value, refs) && i < |refs|
    ensures var m := ManifestFor(GroupOf(p, e, n, attempt).value, refs);
            PartOf(p, m, byRef, m.chunks[i]) == Some(Slices(p.encode(e).value, n)[i])
  {
    GroupChunkContent(p, e, n, attempt, i);
  }

  lemma {:induction false} GroupParts(p: Platform, m: Manifest, byRef: map<CommentRef, Body>, slices: seq<seq<Byte>>, k: nat)
    requires k <= |m.chunks| == |slices|
    requires forall i :: 0 <= i < |slices| ==> PartOf(p, m, byRef, m.chunks[i]) == Some(slices[i])
    ensures PartsOf(p, m, byRef, m.chunks[..k]) == Some(slices[..k])
  {
    hide PartOf;
    if k > 0 {
      GroupParts(p, m, byRef, slices, k - 1);
      OneMorePart(p, m, byRef, k - 1);
      assert slices[..k] == slices[..k - 1] + [slices[k - 1]];
    }
  }

  lemma AllGroupParts(p: Platform, e: Entry, n: nat, attempt: nat, refs: seq<CommentRef>, byRef: map<CommentRef, Body>)
    requires GroupOf(p, e, n, attempt).Some? && HoldsGroup(byRef, GroupOf(p, e, n, attempt).value, refs)
    ensures var m := ManifestFor(GroupOf(p, e, n, attempt).value, refs);
            PartsOf(p, m, byRef, m.chunks) == Some(Slices(p.encode(e).value, n))
  {
    hide PartOf, PartsOf, ChunkOf, Slices;
    var m, slices := ManifestFor(GroupOf(p, e, n, attempt).value, refs), Slices(p.encode(e).value, n);
    forall i | 0 <= i < |refs|
      ensures PartOf(p, m, byRef, m.chunks[i]) == Some(slices[i])
    {
      GroupPart(p, e, n, attempt, refs, byRef, i);
    }
    GroupParts(p, m, byRef, slices, |refs|);
    assert m.chunks[..|refs|] == m.chunks && slices[..|refs|] == slices;
  }

  lemma GroupManifestOk(p: Platform, e: Entry, n: nat, attempt: nat, refs: seq<CommentRef>)
    requires GroupOf(p, e, n, attempt).Some? && NoDuplicates(refs)
    requires |refs| == |GroupOf(p, e, n, attempt).value.chunks|
    ensures ManifestOk(ManifestFor(GroupOf(p, e, n, attempt).value, refs))
  {
    var m := ManifestFor(GroupOf(p, e, n, attempt).value, refs);
    assert forall i :: 0 <= i < |m.chunks| ==> m.chunks[i].commentRef == refs[i];
  }

  /**
   * Splitting, publishing under any distinct references and rebuilding gives the entry back,
   * for every slice size and attempt.
   */
  lemma RoundTrip(p: Platform, e: Entry, n: nat, attempt: nat, refs: seq<CommentRef>, byRef: map<CommentRef, Body>)
    requires PlatformOk(p) && ContextMatches(e) && GroupOf(p, e, n, attempt).Some?
    requires NoDuplicates(refs) && HoldsGroup(byRef, GroupOf(p, e, n, attempt).value, refs)
    ensures var m := ManifestFor(GroupOf(p, e, n, attempt).value, refs);
            ManifestOk(m) && Reconstructed(p, m, byRef) == Some(e)
  {
    hide PartsOf, ManifestOrdered, Slices, Concat;
    GroupManifestOk(p, e, n, attempt, refs);
    AllGroupParts(p, e, n, attempt, refs, byRef);
    SlicesConcatenate(p.encode(e).value, n);
    DistinctCount(refs);
    assert |byRef| == |byRef.Keys|;
  }

  /** Two different payloads with one digest. */
  predicate Collides(p: Platform, a: seq<Byte>, b: seq<Byte>) {
    a != b && p.sha256(a) == p.sha256(b)
  }

  /**
   * A manifest that carries the digest of an entry's payload yields that entry or nothing. Were it
   * to yield another, the chunks themselves would hold a second payload with the same digest.
   */
  lemma ReconstructionIsAuthentic(p: Platform, m: Manifest, byRef: map<CommentRef, Body>, e: Entry)
    requires PlatformOk(p) && p.encode(e).Some? && m.payloadDigest == p.sha256(p.encode(e).value)
    requires Reconstructed(p, m, byRef).Some?
    ensures PartsOf(p, m, byRef, m.chunks).Some?
    ensures var payload := Concat(PartsOf(p, m, byRef, m.chunks).value);
            Reconstructed(p, m, byRef) == Some(e) || Collides(p, payload, p.encode(e).value)
  {
    hide PartsOf;
    var payload := Concat(PartsOf(p, m, byRef, m.chunks).value);
    if payload == p.encode(e).value {
      assert ParsePayload(p, payload) == Some(e);
    }
  }

  /** What is rebuilt is the payload the manifest's digest was taken of, unless that digest is shared. */
  lemma RebuiltPayload(p: Platform, m: Manifest, byRef: map<CommentRef, Body>, payload: seq<Byte>)
    requires Reconstructed(p, m, byRef).Some? && m.payloadDigest == p.sha256(payload)
    requires forall other: seq<Byte> :: !Collides(p, other, payload)
    ensures PartsOf(p, m, byRef, m.chunks).Some? && Concat(PartsOf(p, m, byRef, m.chunks).value) == payload
    ensures p.decode(payload) == Some(Reconstructed(p, m, byRef).value)
  {
    hide PartsOf;
    var rebuilt := Concat(PartsOf(p, m, byRef, m.chunks).value);
    assert !Collides(p, rebuilt, payload);
  }
}
