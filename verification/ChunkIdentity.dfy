/** Chunk groups are addressed by content: their id tells what they were made of. */
module ChunkIdentity {
  import opened Common
  import opened Decimal
  import opened Workpad
  import opened Chunks

  lemma {:induction false} HexIsInjective(a: seq<Byte>, b: seq<Byte>)
    requires Hex(a) == Hex(b)
    ensures a == b
  {
    if |a| > 0 {
      HexUnfolds(a);
      HexUnfolds(b);
      HexIsInjective(a[1..], b[1..]);
      assert a == [a[0]] + a[1..] && b == [b[0]] + b[1..];
    }
  }

  lemma HexUnfolds(a: seq<Byte>)
    requires |a| > 0
    ensures Hex(a)[0] == HexDigit(a[0] / 16) && Hex(a)[1] == HexDigit(a[0] % 16) && Hex(a)[2..] == Hex(a[1..])
  {
  }

  lemma GroupIdTellsKey(p: Platform, a: GroupKey, b: GroupKey)
    requires GroupIdOf(p, a) == GroupIdOf(p, b)
    ensures p.groupDigest(a) == p.groupDigest(b) && a.attempt == b.attempt
  {
    AttemptsHaveDifferentIds(p, a, b);
    var front := "workpad-group/";
    var s, t := GroupIdOf(p, a).text, GroupIdOf(p, b).text;
    assert s[|front|..][..64] == Hex(p.groupDigest(a)) && t[|front|..][..64] == Hex(p.groupDigest(b));
    HexIsInjective(p.groupDigest(a), p.groupDigest(b));
  }

  /** Two things with one group digest. */
  ghost predicate GroupDigestCollides(p: Platform) {
    exists a: GroupKey, b: GroupKey :: p.groupDigest(a) == p.groupDigest(b) && a != b
  }

  /** Everything but the bytes themselves agrees. */
  predicate SameGroup(g: Group, h: Group) {
    && g.entry.producer == h.entry.producer && g.entry.sessionId == h.entry.sessionId && g.entry.entryId == h.entry.entryId
    && g.entry.revision == h.entry.revision && g.entry.predecessor == h.entry.predecessor
    && g.entry.continuation == h.entry.continuation && g.payloadDigest == h.payloadDigest && |g.chunks| == |h.chunks|
    && forall i :: 0 <= i < |g.chunks| ==> g.chunks[i].chunkDigest == h.chunks[i].chunkDigest
  }

  /** Groups with one id are the same attempt at the same parts of the same entry, unless the group digest collides. */
  lemma GroupIdTellsGroup(p: Platform, e: Entry, n: nat, attempt: nat, f: Entry, m: nat, other: nat)
    requires GroupOf(p, e, n, attempt).Some? && GroupOf(p, f, m, other).Some?
    requires GroupOf(p, e, n, attempt).value.groupId == GroupOf(p, f, m, other).value.groupId
    ensures attempt == other
    ensures SameGroup(GroupOf(p, e, n, attempt).value, GroupOf(p, f, m, other).value) || GroupDigestCollides(p)
  {
    var a, b := KeyOf(p, e, p.encode(e).value, n, attempt), KeyOf(p, f, p.encode(f).value, m, other);
    GroupIdTellsKey(p, a, b);
    if a == b {
      GroupHasKey(p, e, n, attempt);
      GroupHasKey(p, f, m, other);
    }
  }

  /** The group shows everything its key covers. */
  lemma GroupHasKey(p: Platform, e: Entry, n: nat, attempt: nat)
    requires GroupOf(p, e, n, attempt).Some?
    ensures var g, key := GroupOf(p, e, n, attempt).value, KeyOf(p, e, p.encode(e).value, n, attempt);
            && g.entry == e && key.producer == e.producer && key.sessionId == e.sessionId && key.entryId == e.entryId
            && key.revision == e.revision && key.predecessor == e.predecessor && key.continuation == e.continuation
            && key.payloadDigest == g.payloadDigest && |key.chunkDigests| == |g.chunks|
            && forall i :: 0 <= i < |g.chunks| ==> g.chunks[i].chunkDigest == key.chunkDigests[i]
  {
  }
}
