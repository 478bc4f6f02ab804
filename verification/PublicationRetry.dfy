/** Retrying an interrupted chunked publication with the same inputs. */
module PublicationRetry {
  import opened Common
  import opened Workpad
  import opened Chunks
  import opened ChunkReuse
  import opened IssueChanges
  import opened IssueGateway

  ghost predicate Increasing(s: seq<nat>) {
    forall i, j :: 0 <= i < j < |s| ==> s[i] < s[j]
  }

  lemma {:induction false} MissingIndices(refs: seq<Option<CommentRef>>)
    ensures Increasing(Missing(refs))
    ensures forall i: nat :: i in Missing(refs) <==> i < |refs| && refs[i].None?
  {
    if |refs| > 0 {
      var init := refs[..|refs| - 1];
      MissingIndices(init);
      assert forall k :: 0 <= k < |Missing(init)| ==> Missing(init)[k] < |init|;
      assert forall i :: 0 <= i < |init| ==> init[i] == refs[i];
    }
  }

  lemma HasMember(s: seq<nat>)
    requires |s| > 0
    ensures s[0] in s
  {
  }

  /** The last of an increasing sequence is its largest and occurs once. */
  lemma LastIsLargest(s: seq<nat>)
    requires Increasing(s) && |s| > 0
    ensures forall i: nat :: i in s <==> i == s[|s| - 1] || i in s[..|s| - 1]
    ensures (forall i: nat :: i in s ==> i <= s[|s| - 1]) && s[|s| - 1] !in s[..|s| - 1] && Increasing(s[..|s| - 1])
  {
    assert s == s[..|s| - 1] + [s[|s| - 1]];
  }

  lemma WithoutCommon(a: seq<nat>, a': seq<nat>, b: seq<nat>, b': seq<nat>, x: nat)
    requires forall i: nat :: i in a ==> i in b
    requires x !in a' && forall i: nat :: i in a' ==> i in a
    requires forall i: nat :: i in b ==> i == x || i in b'
    ensures forall i: nat :: i in a' ==> i in b'
  {
  }

  lemma {:induction false} SameIncreasing(a: seq<nat>, b: seq<nat>)
    requires Increasing(a) && Increasing(b) && forall i: nat :: i in a <==> i in b
    ensures a == b
  {
    hide Increasing;
    if |a| == 0 {
      if |b| > 0 {
        HasMember(b);
      }
    } else {
      HasMember(a);
      LastIsLargest(a);
      LastIsLargest(b);
      var x := a[|a| - 1];
      assert b[|b| - 1] in b && x in a;
      assert b[|b| - 1] == x;
      WithoutCommon(a, a[..|a| - 1], b, b[..|b| - 1], x);
      WithoutCommon(b, b[..|b| - 1], a, a[..|a| - 1], x);
      SameIncreasing(a[..|a| - 1], b[..|b| - 1]);
      assert a == a[..|a| - 1] + [x] && b == b[..|b| - 1] + [x];
    }
  }

  lemma ProvisionalAfterAppend(comments: seq<Comment>, x: Comment)
    requires IsProvisional(x.body)
    ensures ProvisionalOf(comments + [x]) == ProvisionalOf(comments) + [x]
  {
    assert (comments + [x])[..|comments|] == comments;
  }

  lemma {:induction false} ProvisionalAfterChunks(comments: seq<Comment>, written: seq<Comment>)
    requires forall k :: 0 <= k < |written| ==> written[k].body.ChunkBody?
    ensures ProvisionalOf(comments + written) == ProvisionalOf(comments) + written
  {
    hide ProvisionalOf;
    if |written| == 0 {
      assert comments + written == comments;
    } else {
      var n := |written| - 1;
      ProvisionalAfterChunks(comments, written[..n]);
      ProvisionalAfterAppend(comments + written[..n], written[n]);
      assert comments + written == comments + written[..n] + [written[n]];
    }
  }

  /** Chunks written for missing indices extend the selection they were written for. */
  lemma WrittenExtend(p: Platform, e: Entry, n: nat, attempt: nat, actor: ActorId, refs: seq<Option<CommentRef>>, written: seq<Comment>)
    requires GroupOf(p, e, n, attempt).Some? && |refs| == |GroupOf(p, e, n, attempt).value.chunks|
    requires ChunksWritten(GroupOf(p, e, n, attempt).value, refs, actor, written)
    ensures var g := GroupOf(p, e, n, attempt).value;
            && Extends(p, g, actor, refs, written)
            && forall k :: 0 <= k < |written| ==> IsCandidate(p, g, written[k]) && written[k].body.chunk.index == Missing(refs)[k]
  {
    var g := GroupOf(p, e, n, attempt).value;
    MissingIndices(refs);
    hide Missing;
    forall k | 0 <= k < |written|
      ensures IsCandidate(p, g, written[k]) && IsExact(g, actor, written[k]) && written[k].body.chunk.index == Missing(refs)[k]
      ensures refs[Missing(refs)[k]].None?
    {
      assert Missing(refs)[k] in Missing(refs);
      GroupChunkContent(p, e, n, attempt, Missing(refs)[k]);
    }
  }

  /** A retry with the same inputs settles on the same group and has only the unwritten chunks left to write. */
  lemma RetryWritesTheRest(p: Platform, e: Entry, n: nat, actor: ActorId, comments: seq<Comment>, written: seq<Comment>,
                           attempt: nat, refs: seq<Option<CommentRef>>, again: nat, refs': seq<Option<CommentRef>>)
    requires Selected(p, e, n, actor, ProvisionalOf(comments), attempt, refs)
    requires ChunksWritten(GroupOf(p, e, n, attempt).value, refs, actor, written)
    requires Selected(p, e, n, actor, ProvisionalOf(comments + written), again, refs')
    ensures again == attempt
    ensures Missing(refs') == Missing(refs)[|written|..]
  {
    hide Reusable, IsCandidate, ProvisionalOf, GroupOf, Extends;
    var g := GroupOf(p, e, n, attempt).value;
    WrittenAreChunks(g, refs, actor, written);
    ProvisionalAfterChunks(comments, written);
    WrittenExtend(p, e, n, attempt, actor, refs, written);
    RetrySelectsSameGroup(p, e, n, actor, ProvisionalOf(comments), written, attempt, refs, again, refs');
    RestIsMissing(p, g, refs, refs', written);
  }

  lemma RestIsMissing(p: Platform, g: Group, refs: seq<Option<CommentRef>>, refs': seq<Option<CommentRef>>, written: seq<Comment>)
    requires |refs'| == |refs| && |written| <= |Missing(refs)|
    requires forall i :: 0 <= i < |refs| && refs[i].Some? ==> refs'[i] == refs[i]
    requires forall k :: 0 <= k < |written| ==> IsCandidate(p, g, written[k]) && written[k].body.chunk.index == Missing(refs)[k]
    requires forall i :: 0 <= i < |refs| && refs[i].None? ==>
               (refs'[i].Some? <==> exists k :: 0 <= k < |written| && IsCandidate(p, g, written[k]) && written[k].body.chunk.index == i)
    ensures Missing(refs') == Missing(refs)[|written|..]
  {
    hide IsCandidate, Missing;
    MissingIndices(refs);
    MissingIndices(refs');
    var all, rest := Missing(refs), Missing(refs)[|written|..];
    forall k | 0 <= k < |written|
      ensures refs'[all[k]].Some?
    {
      assert all[k] in all && IsCandidate(p, g, written[k]);
    }
    forall i: nat
      ensures i in rest <==> i in Missing(refs')
    {
      if i in rest {
        var j :| 0 <= j < |rest| && rest[j] == i;
        assert all[|written| + j] == i && i in all;
      }
      if i in Missing(refs') {
        assert refs[i].None?;
        var j :| 0 <= j < |all| && all[j] == i;
        assert rest[j - |written|] == i;
      }
    }
    SameIncreasing(rest, Missing(refs'));
  }
}
