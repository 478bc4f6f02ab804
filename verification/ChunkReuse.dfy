/** Choosing a slice size under a byte budget and a chunk group that no foreign comment spoils. */
module ChunkReuse {
  import opened Common
  import opened Decimal
  import opened Workpad
  import opened Chunks

  // ---------------------------------------------------------------- slice size

  predicate BodiesFit(p: Platform, g: Group, budget: nat) {
    forall i :: 0 <= i < |g.chunks| ==> p.size(ChunkBody(g.chunks[i], Rendered)) <= budget
  }

  predicate Fits(p: Platform, e: Entry, n: nat, budget: nat) {
    GroupOf(p, e, n, 0).Some? && BodiesFit(p, GroupOf(p, e, n, 0).value, budget)
  }

  /** Halving a slice size that fits never stops fitting; true of the budget in all but rounding. */
  ghost predicate FitsIsMonotone(p: Platform, e: Entry, budget: nat) {
    forall a: nat, b: nat :: 1 <= a <= b && Fits(p, e, b, budget) ==> Fits(p, e, a, budget)
  }

  /**
   * The binary search of `largestFittingChunkByteLength`. What it returns fits; where fitting
   * is monotone it is the largest size that does, and nothing is returned only if none does.
   */
  method LargestFittingChunkByteLength(p: Platform, e: Entry, budget: nat) returns (r: Option<nat>)
    requires p.encode(e).Some?
    ensures r.Some? ==> 1 <= r.value <= |p.encode(e).value| && Fits(p, e, r.value, budget)
    ensures FitsIsMonotone(p, e, budget) ==>
              forall n: nat :: (if r.Some? then r.value else 0) < n <= |p.encode(e).value| ==> !Fits(p, e, n, budget)
  {
    hide Fits;
    var low, high := 1, |p.encode(e).value|;
    var selected: nat := 0;
    while low <= high
      invariant selected == low - 1 && 1 <= low <= high + 1
      invariant high <= |p.encode(e).value|
      invariant selected > 0 ==> Fits(p, e, selected, budget)
      invariant FitsIsMonotone(p, e, budget) ==> forall n: nat :: high < n <= |p.encode(e).value| ==> !Fits(p, e, n, budget)
      decreases high - low
    {
      var candidate: nat := (low + high) / 2;
      if Fits(p, e, candidate, budget) {
        selected, low := candidate, candidate + 1;
      } else {
        high := candidate - 1;
      }
    }
    r := if selected == 0 then None else Some(selected);
  }

  /** The rendered size of a chunk depends on its group id only through that id's length. */
  ghost predicate SizeIgnoresGroupDigits(p: Platform) {
    forall c: Chunk, id: Identifier :: |id.text| == |c.groupId.text| ==>
      p.size(ChunkBody(c.(groupId := id), Rendered)) == p.size(ChunkBody(c, Rendered))
  }

  /** A size found at attempt 0 serves every attempt below 10^10: the padded attempt keeps body sizes constant. */
  lemma LaterAttemptsFit(p: Platform, e: Entry, n: nat, attempt: nat, budget: nat)
    requires SizeIgnoresGroupDigits(p) && Fits(p, e, n, budget) && attempt < PADDED_LIMIT
    ensures GroupOf(p, e, n, attempt).Some? && BodiesFit(p, GroupOf(p, e, n, attempt).value, budget)
  {
    var payload := p.encode(e).value;
    var first, later := GroupOf(p, e, n, 0).value, GroupOf(p, e, n, attempt).value;
    GroupIdLength(p, KeyOf(p, e, payload, n, 0));
    GroupIdLength(p, KeyOf(p, e, payload, n, attempt));
    forall i | 0 <= i < |later.chunks|
      ensures p.size(ChunkBody(later.chunks[i], Rendered)) <= budget
    {
      assert later.chunks[i] == first.chunks[i].(groupId := later.groupId);
    }
  }

  // ---------------------------------------------------------------- one attempt

  /** A provisional comment that claims to belong to the group. */
  predicate IsCandidate(p: Platform, g: Group, c: Comment): (r: bool)
    ensures r ==> c.body.ChunkBody?
  {
    ParseChunk(p, c.body).Some? && c.body.chunk.groupId == g.groupId
  }

  /** It is byte for byte the expected chunk, written by the current actor. */
  predicate IsExact(g: Group, actor: ActorId, c: Comment): (r: bool)
    ensures r ==> c.body.ChunkBody?
  {
    && c.body.ChunkBody? && c.body.chunk.index < |g.chunks|
    && c.body == ChunkBody(g.chunks[c.body.chunk.index], Rendered)
    && c.author == Some(actor)
  }

  ghost predicate Reusable(p: Platform, g: Group, actor: ActorId, provisional: seq<Comment>) {
    && (forall k :: 0 <= k < |provisional| && IsCandidate(p, g, provisional[k]) ==> IsExact(g, actor, provisional[k]))
    && (forall j, k :: 0 <= j < k < |provisional| && IsCandidate(p, g, provisional[j]) && IsCandidate(p, g, provisional[k]) ==>
          provisional[j].body.chunk.index != provisional[k].body.chunk.index)
  }

  /** `refs` names, for every chunk already published, the comment that holds it. */
  ghost predicate RefsName(p: Platform, g: Group, provisional: seq<Comment>, refs: seq<Option<CommentRef>>) {
    && |refs| == |g.chunks|
    && (forall k :: 0 <= k < |provisional| && IsCandidate(p, g, provisional[k]) ==>
          provisional[k].body.chunk.index < |refs| && refs[provisional[k].body.chunk.index] == Some(provisional[k].id))
    && (forall i :: 0 <= i < |refs| && refs[i].Some? ==>
          exists k :: 0 <= k < |provisional| && IsCandidate(p, g, provisional[k]) && provisional[k].body.chunk.index == i)
  }

  method TryAttempt(p: Platform, g: Group, actor: ActorId, provisional: seq<Comment>)
    returns (r: Option<seq<Option<CommentRef>>>, ghost spoiler: nat)
    ensures r.Some? <==> Reusable(p, g, actor, provisional)
    ensures r.Some? ==> RefsName(p, g, provisional, r.value)
    ensures r.None? ==> spoiler < |provisional| && IsCandidate(p, g, provisional[spoiler])
  {
    hide IsCandidate;
    spoiler := 0;
    var refs: seq<Option<CommentRef>> := seq(|g.chunks|, _ => None);
    for i := 0 to |provisional|
      invariant Reusable(p, g, actor, provisional[..i])
      invariant RefsName(p, g, provisional[..i], refs)
    {
      var comment := provisional[i];
      assert provisional[..i + 1] == provisional[..i] + [comment];
      if IsCandidate(p, g, comment) {
        if !IsExact(g, actor, comment) || refs[comment.body.chunk.index].Some? {
          spoiler := i;
          SpoiledByOne(p, g, actor, provisional, refs, i);
          return None, spoiler;
        }
        refs := refs[comment.body.chunk.index := Some(comment.id)];
        OneMoreRef(p, g, actor, provisional[..i], refs, comment);
      } else {
        OneMoreBystander(p, g, actor, provisional[..i], refs, comment);
      }
    }
    assert provisional[..|provisional|] == provisional;
    r := Some(refs);
  }

  lemma SpoiledByOne(p: Platform, g: Group, actor: ActorId, provisional: seq<Comment>, refs: seq<Option<CommentRef>>, i: nat)
    requires i < |provisional| && RefsName(p, g, provisional[..i], refs) && IsCandidate(p, g, provisional[i])
    requires !IsExact(g, actor, provisional[i]) || refs[provisional[i].body.chunk.index].Some?
    ensures !Reusable(p, g, actor, provisional)
  {
    hide ParseChunk;
    if IsExact(g, actor, provisional[i]) {
      var k :| 0 <= k < i && IsCandidate(p, g, provisional[..i][k])
               && provisional[..i][k].body.chunk.index == provisional[i].body.chunk.index;
      assert provisional[k] == provisional[..i][k];
    }
  }

  lemma OneMoreRef(p: Platform, g: Group, actor: ActorId, before: seq<Comment>, refs: seq<Option<CommentRef>>, c: Comment)
    requires Reusable(p, g, actor, before) && IsCandidate(p, g, c) && IsExact(g, actor, c) && |refs| == |g.chunks|
    requires refs[c.body.chunk.index] == Some(c.id) && RefsName(p, g, before, refs[c.body.chunk.index := None])
    ensures Reusable(p, g, actor, before + [c]) && RefsName(p, g, before + [c], refs)
  {
    hide ParseChunk;
    var earlier, after := refs[c.body.chunk.index := None], before + [c];
    forall k | 0 <= k < |before| && IsCandidate(p, g, before[k])
      ensures before[k].body.chunk.index != c.body.chunk.index
    {
      assert earlier[before[k].body.chunk.index] == Some(before[k].id);
    }
    forall i | 0 <= i < |refs| && refs[i].Some?
      ensures exists k :: 0 <= k < |after| && IsCandidate(p, g, after[k]) && after[k].body.chunk.index == i
    {
      if i == c.body.chunk.index {
        assert after[|before|] == c;
      } else {
        assert earlier[i].Some?;
        var k :| 0 <= k < |before| && IsCandidate(p, g, before[k]) && before[k].body.chunk.index == i;
        assert after[k] == before[k];
      }
    }
  }

  lemma OneMoreBystander(p: Platform, g: Group, actor: ActorId, before: seq<Comment>, refs: seq<Option<CommentRef>>, c: Comment)
    requires Reusable(p, g, actor, before) && RefsName(p, g, before, refs) && !IsCandidate(p, g, c)
    ensures Reusable(p, g, actor, before + [c]) && RefsName(p, g, before + [c], refs)
  {
    hide ParseChunk;
    var after := before + [c];
    forall i | 0 <= i < |refs| && refs[i].Some?
      ensures exists k :: 0 <= k < |after| && IsCandidate(p, g, after[k]) && after[k].body.chunk.index == i
    {
      var k :| 0 <= k < |before| && IsCandidate(p, g, before[k]) && before[k].body.chunk.index == i;
      assert after[k] == before[k];
    }
  }

  // ---------------------------------------------------------------- all attempts

  function ProvisionalOf(comments: seq<Comment>): (r: seq<Comment>)
    ensures forall c :: c in r <==> c in comments && IsProvisional(c.body)
  {
    if |comments| == 0 then []
    else
      var last := comments[|comments| - 1];
      assert comments == comments[..|comments| - 1] + [last];
      if IsProvisional(last.body) then ProvisionalOf(comments[..|comments| - 1]) + [last]
      else ProvisionalOf(comments[..|comments| - 1])
  }

  function Below(n: nat): (r: set<nat>)
    ensures forall i: nat :: i in r <==> i < n
    ensures |r| == n
  {
    if n == 0 then {} else Below(n - 1) + {n - 1}
  }

  /** More attempts than comments cannot each be spoiled by a comment of their own. */
  lemma Pigeonhole(spoilers: seq<nat>, n: nat)
    requires NoDuplicates(spoilers) && forall k :: 0 <= k < |spoilers| ==> spoilers[k] < n
    ensures |spoilers| <= n
  {
    DistinctCount(spoilers);
    SubsetCardinality(Elements(spoilers), Below(n));
  }

  /** One comment can be a candidate for one attempt only. */
  lemma CandidateOfOneAttempt(p: Platform, e: Entry, n: nat, a: nat, b: nat, c: Comment)
    requires GroupOf(p, e, n, a).Some? && GroupOf(p, e, n, b).Some?
    requires IsCandidate(p, GroupOf(p, e, n, a).value, c) && IsCandidate(p, GroupOf(p, e, n, b).value, c)
    ensures a == b
  {
    var payload := p.encode(e).value;
    AttemptsHaveDifferentIds(p, KeyOf(p, e, payload, n, a), KeyOf(p, e, payload, n, b));
  }

  lemma EveryAttemptExists(p: Platform, e: Entry, n: nat, attempt: nat)
    requires GroupOf(p, e, n, 0).Some?
    ensures GroupOf(p, e, n, attempt).Some?
  {
  }

  /** The outcome of `selectReusableChunkGroup`: the first attempt nothing spoils. */
  ghost predicate Selected(p: Platform, e: Entry, n: nat, actor: ActorId, provisional: seq<Comment>, attempt: nat,
                           refs: seq<Option<CommentRef>>)
  {
    && GroupOf(p, e, n, attempt).Some?
    && Reusable(p, GroupOf(p, e, n, attempt).value, actor, provisional)
    && RefsName(p, GroupOf(p, e, n, attempt).value, provisional, refs)
    && forall a: nat :: a < attempt ==>
         GroupOf(p, e, n, a).Some? && !Reusable(p, GroupOf(p, e, n, a).value, actor, provisional)
  }

  /** The search always finds an attempt, whatever provisional comments the Issue holds. */
  method SelectReusableChunkGroup(p: Platform, comments: seq<Comment>, e: Entry, n: nat, configuration: Configuration)
    returns (group: Group, refs: seq<Option<CommentRef>>, attempt: nat)
    requires GroupOf(p, e, n, 0).Some?
    ensures attempt <= |ProvisionalOf(comments)| && Some(group) == GroupOf(p, e, n, attempt)
    ensures Selected(p, e, n, configuration.current.actor, ProvisionalOf(comments), attempt, refs)
  {
    hide IsCandidate, Reusable, RefsName, GroupOf;
    var actor, provisional := configuration.current.actor, ProvisionalOf(comments);
    ghost var spoilers: seq<nat> := [];
    attempt := 0;
    while attempt <= |provisional|
      invariant attempt == |spoilers| <= |provisional| + 1 && NoDuplicates(spoilers)
      invariant forall a: nat :: a < attempt ==>
                  GroupOf(p, e, n, a).Some? && !Reusable(p, GroupOf(p, e, n, a).value, actor, provisional)
                  && spoilers[a] < |provisional| && IsCandidate(p, GroupOf(p, e, n, a).value, provisional[spoilers[a]])
    {
      EveryAttemptExists(p, e, n, attempt);
      var created := CreateChunkGroup(p, e, n, attempt);
      group := created.value;
      var tried, spoiler := TryAttempt(p, group, actor, provisional);
      if tried.Some? {
        return group, tried.value, attempt;
      }
      forall a: nat | a < attempt
        ensures spoilers[a] != spoiler
      {
        if spoilers[a] == spoiler {
          CandidateOfOneAttempt(p, e, n, a, attempt, provisional[spoiler]);
        }
      }
      spoilers := spoilers + [spoiler];
      attempt := attempt + 1;
    }
    Pigeonhole(spoilers, |provisional|);
    assert false;
  }

  // ---------------------------------------------------------------- reuse and retry

  /** Every reused reference is a comment of the current actor holding exactly that chunk. */
  lemma ReusedRefsAreExact(p: Platform, g: Group, actor: ActorId, provisional: seq<Comment>, refs: seq<Option<CommentRef>>, i: nat)
    returns (k: nat)
    requires Reusable(p, g, actor, provisional) && RefsName(p, g, provisional, refs)
    requires i < |refs| && refs[i].Some?
    ensures k < |provisional| && refs[i] == Some(provisional[k].id)
    ensures provisional[k].body == ChunkBody(g.chunks[i], Rendered) && provisional[k].author == Some(actor)
  {
    hide ParseChunk;
    k :| 0 <= k < |provisional| && IsCandidate(p, g, provisional[k]) && provisional[k].body.chunk.index == i;
  }

  lemma ReusedRefsAreDistinct(p: Platform, g: Group, actor: ActorId, provisional: seq<Comment>, refs: seq<Option<CommentRef>>,
                              i: nat, j: nat)
    requires DistinctIds(provisional) && Reusable(p, g, actor, provisional) && RefsName(p, g, provisional, refs)
    requires i < j < |refs| && refs[i].Some? && refs[j].Some?
    requires forall k :: 0 <= k < |g.chunks| ==> g.chunks[k].index == k
    ensures refs[i] != refs[j]
  {
    var a := ReusedRefsAreExact(p, g, actor, provisional, refs, i);
    var b := ReusedRefsAreExact(p, g, actor, provisional, refs, j);
    assert provisional[a].body.chunk.index == i && provisional[b].body.chunk.index == j;
  }

  /** Comments written since: bystanders, or exact chunks the selection did not find. */
  ghost predicate Extends(p: Platform, g: Group, actor: ActorId, refs: seq<Option<CommentRef>>, extra: seq<Comment>)
    requires |refs| == |g.chunks|
  {
    && (forall k :: 0 <= k < |extra| && IsCandidate(p, g, extra[k]) ==>
          IsExact(g, actor, extra[k]) && refs[extra[k].body.chunk.index].None?)
    && (forall j, k :: 0 <= j < k < |extra| && IsCandidate(p, g, extra[j]) && IsCandidate(p, g, extra[k]) ==>
          extra[j].body.chunk.index != extra[k].body.chunk.index)
  }

  lemma StaysReusable(p: Platform, g: Group, actor: ActorId, provisional: seq<Comment>, refs: seq<Option<CommentRef>>,
                      extra: seq<Comment>)
    requires Reusable(p, g, actor, provisional) && RefsName(p, g, provisional, refs) && Extends(p, g, actor, refs, extra)
    ensures Reusable(p, g, actor, provisional + extra)
  {
    hide IsCandidate, IsExact;
    var all, n := provisional + extra, |provisional|;
    forall j, k | 0 <= j < k < |all| && IsCandidate(p, g, all[j]) && IsCandidate(p, g, all[k])
      ensures IsExact(g, actor, all[j]) && IsExact(g, actor, all[k]) && all[j].body.chunk.index != all[k].body.chunk.index
    {
      assert j >= n ==> all[j] == extra[j - n];
      assert k >= n ==> all[k] == extra[k - n];
    }
  }

  lemma StaysSpoiled(p: Platform, g: Group, actor: ActorId, provisional: seq<Comment>, extra: seq<Comment>)
    requires !Reusable(p, g, actor, provisional)
    ensures !Reusable(p, g, actor, provisional + extra)
  {
    hide IsCandidate, IsExact;
    var all := provisional + extra;
    assert forall k :: 0 <= k < |provisional| ==> all[k] == provisional[k];
  }

  /**
   * A retry after any of the missing chunks were written settles on the same attempt, finds
   * every chunk found before, and every exact chunk written since.
   */
  lemma RetrySelectsSameGroup(p: Platform, e: Entry, n: nat, actor: ActorId, provisional: seq<Comment>, extra: seq<Comment>,
                              attempt: nat, refs: seq<Option<CommentRef>>, again: nat, refs': seq<Option<CommentRef>>)
    requires Selected(p, e, n, actor, provisional, attempt, refs)
    requires Extends(p, GroupOf(p, e, n, attempt).value, actor, refs, extra)
    requires Selected(p, e, n, actor, provisional + extra, again, refs')
    ensures again == attempt && |refs'| == |refs|
    ensures forall i :: 0 <= i < |refs| && refs[i].Some? ==> refs'[i] == refs[i]
    ensures var g := GroupOf(p, e, n, attempt).value;
            forall i :: 0 <= i < |refs| && refs[i].None? ==>
              (refs'[i].Some? <==> exists k :: 0 <= k < |extra| && IsCandidate(p, g, extra[k]) && extra[k].body.chunk.index == i)
  {
    hide Reusable, RefsName, Extends, IsCandidate;
    var g := GroupOf(p, e, n, attempt).value;
    StaysReusable(p, g, actor, provisional, refs, extra);
    if again < attempt {
      StaysSpoiled(p, GroupOf(p, e, n, again).value, actor, provisional, extra);
    }
    assert again == attempt;
    RefsGrow(p, g, provisional, extra, refs, refs');
  }

  lemma RefsGrow(p: Platform, g: Group, provisional: seq<Comment>, extra: seq<Comment>, refs: seq<Option<CommentRef>>,
                 refs': seq<Option<CommentRef>>)
    requires RefsName(p, g, provisional, refs) && RefsName(p, g, provisional + extra, refs')
    ensures |refs'| == |refs|
    ensures forall i :: 0 <= i < |refs| && refs[i].Some? ==> refs'[i] == refs[i]
    ensures forall i :: 0 <= i < |refs| && refs[i].None? ==>
              (refs'[i].Some? <==> exists k :: 0 <= k < |extra| && IsCandidate(p, g, extra[k]) && extra[k].body.chunk.index == i)
  {
    hide IsCandidate;
    var all, n := provisional + extra, |provisional|;
    assert forall k :: 0 <= k < n ==> all[k] == provisional[k];
    forall i | 0 <= i < |refs| && refs[i].Some?
      ensures refs'[i] == refs[i]
    {
      var k :| 0 <= k < n && IsCandidate(p, g, provisional[k]) && provisional[k].body.chunk.index == i;
      assert all[k] == provisional[k];
    }
    forall i | 0 <= i < |refs| && refs[i].None?
      ensures refs'[i].Some? <==> exists k :: 0 <= k < |extra| && IsCandidate(p, g, extra[k]) && extra[k].body.chunk.index == i
    {
      if refs'[i].Some? {
        var k :| 0 <= k < |all| && IsCandidate(p, g, all[k]) && all[k].body.chunk.index == i;
        assert k >= n && all[k] == extra[k - n];
      }
      forall k | 0 <= k < |extra| && IsCandidate(p, g, extra[k]) && extra[k].body.chunk.index == i
        ensures refs'[i].Some?
      {
        assert all[n + k] == extra[k];
      }
    }
  }
}
