/**
 * Selecting the one linear lineage among verified workpad comments: an order-independent
 * description of what an acceptable chain is, and the selection loops proved against it.
 */
module Lineage {
  import opened Common
  import opened Workpad

  datatype Representation = AsEntries | AsManifest

  /** A managed comment whose content, binding, producer and author have been verified. */
  datatype Verified = Verified(
    comment: Comment,
    entries: seq<Entry>,
    sessionId: Identifier,
    producer: Producer,
    predecessor: Option<CommentRef>,
    continuation: Option<Continuation>,
    representation: Representation)

  datatype LineageError =
    | IncompatibleSessions
    | IncompatibleReports
    | NotOneRoot
    | RootDeclaresContinuation
    | BadPredecessor
    | BadContinuation
    | Fork
    | Cycle
    | Disconnected
    | RepeatedEntry
    | BadRevision

  // ---------------------------------------------------------------- what a chain is

  /** A successor by the same actor says so; one by another actor may, and never claims capacity. */
  predicate ContinuationFits(parent: Verified, child: Verified) {
    if parent.producer.actor == child.producer.actor then child.continuation == Some(Capacity)
    else child.continuation == None || child.continuation == Some(ProducerTransition)
  }

  /** All entries of a lineage in order. */
  function AllEntries(cs: seq<Verified>): seq<Entry> {
    if |cs| == 0 then [] else AllEntries(cs[..|cs| - 1]) + cs[|cs| - 1].entries
  }

  /** Revisions count from zero and no entry identity is used twice. */
  ghost predicate Contiguous(es: seq<Entry>) {
    && (forall k :: 0 <= k < |es| ==> es[k].revision == k)
    && (forall j, k :: 0 <= j < k < |es| ==> es[j].entryId != es[k].entryId)
  }

  ghost predicate SameSession(cs: seq<Verified>) {
    forall c, d :: c in cs && d in cs ==> c.sessionId == d.sessionId
  }

  ghost predicate SameReport(cs: seq<Verified>)
    requires forall c :: c in cs ==> |c.entries| > 0
  {
    forall c, d :: c in cs && d in cs ==> c.entries[0].report.id == d.entries[0].report.id
  }

  ghost predicate DistinctComments(cs: seq<Verified>) {
    forall i, j :: 0 <= i < j < |cs| ==> cs[i].comment.id != cs[j].comment.id
  }

  /** Each comment names the one before it, and the first names none. */
  ghost predicate NamesPredecessors(cs: seq<Verified>) {
    forall i :: 0 <= i < |cs| ==> cs[i].predecessor == if i == 0 then None else Some(cs[i - 1].comment.id)
  }

  ghost predicate Linked(cs: seq<Verified>) {
    && |cs| > 0 && NamesPredecessors(cs)
    && cs[0].continuation.None?
    && forall i :: 0 < i < |cs| ==> ContinuationFits(cs[i - 1], cs[i])
  }

  ghost predicate NonEmptyEntries(cs: seq<Verified>) {
    forall c :: c in cs ==> |c.entries| > 0
  }

  ghost predicate IsChain(cs: seq<Verified>) {
    && NonEmptyEntries(cs)
    && SameSession(cs) && SameReport(cs)
    && DistinctComments(cs) && Linked(cs)
    && Contiguous(AllEntries(cs))
  }

  /** `chain` arranges exactly the given comments as an acceptable chain. */
  ghost predicate IsLineageOf(comments: seq<Verified>, chain: seq<Verified>) {
    multiset(chain) == multiset(comments) && IsChain(chain)
  }

  // ---------------------------------------------------------------- uniqueness

  lemma SameMembers(a: seq<Verified>, b: seq<Verified>)
    requires multiset(a) == multiset(b)
    ensures |a| == |b|
    ensures forall c :: c in a <==> c in b
  {
    assert forall c :: c in a <==> c in multiset(a);
    assert forall c :: c in b <==> c in multiset(b);
    assert |multiset(a)| == |a| && |multiset(b)| == |b|;
  }

  lemma PredecessorAt(cs: seq<Verified>, i: nat)
    requires NamesPredecessors(cs) && i < |cs|
    ensures cs[i].predecessor == if i == 0 then None else Some(cs[i - 1].comment.id)
  {
  }

  lemma {:induction false} ChainsAgree(a: seq<Verified>, b: seq<Verified>, i: nat)
    requires NamesPredecessors(a) && NamesPredecessors(b) && DistinctComments(a)
    requires (forall c :: c in b ==> c in a) && i < |a| && i < |b|
    ensures a[i] == b[i]
  {
    assert b[i] in a;
    var j :| 0 <= j < |a| && a[j] == b[i];
    PredecessorAt(a, j);
    PredecessorAt(b, i);
    if i > 0 {
      ChainsAgree(a, b, i - 1);
    }
  }

  /** At most one arrangement of the comments is acceptable. */
  lemma LineageIsUnique(comments: seq<Verified>, a: seq<Verified>, b: seq<Verified>)
    requires IsLineageOf(comments, a) && IsLineageOf(comments, b)
    ensures a == b
  {
    LinkedChainsAgree(comments, a, b);
  }

  /** The order in which the Issue lists its comments plays no role. */
  lemma LineageIgnoresOrder(comments: seq<Verified>, shuffled: seq<Verified>, a: seq<Verified>, b: seq<Verified>)
    requires multiset(comments) == multiset(shuffled)
    requires IsLineageOf(comments, a) && IsLineageOf(shuffled, b)
    ensures a == b
  {
    LineageIsUnique(comments, a, b);
  }

  // ---------------------------------------------------------------- selection

  method SessionsAndReportsAgree(comments: seq<Verified>) returns (error: Option<LineageError>)
    requires NonEmptyEntries(comments)
    ensures error.None? <==> |comments| > 0 && SameSession(comments) && SameReport(comments)
    ensures error != Some(Cycle)
  {
    var sessions: set<Identifier> := {};
    var reports: set<Identifier> := {};
    for i := 0 to |comments|
      invariant sessions == set c | c in comments[..i] :: c.sessionId
      invariant reports == set c | c in comments[..i] :: c.entries[0].report.id
    {
      assert comments[..i + 1] == comments[..i] + [comments[i]];
      sessions := sessions + {comments[i].sessionId};
      reports := reports + {comments[i].entries[0].report.id};
    }
    assert comments[..|comments|] == comments;
    if |comments| > 0 {
      OneSession(comments);
      OneReport(comments);
    }
    error := if |sessions| != 1 then Some(IncompatibleSessions) else if |reports| != 1 then Some(IncompatibleReports) else None;
  }

  lemma OneSession(comments: seq<Verified>)
    requires |comments| > 0
    ensures |set c | c in comments :: c.sessionId| == 1 <==> SameSession(comments)
  {
    var sessions := set c | c in comments :: c.sessionId;
    assert comments[0] in comments;
    assert forall c :: c in comments ==> c.sessionId in sessions;
    OneMember(sessions, comments[0].sessionId);
  }

  lemma OneReport(comments: seq<Verified>)
    requires |comments| > 0 && NonEmptyEntries(comments)
    ensures |set c | c in comments :: c.entries[0].report.id| == 1 <==> SameReport(comments)
  {
    var reports := set c | c in comments :: c.entries[0].report.id;
    assert comments[0] in comments;
    assert forall c :: c in comments ==> c.entries[0].report.id in reports;
    OneMember(reports, comments[0].entries[0].report.id);
  }

  lemma OneMember<T>(s: set<T>, x: T)
    requires x in s
    ensures |s| == 1 <==> forall y :: y in s ==> y == x
  {
    var rest := s - {x};
    assert |s| == |rest| + 1;
    if |s| == 1 {
      assert forall y :: y in s ==> y !in rest;
    } else {
      var y :| y in rest;
    }
  }

  method FindRoot(comments: seq<Verified>) returns (r: Result<nat, LineageError>)
    ensures r.Success? ==> r.value < |comments| && comments[r.value].predecessor.None? && comments[r.value].continuation.None?
    ensures r.Success? ==> forall k :: 0 <= k < |comments| && comments[k].predecessor.None? ==> k == r.value
    ensures r != Failure(Cycle)
    ensures r.Failure? ==> forall chain: seq<Verified> :: !IsLineageOf(comments, chain)
  {
    var roots: seq<nat> := [];
    for i := 0 to |comments|
      invariant forall k :: 0 <= k < |roots| ==> roots[k] < i && comments[roots[k]].predecessor.None?
      invariant forall j, k :: 0 <= j < k < |roots| ==> roots[j] < roots[k]
      invariant forall k :: 0 <= k < i && comments[k].predecessor.None? ==> k in roots
    {
      if comments[i].predecessor.None? {
        roots := roots + [i];
      }
    }
    if |roots| != 1 {
      forall chain: seq<Verified>
        ensures !IsLineageOf(comments, chain)
      {
        if IsLineageOf(comments, chain) {
          ChainHasOneRoot(comments, chain, roots);
        }
      }
      return Failure(NotOneRoot);
    }
    if comments[roots[0]].continuation.Some? {
      forall chain: seq<Verified>
        ensures !IsLineageOf(comments, chain)
      {
        if IsLineageOf(comments, chain) {
          RootIsFirst(comments, chain, roots[0]);
        }
      }
      return Failure(RootDeclaresContinuation);
    }
    r := Success(roots[0]);
  }

  lemma RootIsFirst(comments: seq<Verified>, chain: seq<Verified>, i: nat)
    requires IsLineageOf(comments, chain) && i < |comments| && comments[i].predecessor.None?
    ensures comments[i] == chain[0]
  {
    SameMembers(chain, comments);
    assert comments[i] in chain;
    var j :| 0 <= j < |chain| && chain[j] == comments[i];
    PredecessorAt(chain, j);
  }

  lemma MembersAreDistinct(comments: seq<Verified>, chain: seq<Verified>, i: nat, j: nat)
    requires IsLineageOf(comments, chain) && i < |comments| && j < |comments| && comments[i].comment.id == comments[j].comment.id
    ensures i == j
  {
    if i != j {
      SameMembers(chain, comments);
      assert comments[i] in chain && comments[j] in chain;
      assert comments[i] == comments[j];
      TwiceInMultiset(comments, i, j);
      assert multiset(chain)[comments[i]] >= 2;
      TwiceInSeq(chain, comments[i]);
    }
  }

  lemma TwiceInMultiset(s: seq<Verified>, i: nat, j: nat)
    requires i < |s| && j < |s| && i != j && s[i] == s[j]
    ensures multiset(s)[s[i]] >= 2
  {
    var lo, hi := if i < j then i else j, if i < j then j else i;
    assert s == s[..lo] + [s[lo]] + s[lo + 1..hi] + [s[hi]] + s[hi + 1..];
  }

  lemma {:induction false} TwiceInSeq(s: seq<Verified>, c: Verified)
    requires multiset(s)[c] >= 2
    ensures !DistinctComments(s)
  {
    var init, last := s[..|s| - 1], s[|s| - 1];
    assert s == init + [last];
    if last == c {
      assert c in multiset(init);
      assert c in init;
      var k :| 0 <= k < |init| && init[k] == c;
      assert s[k].comment.id == s[|s| - 1].comment.id;
    } else {
      TwiceInSeq(init, c);
      var j, k :| 0 <= j < k < |init| && init[j].comment.id == init[k].comment.id;
      assert s[j].comment.id == s[k].comment.id;
    }
  }

  lemma ChainHasOneRoot(comments: seq<Verified>, chain: seq<Verified>, roots: seq<nat>)
    requires IsLineageOf(comments, chain)
    requires forall k :: 0 <= k < |roots| ==> roots[k] < |comments| && comments[roots[k]].predecessor.None?
    requires forall j, k :: 0 <= j < k < |roots| ==> roots[j] < roots[k]
    requires forall k :: 0 <= k < |comments| && comments[k].predecessor.None? ==> k in roots
    ensures |roots| == 1
  {
    SameMembers(chain, comments);
    assert chain[0] in comments;
    PredecessorAt(chain, 0);
    var k :| 0 <= k < |comments| && comments[k] == chain[0];
    assert k in roots;
    if |roots| > 1 {
      RootIsFirst(comments, chain, roots[0]);
      RootIsFirst(comments, chain, roots[1]);
      MembersAreDistinct(comments, chain, roots[0], roots[1]);
    }
  }

  /** The children map after the loop over all comments: every successor under its predecessor. */
  ghost predicate ChildrenOf(comments: seq<Verified>, n: nat, children: map<CommentRef, Verified>)
    requires n <= |comments|
  {
    && (forall k :: 0 <= k < n && comments[k].predecessor.Some? ==>
          comments[k].predecessor.value in children && children[comments[k].predecessor.value] == comments[k])
    && (forall id :: id in children ==> children[id] in comments[..n] && children[id].predecessor == Some(id))
  }

  /** Every successor has a parent whose identity fits its continuation. */
  ghost predicate ParentsFit(comments: seq<Verified>, n: nat)
    requires n <= |comments|
  {
    forall k :: 0 <= k < n && comments[k].predecessor.Some? ==>
      exists parent :: parent in comments && parent.comment.id == comments[k].predecessor.value
        && ContinuationFits(parent, comments[k])
  }

  /** `new Map(...)`: the last comment listed under an id. */
  ghost predicate IndexById(comments: seq<Verified>, n: nat, byId: map<CommentRef, nat>)
    requires n <= |comments|
  {
    && (forall k :: 0 <= k < n ==> comments[k].comment.id in byId)
    && (forall id :: id in byId ==> byId[id] < n && comments[byId[id]].comment.id == id)
  }

  method LinkChildren(comments: seq<Verified>) returns (r: Result<map<CommentRef, Verified>, LineageError>)
    ensures r.Success? ==> ChildrenOf(comments, |comments|, r.value) && ParentsFit(comments, |comments|)
    ensures r != Failure(Cycle)
    ensures r.Failure? ==> forall chain: seq<Verified> :: !IsLineageOf(comments, chain)
  {
    hide IsLineageOf, ContinuationFits, ChildrenOf, ParentsFit, IndexById;
    NothingLinked(comments);
    var byId: map<CommentRef, nat> := map[];
    for i := 0 to |comments|
      invariant IndexById(comments, i, byId)
    {
      OneMoreIndexed(comments, i, byId);
      byId := byId[comments[i].comment.id := i];
    }
    var children: map<CommentRef, Verified> := map[];
    for i := 0 to |comments|
      invariant ChildrenOf(comments, i, children)
      invariant ParentsFit(comments, i)
    {
      var comment := comments[i];
      if comment.predecessor.Some? {
        var id := comment.predecessor.value;
        IndexIsListed(comments, byId, id);
        if id !in byId || byId[id] == i {
          NoChainWithoutParent(comments, byId, i);
          return Failure(BadPredecessor);
        }
        var parent := comments[byId[id]];
        if !ContinuationFits(parent, comment) {
          NoChainWithoutParent(comments, byId, i);
          return Failure(BadContinuation);
        }
        if id in children {
          ChildIsListed(comments, i, children, id);
          NoChainWithFork(comments, i, children[id]);
          return Failure(Fork);
        }
        OneMoreChild(comments, i, children, parent);
        children := children[id := comment];
      } else {
        OneMoreRoot(comments, i, children);
      }
    }
    r := Success(children);
  }

  lemma NothingLinked(comments: seq<Verified>)
    ensures IndexById(comments, 0, map[]) && ChildrenOf(comments, 0, map[]) && ParentsFit(comments, 0)
  {
  }

  lemma OneMoreIndexed(comments: seq<Verified>, i: nat, byId: map<CommentRef, nat>)
    requires i < |comments| && IndexById(comments, i, byId)
    ensures IndexById(comments, i + 1, byId[comments[i].comment.id := i])
  {
  }

  lemma IndexIsListed(comments: seq<Verified>, byId: map<CommentRef, nat>, id: CommentRef)
    requires IndexById(comments, |comments|, byId)
    ensures id in byId ==> byId[id] < |comments| && comments[byId[id]].comment.id == id
  {
  }

  lemma ChildIsListed(comments: seq<Verified>, i: nat, children: map<CommentRef, Verified>, id: CommentRef)
    requires i <= |comments| && ChildrenOf(comments, i, children) && id in children
    ensures children[id] in comments[..i] && children[id].predecessor == Some(id)
  {
  }

  lemma OneMoreChild(comments: seq<Verified>, i: nat, children: map<CommentRef, Verified>, parent: Verified)
    requires i < |comments| && ChildrenOf(comments, i, children) && ParentsFit(comments, i)
    requires comments[i].predecessor.Some? && comments[i].predecessor.value !in children
    requires parent in comments && Some(parent.comment.id) == comments[i].predecessor && ContinuationFits(parent, comments[i])
    ensures ChildrenOf(comments, i + 1, children[comments[i].predecessor.value := comments[i]]) && ParentsFit(comments, i + 1)
  {
    hide ContinuationFits;
    assert comments[..i + 1] == comments[..i] + [comments[i]];
  }

  lemma OneMoreRoot(comments: seq<Verified>, i: nat, children: map<CommentRef, Verified>)
    requires i < |comments| && ChildrenOf(comments, i, children) && ParentsFit(comments, i) && comments[i].predecessor.None?
    ensures ChildrenOf(comments, i + 1, children) && ParentsFit(comments, i + 1)
  {
    hide ContinuationFits;
    assert comments[..i + 1] == comments[..i] + [comments[i]];
  }

  /** In a chain the indexed parent of a successor is its predecessor and fits it. */
  lemma NoChainWithoutParent(comments: seq<Verified>, byId: map<CommentRef, nat>, i: nat)
    requires IndexById(comments, |comments|, byId) && i < |comments| && comments[i].predecessor.Some?
    requires var id := comments[i].predecessor.value;
             id !in byId || byId[id] == i || !ContinuationFits(comments[byId[id]], comments[i])
    ensures forall chain: seq<Verified> :: !IsLineageOf(comments, chain)
  {
    forall chain: seq<Verified>
      ensures !IsLineageOf(comments, chain)
    {
      if IsLineageOf(comments, chain) {
        var j, k := ParentInChain(comments, chain, i);
        MembersAreDistinct(comments, chain, byId[comments[k].comment.id], k);
      }
    }
  }

  /** Positions, in the chain and in the list, of the predecessor of a listed successor. */
  lemma ParentInChain(comments: seq<Verified>, chain: seq<Verified>, i: nat) returns (j: nat, k: nat)
    requires IsLineageOf(comments, chain) && i < |comments| && comments[i].predecessor.Some?
    ensures j + 1 < |chain| && chain[j + 1] == comments[i]
    ensures k < |comments| && comments[k] == chain[j]
    ensures k != i && comments[i].predecessor == Some(comments[k].comment.id) && ContinuationFits(comments[k], comments[i])
  {
    SameMembers(chain, comments);
    assert comments[i] in chain;
    var at :| 0 <= at < |chain| && chain[at] == comments[i];
    PredecessorAt(chain, at);
    j := at - 1;
    assert chain[j] in comments;
    k :| 0 <= k < |comments| && comments[k] == chain[j];
  }

  lemma NoChainWithFork(comments: seq<Verified>, i: nat, sibling: Verified)
    requires i < |comments| && comments[i].predecessor.Some?
    requires sibling in comments[..i] && sibling.predecessor == comments[i].predecessor
    ensures forall chain: seq<Verified> :: !IsLineageOf(comments, chain)
  {
    forall chain: seq<Verified>
      ensures !IsLineageOf(comments, chain)
    {
      if IsLineageOf(comments, chain) {
        var s :| 0 <= s < i && comments[s] == sibling;
        var j, _ := ParentInChain(comments, chain, i);
        var j2, _ := ParentInChain(comments, chain, s);
        assert chain[j].comment.id == chain[j2].comment.id;
        assert j == j2;
        MembersAreDistinct(comments, chain, i, s);
      }
    }
  }

  // ---------------------------------------------------------------- following the links

  function Ids(cs: seq<Verified>): set<CommentRef> {
    set c | c in cs :: c.comment.id
  }

  /** The comment reached after `lineage`, if any. */
  function After(children: map<CommentRef, Verified>, root: Verified, lineage: seq<Verified>): Option<Verified> {
    if |lineage| == 0 then Some(root)
    else
      var id := lineage[|lineage| - 1].comment.id;
      if id in children then Some(children[id]) else None
  }

  ghost predicate Walk(comments: seq<Verified>, lineage: seq<Verified>) {
    (forall c :: c in lineage ==> c in comments) && NamesPredecessors(lineage) && DistinctComments(lineage)
  }

  /** The walk from the root along the children; `None` when it meets a comment id again. */
  method WalkFromRoot(comments: seq<Verified>, root: nat, children: map<CommentRef, Verified>) returns (r: Option<seq<Verified>>)
    requires root < |comments| && comments[root].predecessor.None? && ChildrenOf(comments, |comments|, children)
    ensures r.Some? ==> Walk(comments, r.value) && After(children, comments[root], r.value).None?
    ensures r.Some? ==> |r.value| > 0 && r.value[0] == comments[root]
    ensures r.None? ==> !DistinctComments(comments) && forall chain: seq<Verified> :: !IsLineageOf(comments, chain)
  {
    var lineage: seq<Verified> := [];
    var seen: set<CommentRef> := {};
    var current := Some(comments[root]);
    while current.Some?
      invariant Walk(comments, lineage) && seen == Ids(lineage) <= Ids(comments)
      invariant current == After(children, comments[root], lineage)
      invariant |lineage| > 0 ==> lineage[0] == comments[root]
      decreases |Ids(comments)| - |seen|
    {
      var next := current.value;
      NextIsListed(comments, children, root, lineage);
      if next.comment.id in seen {
        NoCycleAmongDistinct(comments, lineage, next);
        return None;
      }
      WalkGrows(comments, lineage, next);
      lineage, seen := lineage + [next], seen + {next.comment.id};
      SubsetCardinality(seen, Ids(comments));
      current := if next.comment.id in children then Some(children[next.comment.id]) else None;
    }
    r := Some(lineage);
  }

  method FollowLinks(comments: seq<Verified>, root: nat, children: map<CommentRef, Verified>)
    returns (r: Result<seq<Verified>, LineageError>)
    requires root < |comments| && comments[root].predecessor.None? && comments[root].continuation.None?
    requires ChildrenOf(comments, |comments|, children) && ParentsFit(comments, |comments|)
    ensures r.Success? ==> multiset(r.value) == multiset(comments) && DistinctComments(r.value) && Linked(r.value)
    ensures r.Failure? ==> forall chain: seq<Verified> :: !IsLineageOf(comments, chain)
    ensures r == Failure(Cycle) ==> !DistinctComments(comments)
  {
    var walked := WalkFromRoot(comments, root, children);
    if walked.None? {
      return Failure(Cycle);
    }
    var lineage := walked.value;
    DistinctIdCount(lineage);
    if |lineage| != |comments| {
      forall chain: seq<Verified>
        ensures !IsLineageOf(comments, chain)
      {
        if IsLineageOf(comments, chain) {
          WalkCoversChain(comments, children, root, lineage, chain);
        }
      }
      return Failure(Disconnected);
    }
    SameAsDistinct(lineage, comments);
    WalkIsLinked(comments, lineage);
    r := Success(lineage);
  }

  lemma NextIsListed(comments: seq<Verified>, children: map<CommentRef, Verified>, root: nat, lineage: seq<Verified>)
    requires root < |comments| && comments[root].predecessor.None? && ChildrenOf(comments, |comments|, children)
    requires After(children, comments[root], lineage).Some?
    ensures var next := After(children, comments[root], lineage).value;
            && next in comments
            && next.predecessor == if |lineage| == 0 then None else Some(lineage[|lineage| - 1].comment.id)
  {
  }

  lemma WalkGrows(comments: seq<Verified>, lineage: seq<Verified>, next: Verified)
    requires Walk(comments, lineage) && next in comments && next.comment.id !in Ids(lineage)
    requires next.predecessor == if |lineage| == 0 then None else Some(lineage[|lineage| - 1].comment.id)
    ensures Walk(comments, lineage + [next])
    ensures Ids(lineage + [next]) == Ids(lineage) + {next.comment.id} <= Ids(comments)
  {
    var grown := lineage + [next];
    assert forall i :: 0 <= i < |lineage| ==> lineage[i].comment.id in Ids(lineage);
    assert forall c :: c in grown ==> c in comments;
  }

  /** With distinct comments the walk cannot come back to a comment it has left. */
  lemma NoCycleAmongDistinct(comments: seq<Verified>, lineage: seq<Verified>, next: Verified)
    requires (forall c :: c in lineage ==> c in comments) && NamesPredecessors(lineage) && DistinctComments(lineage)
    requires next in comments && next.comment.id in Ids(lineage)
    requires next.predecessor == if |lineage| == 0 then None else Some(lineage[|lineage| - 1].comment.id)
    ensures !DistinctComments(comments)
    ensures forall chain: seq<Verified> :: !IsLineageOf(comments, chain)
  {
    var k :| 0 <= k < |lineage| && lineage[k].comment.id == next.comment.id;
    PredecessorAt(lineage, k);
    assert lineage[k] != next by {
      assert k > 0 ==> lineage[k - 1].comment.id != lineage[|lineage| - 1].comment.id;
    }
    assert lineage[k] in comments;
    var i :| 0 <= i < |comments| && comments[i] == lineage[k];
    var j :| 0 <= j < |comments| && comments[j] == next;
    forall chain: seq<Verified>
      ensures !IsLineageOf(comments, chain)
    {
      if IsLineageOf(comments, chain) {
        MembersAreDistinct(comments, chain, i, j);
      }
    }
  }

  lemma {:induction false} DistinctIdCount(cs: seq<Verified>)
    ensures |Ids(cs)| <= |cs|
    ensures DistinctComments(cs) <==> |Ids(cs)| == |cs|
  {
    var ids := seq(|cs|, i requires 0 <= i < |cs| => cs[i].comment.id);
    DistinctCount(ids);
    assert Elements(ids) == Ids(cs) by {
      forall c | c in cs
        ensures c.comment.id in ids
      {
        var k :| 0 <= k < |cs| && cs[k] == c;
        assert ids[k] == c.comment.id;
      }
    }
    forall i, j | 0 <= i < j < |cs|
      ensures ids[i] == ids[j] <==> cs[i].comment.id == cs[j].comment.id
    {
    }
    if NoDuplicates(ids) {
      assert forall i, j :: 0 <= i < j < |cs| ==> ids[i] != ids[j];
    }
  }

  lemma WalkCoversChain(comments: seq<Verified>, children: map<CommentRef, Verified>, root: nat, lineage: seq<Verified>,
                        chain: seq<Verified>)
    requires root < |comments| && ChildrenOf(comments, |comments|, children) && Walk(comments, lineage)
    requires After(children, comments[root], lineage).None? && IsLineageOf(comments, chain)
    ensures |lineage| == |comments|
  {
    SameMembers(chain, comments);
    DistinctIdCount(lineage);
    DistinctIdCount(comments);
    SubsetCardinality(Ids(lineage), Ids(comments));
    var n := |lineage|;
    ChainsAgree(chain, lineage, n - 1);
    if n < |chain| {
      SuccessorIsChild(comments, children, chain, n);
    }
  }

  lemma SuccessorIsChild(comments: seq<Verified>, children: map<CommentRef, Verified>, chain: seq<Verified>, n: nat)
    requires ChildrenOf(comments, |comments|, children) && IsLineageOf(comments, chain) && 0 < n < |chain|
    ensures chain[n - 1].comment.id in children
  {
    SameMembers(chain, comments);
    PredecessorAt(chain, n);
    assert chain[n] in comments;
  }

  /** Distinct members drawn from a list of the same length are a rearrangement of it. */
  lemma SameAsDistinct(lineage: seq<Verified>, comments: seq<Verified>)
    requires DistinctComments(lineage) && |Ids(lineage)| == |comments| && (forall c :: c in lineage ==> c in comments)
    ensures multiset(lineage) == multiset(comments) && DistinctComments(comments)
  {
    DistinctIdCount(lineage);
    DistinctIdCount(comments);
    SubsetCardinality(Ids(lineage), Ids(comments));
    var all, rest := multiset(comments), multiset(comments) - multiset(lineage);
    forall c
      ensures multiset(lineage)[c] <= all[c]
    {
      if multiset(lineage)[c] >= 2 {
        TwiceInSeq(lineage, c);
      } else if c in multiset(lineage) {
        assert c in lineage;
        assert c in comments;
      }
    }
    assert all == multiset(lineage) + rest;
    assert |rest| == 0;
  }

  lemma WalkIsLinked(comments: seq<Verified>, lineage: seq<Verified>)
    requires multiset(lineage) == multiset(comments) && DistinctComments(lineage) && NamesPredecessors(lineage)
    requires |lineage| > 0 && lineage[0].continuation.None? && ParentsFit(comments, |comments|)
    ensures Linked(lineage)
  {
    SameMembers(lineage, comments);
    forall i | 0 < i < |lineage|
      ensures ContinuationFits(lineage[i - 1], lineage[i])
    {
      PredecessorAt(lineage, i);
      assert lineage[i] in comments;
      var k :| 0 <= k < |comments| && comments[k] == lineage[i];
      var parent :| parent in comments && parent.comment.id == comments[k].predecessor.value
                    && ContinuationFits(parent, comments[k]);
      assert parent in lineage;
    }
  }

  // ---------------------------------------------------------------- revisions

  method CheckRevisions(lineage: seq<Verified>) returns (error: Option<LineageError>)
    ensures error.None? <==> Contiguous(AllEntries(lineage))
    ensures error != Some(Cycle)
  {
    var revision: Option<nat> := None;
    var entryIds: set<Identifier> := {};
    ghost var done: seq<Entry> := [];
    for i := 0 to |lineage|
      invariant done == AllEntries(lineage[..i]) && Checked(done, revision, entryIds)
    {
      ghost var before := done;
      var entries := lineage[i].entries;
      for j := 0 to |entries|
        invariant done == before + entries[..j] && Checked(done, revision, entryIds)
      {
        var entry := entries[j];
        ghost var next := done + [entry];
        assert next == before + entries[..j + 1];
        OneMoreEntry(done, revision, entryIds, entry);
        if entry.entryId in entryIds || entry.revision != (if revision.None? then 0 else revision.value + 1) {
          EntriesContinue(lineage, i, j);
          return Some(if entry.entryId in entryIds then RepeatedEntry else BadRevision);
        }
        entryIds := entryIds + {entry.entryId};
        revision := Some(entry.revision);
        done := next;
      }
      assert lineage[..i + 1][..i] == lineage[..i];
      assert entries[..|entries|] == entries;
    }
    assert lineage[..|lineage|] == lineage;
    error := None;
  }

  /** What the two loop variables say about the entries seen so far. */
  ghost predicate Checked(done: seq<Entry>, revision: Option<nat>, entryIds: set<Identifier>) {
    && Contiguous(done)
    && entryIds == (set e | e in done :: e.entryId)
    && revision == if |done| == 0 then None else Some(|done| - 1)
  }

  lemma OneMoreEntry(done: seq<Entry>, revision: Option<nat>, entryIds: set<Identifier>, entry: Entry)
    requires Checked(done, revision, entryIds)
    ensures Contiguous(done + [entry]) <==>
            entry.entryId !in entryIds && entry.revision == if revision.None? then 0 else revision.value + 1
    ensures entryIds + {entry.entryId} == set e | e in done + [entry] :: e.entryId
  {
    var next := done + [entry];
    assert next[|done|] == entry;
    assert forall k :: 0 <= k < |done| ==> next[k] == done[k] && done[k].entryId in entryIds;
  }

  lemma {:induction false} AllEntriesPrefix(lineage: seq<Verified>, i: nat)
    requires i <= |lineage|
    ensures AllEntries(lineage[..i]) <= AllEntries(lineage)
    decreases |lineage|
  {
    if i == |lineage| {
      assert lineage[..i] == lineage;
    } else {
      var init := lineage[..|lineage| - 1];
      AllEntriesPrefix(init, i);
      assert init[..i] == lineage[..i];
    }
  }

  /** A bad prefix of the entries spoils the whole lineage. */
  lemma EntriesContinue(lineage: seq<Verified>, i: nat, j: nat)
    requires i < |lineage| && j < |lineage[i].entries|
    requires !Contiguous(AllEntries(lineage[..i]) + lineage[i].entries[..j + 1])
    ensures !Contiguous(AllEntries(lineage))
  {
    AllEntriesPrefix(lineage, i + 1);
    assert lineage[..i + 1][..i] == lineage[..i];
    var bad, all := AllEntries(lineage[..i]) + lineage[i].entries[..j + 1], AllEntries(lineage);
    assert bad <= all;
    assert forall k :: 0 <= k < |bad| ==> all[k] == bad[k];
  }

  // ---------------------------------------------------------------- the selection

  /**
   * Succeeds exactly when the comments can be arranged as an acceptable chain, and returns that
   * one arrangement. The cycle branch is reached only by comments that share an id.
   */
  method SelectLinearLineage(comments: seq<Verified>) returns (r: Result<seq<Verified>, LineageError>)
    requires NonEmptyEntries(comments)
    ensures r.Success? ==> IsLineageOf(comments, r.value)
    ensures r.Failure? ==> forall chain: seq<Verified> :: !IsLineageOf(comments, chain)
    ensures r == Failure(Cycle) ==> !DistinctComments(comments)
  {
    var mixed := SessionsAndReportsAgree(comments);
    if mixed.Some? {
      forall chain: seq<Verified>
        ensures !IsLineageOf(comments, chain)
      {
        if IsLineageOf(comments, chain) {
          SameMembers(chain, comments);
        }
      }
      return Failure(mixed.value);
    }
    var root := FindRoot(comments);
    if root.Failure? {
      return Failure(root.error);
    }
    var children := LinkChildren(comments);
    if children.Failure? {
      return Failure(children.error);
    }
    var lineage := FollowLinks(comments, root.value, children.value);
    if lineage.Failure? {
      return lineage;
    }
    var bad := CheckRevisions(lineage.value);
    SameMembers(lineage.value, comments);
    if bad.Some? {
      forall chain: seq<Verified>
        ensures !IsLineageOf(comments, chain)
      {
        if IsLineageOf(comments, chain) {
          LinkedChainsAgree(comments, chain, lineage.value);
        }
      }
      return Failure(bad.value);
    }
    r := lineage;
  }

  lemma LinkedChainsAgree(comments: seq<Verified>, a: seq<Verified>, b: seq<Verified>)
    requires multiset(a) == multiset(comments) == multiset(b)
    requires Linked(a) && DistinctComments(a) && Linked(b)
    ensures a == b
  {
    SameMembers(a, b);
    forall i | 0 <= i < |a|
      ensures a[i] == b[i]
    {
      ChainsAgree(a, b, i);
    }
  }
}
