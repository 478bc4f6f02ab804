/** What a rendered handoff and a human-input request say, and exactly when they are rendered. */
module HandoffContent {
  import opened Common
  import opened Sorting
  import opened CanonicalJson
  import opened Handoff
  import Decimal

  // ---------------------------------------------------------------- the order of strings

  /** Strings are ordered by their first differing code unit, and a proper prefix comes first. */
  lemma {:induction false} OrderIsByCodeUnits(a: Text, b: Text)
    ensures TextBefore(a, b) <==>
            || (|a| < |b| && a == b[..|a|])
            || exists i :: 0 <= i < |a| && i < |b| && a[..i] == b[..i] && a[i] < b[i]
  {
    if |a| > 0 && |b| > 0 && a[0] == b[0] {
      OrderIsByCodeUnits(a[1..], b[1..]);
      assert |a| < |b| && a == b[..|a|] <==> |a[1..]| < |b[1..]| && a[1..] == b[1..][..|a[1..]|] by {
        assert a == [a[0]] + a[1..] && b[..1] == [b[0]];
        assert |a| <= |b| ==> b[..|a|] == [b[0]] + b[1..][..|a| - 1];
      }
      forall i | 0 < i < |a| && i < |b|
        ensures a[..i] == b[..i] <==> a[1..][..i - 1] == b[1..][..i - 1]
      {
        assert a[..i] == [a[0]] + a[1..][..i - 1] && b[..i] == [b[0]] + b[1..][..i - 1];
      }
      if i :| 0 <= i < |a| && i < |b| && a[..i] == b[..i] && a[i] < b[i] {
        assert a[1..][i - 1] < b[1..][i - 1];
      }
      if i :| 0 <= i < |a[1..]| && i < |b[1..]| && a[1..][..i] == b[1..][..i] && a[1..][i] < b[1..][i] {
        assert a[1..][..i + 1 - 1] == b[1..][..i + 1 - 1];
        assert a[..i + 1] == b[..i + 1] && a[i + 1] < b[i + 1];
      }
    } else if |a| > 0 && |b| > 0 {
      assert a[..0] == b[..0];
      forall i | 0 < i <= |a| && i <= |b|
        ensures a[..i] != b[..i]
      {
        assert a[..i][0] == a[0] && b[..i][0] == b[0];
      }
      assert a[..|a|] == a;
    }
  }

  // ---------------------------------------------------------------- the implementation handoff

  /** `shown` lists the members of `given`, each once, in the order of code units. */
  ghost predicate ListsSet(given: seq<Text>, shown: seq<Text>) {
    Elements(shown) == Elements(given) && StrictlyAscending(TextOrder(), shown)
  }

  /** The rendered contract has the report's own words and lists, each under its own heading. */
  ghost predicate SaysContract(given: Contract, shown: Contract) {
    && shown.goal == given.goal && shown.whyNow == given.whyNow && shown.uatRequired == given.uatRequired
    && ListsSet(given.scopeIn, shown.scopeIn) && ListsSet(given.scopeOut, shown.scopeOut)
    && ListsSet(given.guardrails, shown.guardrails) && ListsSet(given.outcomes, shown.outcomes)
    && ListsSet(given.automated, shown.automated) && ListsSet(given.uat, shown.uat)
    && ListsSet(given.context, shown.context) && ListsSet(given.residualRisks, shown.residualRisks)
  }

  lemma SortedContractSays(c: Contract)
    ensures SaysContract(c, SortedContract(c))
  {
    hide SortedUnique, TextOrder, StrictlyAscending;
    SortedUniqueListsTheSet(c.scopeIn);
    SortedUniqueListsTheSet(c.scopeOut);
    SortedUniqueListsTheSet(c.guardrails);
    SortedUniqueListsTheSet(c.outcomes);
    SortedUniqueListsTheSet(c.automated);
    SortedUniqueListsTheSet(c.uat);
    SortedUniqueListsTheSet(c.context);
    SortedUniqueListsTheSet(c.residualRisks);
  }

  /** A rendered handoff says what the report says: its identity, its snapshot, its completions, all evidence and its contract. */
  lemma HandoffSaysTheReport(h: Rendering, r: ReadyReport)
    requires RenderImplementation(h, r).Success?
    ensures r.session.Some? && r.session.value.snapshot.Some?
    ensures var x := RenderImplementation(h, r).value; var p := x.payload;
            && p.id == r.id && p.reference == r.reference && p.targetRepository == r.targetRepository
            && p.targetRevision == r.targetRevision && p.snapshot == r.session.value.snapshot.value
            && SaysContract(r.contract, p.contract)
            && x.handoffId == h.identify(p) && x.markdown == h.markdown(p, x.handoffId)
    ensures var p := RenderImplementation(h, r).value.payload;
            && StrictlyAscending(TextOrder(), p.completionIds) && StrictlyAscending(TextOrder(), p.evidenceRefs)
            && (forall x :: x in p.completionIds <==> exists c :: c in r.completions && c.id == x)
            && (forall x :: x in p.evidenceRefs <==>
                  x in r.evidence || exists c :: c in r.completions && (x in c.evidence || x in c.operations))
  {
    hide SortedUnique, SortedContract, SaysContract, SnapshotBelongs, CompletionIds, TextOrder, StrictlyAscending;
    SortedContractSays(r.contract);
    var ids, refs := CompletionIds(r.completions), r.evidence + CompletionEvidence(r.completions);
    SortedUniqueListsTheSet(ids);
    SortedUniqueListsTheSet(refs);
    SameElements(SortedUnique(ids), ids);
    SameElements(SortedUnique(refs), refs);
    IdsAreListed(r.completions);
    forall x
      ensures x in refs <==> x in r.evidence || exists c :: c in r.completions && (x in c.evidence || x in c.operations)
    {
      EvidenceMembers(r.completions, x);
    }
  }

  lemma SameElements(a: seq<Text>, b: seq<Text>)
    requires Elements(a) == Elements(b)
    ensures forall x :: x in a <==> x in b
  {
    assert forall x :: x in a <==> x in Elements(a);
    assert forall x :: x in b <==> x in Elements(b);
  }

  lemma IdsAreListed(cs: seq<CompletionFacts>)
    ensures forall x :: x in CompletionIds(cs) <==> exists c :: c in cs && c.id == x
  {
    forall x
      ensures x in CompletionIds(cs) <==> exists c :: c in cs && c.id == x
    {
      if c :| c in cs && c.id == x {
        var i :| 0 <= i < |cs| && cs[i] == c;
        assert CompletionIds(cs)[i] == x;
      }
    }
  }

  /** The snapshot is the Issue's own diagnostic branch, spelled out. */
  predicate IsIssueBranch(encode: string -> string, reference: Reference, slug: string, s: Snapshot) {
    var issue := "/issues/" + Decimal.Text(reference.issueNumber);
    var branch := "diagnostic/" + Decimal.Text(reference.issueNumber) + "-" + slug;
    && |issue| <= |reference.issueUrl| && reference.issueUrl[|reference.issueUrl| - |issue|..] == issue
    && s.name == branch && s.remoteRef == "refs/heads/" + branch
    && s.remoteUrl == reference.issueUrl[..|reference.issueUrl| - |issue|] + "/tree/" + JoinEncoded(encode, SplitSlashes(branch))
  }

  /** A handoff is rendered if and only if every one of these facts holds; otherwise it needs input. */
  lemma HandoffIsRenderedIff(h: Rendering, r: ReadyReport)
    ensures RenderImplementation(h, r).Success? <==>
            && r.reference.sessionId != "" && r.reference.entryId != "" && r.reference.repository == r.targetRepository
            && r.ready && r.session.Some? && r.session.value.finalized && r.session.value.snapshot.Some?
            && r.session.value.base == r.targetRevision && r.session.value.head == r.session.value.snapshot.value.head
            && IsIssueBranch(h.encode, r.reference, r.session.value.slug, r.session.value.snapshot.value)
            && |r.completions| > 0 && (forall c :: c in r.completions ==> c.head == r.session.value.head)
            && (r.evidence != [] || exists c :: c in r.completions && (c.evidence != [] || c.operations != []))
  {
    hide SortedUnique, SortedContract, CompletionIds, SnapshotBelongs, IsIssueBranch, CompletionEvidence, PayloadOf;
    EvidenceIff(r);
    if r.session.Some? && r.session.value.snapshot.Some? {
      IssueBranchIff(h.encode, r.reference, r.session.value.slug, r.session.value.snapshot.value);
    }
  }

  lemma IssueBranchIff(encode: string -> string, reference: Reference, slug: string, s: Snapshot)
    ensures SnapshotBelongs(encode, reference, slug, s) <==> IsIssueBranch(encode, reference, slug, s)
  {
    hide JoinEncoded, SplitSlashes;
  }

  lemma EvidenceIff(r: ReadyReport)
    ensures |SortedUnique(r.evidence + CompletionEvidence(r.completions))| == 0 <==>
            r.evidence == [] && !exists c :: c in r.completions && (c.evidence != [] || c.operations != [])
  {
    hide SortedUnique, CompletionEvidence;
    var refs := r.evidence + CompletionEvidence(r.completions);
    SortedUniqueListsTheSet(refs);
    SameElements(SortedUnique(refs), refs);
    assert |refs| > 0 ==> refs[0] in SortedUnique(refs);
    assert |SortedUnique(refs)| > 0 ==> SortedUnique(refs)[0] in refs;
    NoEvidenceIff(r.completions);
  }

  lemma {:induction false} NoEvidenceIff(cs: seq<CompletionFacts>)
    ensures CompletionEvidence(cs) != [] <==> exists c :: c in cs && (c.evidence != [] || c.operations != [])
  {
    if |cs| > 0 {
      var init, last := cs[..|cs| - 1], cs[|cs| - 1];
      assert cs == init + [last];
      NoEvidenceIff(init);
    }
  }

  /** A branch name is encoded segment by segment: its slashes stay, and nothing else is a segment. */
  lemma {:induction false} SegmentsRejoin(s: string)
    ensures JoinEncoded(part => part, SplitSlashes(s)) == s
    ensures forall part :: part in SplitSlashes(s) ==> '/' !in part
  {
    if |s| > 0 {
      var init, c := s[..|s| - 1], s[|s| - 1];
      assert s == init + [c];
      SegmentsRejoin(init);
      var rest := SplitSlashes(init);
      var last := |rest| - 1;
      if c == '/' {
        assert (rest + [""])[..|rest|] == rest;
      } else {
        var grown := rest[last := rest[last] + [c]];
        assert grown[..last] == rest[..last];
        assert forall part :: part in grown ==> part in rest || part == rest[last] + [c];
        assert rest[last] in rest;
      }
    }
  }

  // ---------------------------------------------------------------- the human-input request

  /** The shown items are the listed ones of the report, as often as there, ordered by id. */
  ghost predicate ShowsFindings(given: seq<Finding>, shown: seq<Finding>) {
    && (forall f :: multiset(shown)[f] == if f.listed then multiset(given)[f] else 0)
    && Ascending(FindingOrder(), shown)
  }

  lemma SortedFindingsShow(s: seq<Finding>)
    ensures ShowsFindings(s, SortedFindings(s))
  {
    hide TextBefore;
    forall f
      ensures multiset(SortedFindings(s))[f] == if f.listed then multiset(s)[f] else 0
    {
      ListedCounts(s, f);
    }
    SortByIdAscends(Listed(s));
  }

  lemma {:induction false} InsertByIdAscends(s: seq<Finding>, f: Finding)
    requires Ascending(FindingOrder(), s)
    ensures Ascending(FindingOrder(), Insert(FindingOrder(), s, f))
  {
    hide TextBefore, Ascending;
    if |s| == 0 {
      OneAscends(f);
    } else {
      var init, last := s[..|s| - 1], s[|s| - 1];
      assert s == init + [last];
      if TextBefore(f.id, last.id) {
        InitAscends(init, last);
        InsertByIdAscends(init, f);
        LastStaysLast(Insert(FindingOrder(), init, f), f, last, init);
      } else {
        LastGoesLast(s, f);
      }
    }
  }

  lemma OneAscends(f: Finding)
    ensures Ascending(FindingOrder(), [f])
  {
  }

  lemma InitAscends(init: seq<Finding>, last: Finding)
    requires Ascending(FindingOrder(), init + [last])
    ensures Ascending(FindingOrder(), init)
  {
    hide TextBefore;
    assert forall i :: 0 <= i < |init| ==> (init + [last])[i] == init[i];
  }

  lemma LastStaysLast(r: seq<Finding>, f: Finding, last: Finding, init: seq<Finding>)
    requires TextBefore(f.id, last.id) && Ascending(FindingOrder(), init + [last])
    requires Ascending(FindingOrder(), r) && multiset(r) == multiset(init) + multiset{f}
    ensures Ascending(FindingOrder(), r + [last])
  {
    hide TextBefore;
    forall i | 0 <= i < |r|
      ensures !TextBefore(last.id, r[i].id)
    {
      assert r[i] in multiset(r);
      NotAfter(f, last, init, r[i]);
    }
  }

  lemma LastGoesLast(s: seq<Finding>, f: Finding)
    requires |s| > 0 && Ascending(FindingOrder(), s) && !TextBefore(f.id, s[|s| - 1].id)
    ensures Ascending(FindingOrder(), s + [f])
  {
    hide TextBefore;
    forall i | 0 <= i < |s|
      ensures !TextBefore(f.id, s[i].id)
    {
      TextBeforeIrreflexive(s[i].id);
      NotBefore(f, s[|s| - 1], s[i]);
    }
  }

  lemma NotAfter(f: Finding, last: Finding, init: seq<Finding>, y: Finding)
    requires TextBefore(f.id, last.id) && Ascending(FindingOrder(), init + [last]) && (y in init || y == f)
    ensures !TextBefore(last.id, y.id)
  {
    hide TextBefore;
    if y == f && TextBefore(last.id, f.id) {
      TextBeforeTransitive(f.id, last.id, f.id);
      TextBeforeIrreflexive(f.id);
    } else if y in init {
      var i :| 0 <= i < |init| && init[i] == y;
      assert (init + [last])[i] == y && (init + [last])[|init|] == last;
    }
  }

  lemma NotBefore(f: Finding, last: Finding, y: Finding)
    requires !TextBefore(f.id, last.id) && !TextBefore(last.id, y.id)
    ensures !TextBefore(f.id, y.id)
  {
    hide TextBefore;
    TextBeforeTotal(last.id, y.id);
    if TextBefore(f.id, y.id) && TextBefore(y.id, last.id) {
      TextBeforeTransitive(f.id, y.id, last.id);
    }
  }

  lemma {:induction false} SortByIdAscends(s: seq<Finding>)
    ensures Ascending(FindingOrder(), Sort(FindingOrder(), s))
  {
    hide TextBefore, Insert;
    if |s| > 0 {
      SortByIdAscends(s[..|s| - 1]);
      InsertByIdAscends(Sort(FindingOrder(), s[..|s| - 1]), s[|s| - 1]);
    }
  }

  /** A rendered request says what the report says, each finding in its own section. */
  lemma RequestSaysTheReport(r: OpenReport)
    requires RequestOf(r).Success?
    ensures r.session.Some?
    ensures var p := RequestOf(r).value;
            && p.id == r.id && p.reference == r.reference && p.targetRepository == r.targetRepository
            && p.targetRevision == r.targetRevision && p.session == r.session.value.identity
            && ShowsFindings(r.facts, p.facts) && ShowsFindings(r.experiments, p.experiments)
            && ShowsFindings(r.hypotheses, p.hypotheses)
            && p.question.unknown == r.question.unknown && p.question.question == r.question.question
            && p.question.resume == r.question.resume && ListsSet(r.question.options, p.question.options)
  {
    hide SortedFindings, SortedUnique, ShowsFindings, TextOrder, StrictlyAscending;
    SortedFindingsShow(r.facts);
    SortedFindingsShow(r.experiments);
    SortedFindingsShow(r.hypotheses);
    SortedUniqueListsTheSet(r.question.options);
  }

  /** A request is rendered if and only if every one of these facts holds; otherwise it needs input. */
  lemma RequestIsRenderedIff(r: OpenReport)
    ensures RequestOf(r).Success? <==>
            && r.reference.sessionId != "" && r.reference.entryId != "" && r.reference.repository == r.targetRepository
            && r.waiting && r.session.Some? && r.session.value.active && !r.session.value.hasBranch && r.session.value.hasThread
            && r.session.value.base == r.targetRevision
            && (exists f :: f in r.facts && f.listed) && (exists f :: f in r.experiments && f.listed)
            && (exists f :: f in r.hypotheses && f.listed)
  {
    hide SortedUnique, SortedFindings;
    SomethingListed(r.facts);
    SomethingListed(r.experiments);
    SomethingListed(r.hypotheses);
  }

  lemma SomethingListed(s: seq<Finding>)
    ensures |SortedFindings(s)| > 0 <==> exists f :: f in s && f.listed
  {
    assert |Listed(s)| > 0 ==> Listed(s)[0] in Listed(s);
  }
}
