/** Rendering a handoff: which reports it accepts, and why set-like lists may come in any order. */
module Handoff {
  import opened Common
  import Decimal
  import opened Sorting
  import opened CanonicalJson

  // ---------------------------------------------------------------- sorted unique lists

  function TextOrder(): (Text, Text) -> bool {
    (a: Text, b: Text) => TextBefore(a, b)
  }

  lemma TextOrderFits(s: seq<Text>)
    ensures StrictOrder(TextOrder()) && TotalOn(TextOrder(), s)
  {
    hide TextBefore;
    forall a: Text
      ensures !TextOrder()(a, a)
    {
      TextBeforeIrreflexive(a);
    }
    forall a: Text, b: Text, c: Text | TextOrder()(a, b) && TextOrder()(b, c)
      ensures TextOrder()(a, c)
    {
      TextBeforeTransitive(a, b, c);
    }
    forall a, b | a in s && b in s
      ensures a == b || TextOrder()(a, b) || TextOrder()(b, a)
    {
      TextBeforeTotal(a, b);
    }
  }

  /** `[...new Set(values)]`: first occurrences, in order. */
  function Distinct<T(==, !new)>(values: seq<T>): (r: seq<T>)
    ensures forall x :: x in r <==> x in values
  {
    if |values| == 0 then []
    else
      var init, last := values[..|values| - 1], values[|values| - 1];
      assert values == init + [last];
      if last in init then Distinct(init) else Distinct(init) + [last]
  }

  lemma {:induction false} DistinctHasNoDuplicates<T(!new)>(values: seq<T>)
    ensures NoDuplicates(Distinct(values)) && Elements(Distinct(values)) == Elements(values)
  {
    if |values| > 0 {
      DistinctHasNoDuplicates(values[..|values| - 1]);
    }
  }

  function SortedUnique(values: seq<Text>): seq<Text> {
    Sort(TextOrder(), Distinct(values))
  }

  /** The result lists the same strings, ascending. */
  lemma SortedUniqueListsTheSet(values: seq<Text>)
    ensures Elements(SortedUnique(values)) == Elements(values)
    ensures StrictlyAscending(TextOrder(), SortedUnique(values))
  {
    var d, r := Distinct(values), SortedUnique(values);
    DistinctHasNoDuplicates(values);
    TextOrderFits(d);
    SortAscends(TextOrder(), d);
    MultisetMembers(r, d);
    DistinctCount(d);
    assert Elements(r) == Elements(d);
    DistinctCount(r);
    TextOrderFits(r);
    AscendingDistinctIsStrict(r);
  }

  lemma AscendingDistinctIsStrict(s: seq<Text>)
    requires NoDuplicates(s) && Ascending(TextOrder(), s) && TotalOn(TextOrder(), s)
    ensures StrictlyAscending(TextOrder(), s)
  {
    hide TextBefore;
    forall i, j | 0 <= i < j < |s|
      ensures TextOrder()(s[i], s[j])
    {
      assert s[i] in s && s[j] in s;
    }
  }

  /** Order and multiplicity of the input play no role. */
  lemma SortedUniqueForgetsOrder(a: seq<Text>, b: seq<Text>)
    requires Elements(a) == Elements(b)
    ensures SortedUnique(a) == SortedUnique(b)
  {
    hide TextBefore, SortedUnique;
    SortedUniqueListsTheSet(a);
    SortedUniqueListsTheSet(b);
    TextOrderFits([]);
    SameMembersAscending(TextOrder(), SortedUnique(a), SortedUnique(b));
  }

  // ---------------------------------------------------------------- reports

  datatype Reference = Reference(
    repository: string, issueNumber: nat, issueUrl: string, revision: nat, sessionId: string, entryId: string)

  datatype Snapshot = Snapshot(name: string, head: string, remoteRef: string, remoteUrl: string)

  datatype FinishedSession = FinishedSession(finalized: bool, base: string, head: string, slug: string, snapshot: Option<Snapshot>)

  datatype CompletionFacts = CompletionFacts(id: Text, head: string, evidence: seq<Text>, operations: seq<Text>)

  datatype Contract = Contract(
    goal: Text, whyNow: Text, uatRequired: bool,
    scopeIn: seq<Text>, scopeOut: seq<Text>, guardrails: seq<Text>, outcomes: seq<Text>,
    automated: seq<Text>, uat: seq<Text>, context: seq<Text>, residualRisks: seq<Text>)

  datatype ReadyReport = ReadyReport(
    id: Text, ready: bool, reference: Reference, targetRepository: string, targetRevision: string,
    session: Option<FinishedSession>, completions: seq<CompletionFacts>, evidence: seq<Text>, contract: Contract)

  /** Everything the handoff id and its Markdown are derived from. */
  datatype Payload = Payload(
    id: Text, reference: Reference, targetRepository: string, targetRevision: string, snapshot: Snapshot,
    completionIds: seq<Text>, evidenceRefs: seq<Text>, contract: Contract)

  datatype HandoffError =
    | NoWorkpad | OtherRepository | NotReady | NotFinalized | OtherBase | OtherHead | OtherBranch | NoCompletion | OtherLineage | NoEvidence

  /** Identity and Markdown are functions of the payload alone. */
  datatype Rendering = Rendering(identify: Payload -> string, markdown: (Payload, string) -> string, encode: string -> string)

  datatype ImplementationHandoff = ImplementationHandoff(payload: Payload, handoffId: string, markdown: string)

  // ---------------------------------------------------------------- snapshot identity

  function BranchName(issueNumber: nat, slug: string): string {
    "diagnostic/" + Decimal.Text(issueNumber) + "-" + slug
  }

  function SplitSlashes(s: string): (r: seq<string>)
    ensures |r| > 0
  {
    if |s| == 0 then [""]
    else
      var rest := SplitSlashes(s[..|s| - 1]);
      if s[|s| - 1] == '/' then rest + [""] else rest[|rest| - 1 := rest[|rest| - 1] + [s[|s| - 1]]]
  }

  function JoinEncoded(encode: string -> string, parts: seq<string>): string {
    if |parts| == 0 then ""
    else if |parts| == 1 then encode(parts[0])
    else JoinEncoded(encode, parts[..|parts| - 1]) + "/" + encode(parts[|parts| - 1])
  }

  function IssueSuffix(issueNumber: nat): string {
    "/issues/" + Decimal.Text(issueNumber)
  }

  predicate EndsWith(s: string, suffix: string) {
    |s| >= |suffix| && s[|s| - |suffix|..] == suffix
  }

  /** `s.slice(0, -n)` for positive `n`. */
  function WithoutEnd(s: string, n: nat): string {
    if n <= |s| then s[..|s| - n] else ""
  }

  function BranchUrl(encode: string -> string, issueUrl: string, issueNumber: nat, branch: string): string {
    WithoutEnd(issueUrl, |IssueSuffix(issueNumber)|) + "/tree/" + JoinEncoded(encode, SplitSlashes(branch))
  }

  /** The snapshot names exactly the branch of the Issue, locally, remotely and in its URL. */
  predicate SnapshotBelongs(encode: string -> string, reference: Reference, slug: string, s: Snapshot) {
    var branch := BranchName(reference.issueNumber, slug);
    && EndsWith(reference.issueUrl, IssueSuffix(reference.issueNumber))
    && s.name == branch && s.remoteRef == "refs/heads/" + branch
    && s.remoteUrl == BranchUrl(encode, reference.issueUrl, reference.issueNumber, branch)
  }

  // ---------------------------------------------------------------- rendering

  function EvidenceOf(c: CompletionFacts): seq<Text> {
    c.evidence + c.operations
  }

  function CompletionEvidence(cs: seq<CompletionFacts>): seq<Text> {
    if |cs| == 0 then [] else CompletionEvidence(cs[..|cs| - 1]) + EvidenceOf(cs[|cs| - 1])
  }

  function CompletionIds(cs: seq<CompletionFacts>): (r: seq<Text>)
    ensures |r| == |cs|
  {
    seq(|cs|, i requires 0 <= i < |cs| => cs[i].id)
  }

  function SortedContract(c: Contract): Contract {
    c.(scopeIn := SortedUnique(c.scopeIn), scopeOut := SortedUnique(c.scopeOut), guardrails := SortedUnique(c.guardrails),
       outcomes := SortedUnique(c.outcomes), automated := SortedUnique(c.automated), uat := SortedUnique(c.uat),
       context := SortedUnique(c.context), residualRisks := SortedUnique(c.residualRisks))
  }

  /** `reportReference`: the report has a persisted workpad identity and is about its Issue's repository. */
  function ReferenceProblem(reference: Reference, targetRepository: string): Option<HandoffError> {
    if reference.sessionId == "" || reference.entryId == "" then Some(NoWorkpad)
    else if reference.repository != targetRepository then Some(OtherRepository)
    else None
  }

  /** The lifecycle and identity checks before anything is rendered. */
  function Problem(encode: string -> string, r: ReadyReport): Option<HandoffError> {
    if ReferenceProblem(r.reference, r.targetRepository).Some? then ReferenceProblem(r.reference, r.targetRepository)
    else if !r.ready then Some(NotReady)
    else if r.session.None? || !r.session.value.finalized || r.session.value.snapshot.None? then Some(NotFinalized)
    else
      var s, snapshot := r.session.value, r.session.value.snapshot.value;
      if s.base != r.targetRevision then Some(OtherBase)
      else if s.head != snapshot.head then Some(OtherHead)
      else if !SnapshotBelongs(encode, r.reference, s.slug, snapshot) then Some(OtherBranch)
      else if |r.completions| == 0 then Some(NoCompletion)
      else if exists c :: c in r.completions && c.head != snapshot.head then Some(OtherLineage)
      else if |SortedUnique(r.evidence + CompletionEvidence(r.completions))| == 0 then Some(NoEvidence)
      else None
  }

  function PayloadOf(r: ReadyReport): Payload
    requires r.session.Some? && r.session.value.snapshot.Some?
  {
    Payload(r.id, r.reference, r.targetRepository, r.targetRevision, r.session.value.snapshot.value,
            SortedUnique(CompletionIds(r.completions)), SortedUnique(r.evidence + CompletionEvidence(r.completions)),
            SortedContract(r.contract))
  }

  /** `renderImplementationHandoff`. */
  function RenderImplementation(h: Rendering, r: ReadyReport): Result<ImplementationHandoff, HandoffError> {
    match Problem(h.encode, r)
    case Some(error) => Failure(error)
    case None =>
      var payload := PayloadOf(r);
      var id := h.identify(payload);
      Success(ImplementationHandoff(payload, id, h.markdown(payload, id)))
  }

  // ---------------------------------------------------------------- set content decides

  ghost predicate SameContract(a: Contract, b: Contract) {
    && a.goal == b.goal && a.whyNow == b.whyNow && a.uatRequired == b.uatRequired
    && Elements(a.scopeIn) == Elements(b.scopeIn) && Elements(a.scopeOut) == Elements(b.scopeOut)
    && Elements(a.guardrails) == Elements(b.guardrails) && Elements(a.outcomes) == Elements(b.outcomes)
    && Elements(a.automated) == Elements(b.automated) && Elements(a.uat) == Elements(b.uat)
    && Elements(a.context) == Elements(b.context) && Elements(a.residualRisks) == Elements(b.residualRisks)
  }

  /** Equal scalars, and lists with the same members. */
  ghost predicate SameContent(a: ReadyReport, b: ReadyReport) {
    && a.id == b.id && a.ready == b.ready && a.reference == b.reference && a.targetRepository == b.targetRepository
    && a.targetRevision == b.targetRevision && a.session == b.session
    && Elements(a.completions) == Elements(b.completions) && Elements(a.evidence) == Elements(b.evidence)
    && SameContract(a.contract, b.contract)
  }

  lemma {:induction false} EvidenceMembers(cs: seq<CompletionFacts>, x: Text)
    ensures x in CompletionEvidence(cs) <==> exists c :: c in cs && x in EvidenceOf(c)
  {
    if |cs| > 0 {
      var init, last := cs[..|cs| - 1], cs[|cs| - 1];
      assert cs == init + [last];
      EvidenceMembers(init, x);
    }
  }

  lemma SameCompletionsSameEvidence(a: seq<CompletionFacts>, b: seq<CompletionFacts>)
    requires Elements(a) == Elements(b)
    ensures Elements(CompletionEvidence(a)) == Elements(CompletionEvidence(b))
    ensures Elements(CompletionIds(a)) == Elements(CompletionIds(b))
  {
    assert forall c :: c in a <==> c in Elements(a);
    assert forall c :: c in b <==> c in Elements(b);
    forall x
      ensures x in CompletionEvidence(a) <==> x in CompletionEvidence(b)
    {
      EvidenceMembers(a, x);
      EvidenceMembers(b, x);
    }
    IdsCarryOver(a, b);
    IdsCarryOver(b, a);
  }

  lemma IdsCarryOver(a: seq<CompletionFacts>, b: seq<CompletionFacts>)
    requires forall c :: c in a ==> c in b
    ensures Elements(CompletionIds(a)) <= Elements(CompletionIds(b))
  {
    forall x | x in CompletionIds(a)
      ensures x in CompletionIds(b)
    {
      var i :| 0 <= i < |a| && CompletionIds(a)[i] == x;
      assert a[i] in b;
      var j :| 0 <= j < |b| && b[j] == a[i];
      assert CompletionIds(b)[j] == x;
    }
  }

  lemma SameContractSorted(a: Contract, b: Contract)
    requires SameContract(a, b)
    ensures SortedContract(a) == SortedContract(b)
  {
    hide SortedUnique;
    SortedUniqueForgetsOrder(a.scopeIn, b.scopeIn);
    SortedUniqueForgetsOrder(a.scopeOut, b.scopeOut);
    SortedUniqueForgetsOrder(a.guardrails, b.guardrails);
    SortedUniqueForgetsOrder(a.outcomes, b.outcomes);
    SortedUniqueForgetsOrder(a.automated, b.automated);
    SortedUniqueForgetsOrder(a.uat, b.uat);
    SortedUniqueForgetsOrder(a.context, b.context);
    SortedUniqueForgetsOrder(a.residualRisks, b.residualRisks);
  }

  /** Reports with the same content render the same handoff, or fail with the same error. */
  lemma HandoffDependsOnContent(h: Rendering, a: ReadyReport, b: ReadyReport)
    requires SameContent(a, b)
    ensures RenderImplementation(h, a) == RenderImplementation(h, b)
  {
    hide SortedUnique, SortedContract, SnapshotBelongs, CompletionEvidence, CompletionIds, SameContract;
    SameCompletionsSameEvidence(a.completions, b.completions);
    SortedUniqueForgetsOrder(CompletionIds(a.completions), CompletionIds(b.completions));
    SameUnion(a.evidence, b.evidence, CompletionEvidence(a.completions), CompletionEvidence(b.completions));
    SortedUniqueForgetsOrder(a.evidence + CompletionEvidence(a.completions), b.evidence + CompletionEvidence(b.completions));
    SameContractSorted(a.contract, b.contract);
    SameMembersSameEmptiness(a.completions, b.completions);
  }

  lemma SameUnion(a: seq<Text>, b: seq<Text>, c: seq<Text>, d: seq<Text>)
    requires Elements(a) == Elements(b) && Elements(c) == Elements(d)
    ensures Elements(a + c) == Elements(b + d)
  {
    assert Elements(a + c) == Elements(a) + Elements(c);
    assert Elements(b + d) == Elements(b) + Elements(d);
  }

  lemma SameMembersSameEmptiness<T(!new)>(a: seq<T>, b: seq<T>)
    requires Elements(a) == Elements(b)
    ensures |a| == 0 <==> |b| == 0
    ensures forall c :: c in a <==> c in b
  {
    assert forall c :: c in a <==> c in Elements(a);
    assert forall c :: c in b <==> c in Elements(b);
    assert |a| > 0 ==> a[0] in Elements(a);
    assert |b| > 0 ==> b[0] in Elements(b);
  }

  // ---------------------------------------------------------------- human input requests

  /** Evidence, an experiment or a hypothesis; `listed` is whether the request shows it. */
  datatype Finding = Finding(id: Text, text: Text, listed: bool)

  datatype Question = Question(unknown: Text, options: seq<Text>, question: Text, resume: Text)

  datatype OpenReport = OpenReport(
    id: Text, waiting: bool, reference: Reference, targetRepository: string, targetRevision: string,
    session: Option<ActiveSession>, facts: seq<Finding>, experiments: seq<Finding>, hypotheses: seq<Finding>, question: Question)

  datatype ActiveSession = ActiveSession(identity: string, active: bool, hasBranch: bool, hasThread: bool, base: string)

  datatype RequestPayload = RequestPayload(
    id: Text, reference: Reference, targetRepository: string, targetRevision: string, session: string,
    facts: seq<Finding>, experiments: seq<Finding>, hypotheses: seq<Finding>, question: Question)

  datatype RequestError = NotReferenced(reason: HandoffError) | NotWaiting | NotActive | NoThread | OtherTarget | NoFacts | NoExperiments | NoHypotheses

  function Listed(s: seq<Finding>): (r: seq<Finding>)
    ensures forall f :: f in r <==> f in s && f.listed
  {
    if |s| == 0 then []
    else
      assert s == s[..|s| - 1] + [s[|s| - 1]];
      if s[|s| - 1].listed then Listed(s[..|s| - 1]) + [s[|s| - 1]] else Listed(s[..|s| - 1])
  }

  function FindingOrder(): (Finding, Finding) -> bool {
    (a: Finding, b: Finding) => TextBefore(a.id, b.id)
  }

  function SortedFindings(s: seq<Finding>): seq<Finding> {
    Sort(FindingOrder(), Listed(s))
  }

  /** `renderHumanInputRequest` up to the payload its id and Markdown are derived from. */
  function RequestOf(r: OpenReport): Result<RequestPayload, RequestError> {
    if ReferenceProblem(r.reference, r.targetRepository).Some? then
      Failure(NotReferenced(ReferenceProblem(r.reference, r.targetRepository).value))
    else if !r.waiting then Failure(NotWaiting)
    else if r.session.None? || !r.session.value.active || r.session.value.hasBranch then Failure(NotActive)
    else if !r.session.value.hasThread then Failure(NoThread)
    else if r.session.value.base != r.targetRevision then Failure(OtherTarget)
    else
      var facts, experiments, hypotheses := SortedFindings(r.facts), SortedFindings(r.experiments), SortedFindings(r.hypotheses);
      if |facts| == 0 then Failure(NoFacts)
      else if |experiments| == 0 then Failure(NoExperiments)
      else if |hypotheses| == 0 then Failure(NoHypotheses)
      else
        Success(RequestPayload(r.id, r.reference, r.targetRepository, r.targetRevision, r.session.value.identity, facts,
                               experiments, hypotheses, r.question.(options := SortedUnique(r.question.options))))
  }

  ghost predicate DistinctFindings(s: seq<Finding>) {
    forall i, j :: 0 <= i < j < |s| ==> s[i].id != s[j].id
  }

  lemma {:induction false} ListedIsDistinct(s: seq<Finding>)
    requires DistinctFindings(s)
    ensures DistinctFindings(Listed(s))
  {
    if |s| > 0 {
      var init, last := s[..|s| - 1], s[|s| - 1];
      ListedIsDistinct(init);
      forall i | 0 <= i < |Listed(init)|
        ensures Listed(init)[i].id != last.id
      {
        assert Listed(init)[i] in init;
      }
    }
  }

  lemma FindingOrderFits(s: seq<Finding>)
    requires DistinctFindings(s)
    ensures StrictOrder(FindingOrder()) && TotalOn(FindingOrder(), s) && NoDuplicates(s)
  {
    hide TextBefore;
    forall a: Finding
      ensures !FindingOrder()(a, a)
    {
      TextBeforeIrreflexive(a.id);
    }
    forall a: Finding, b: Finding, c: Finding | FindingOrder()(a, b) && FindingOrder()(b, c)
      ensures FindingOrder()(a, c)
    {
      TextBeforeTransitive(a.id, b.id, c.id);
    }
    forall a, b | a in s && b in s
      ensures a == b || FindingOrder()(a, b) || FindingOrder()(b, a)
    {
      TextBeforeTotal(a.id, b.id);
      var i :| 0 <= i < |s| && s[i] == a;
      var j :| 0 <= j < |s| && s[j] == b;
      assert i < j ==> s[i].id != s[j].id;
      assert j < i ==> s[j].id != s[i].id;
    }
  }

  lemma FindingsForgetOrder(a: seq<Finding>, b: seq<Finding>)
    requires DistinctFindings(a) && DistinctFindings(b) && Elements(a) == Elements(b)
    ensures SortedFindings(a) == SortedFindings(b)
  {
    hide TextBefore;
    var x, y := Listed(a), Listed(b);
    ListedIsDistinct(a);
    ListedIsDistinct(b);
    FindingOrderFits(x);
    FindingOrderFits(y);
    SameMembersSameEmptiness(a, b);
    assert Elements(x) == Elements(y);
    DistinctMultiset(x);
    DistinctMultiset(y);
    SortForgetsOrder(FindingOrder(), x, y);
  }

  /** Equal scalars and the same findings and options, in whatever order, make the same request. */
  lemma RequestDependsOnContent(a: OpenReport, b: OpenReport)
    requires DistinctFindings(a.facts) && DistinctFindings(a.experiments) && DistinctFindings(a.hypotheses)
    requires DistinctFindings(b.facts) && DistinctFindings(b.experiments) && DistinctFindings(b.hypotheses)
    requires Elements(a.facts) == Elements(b.facts) && Elements(a.experiments) == Elements(b.experiments)
    requires Elements(a.hypotheses) == Elements(b.hypotheses) && Elements(a.question.options) == Elements(b.question.options)
    requires b == a.(facts := b.facts, experiments := b.experiments, hypotheses := b.hypotheses,
                     question := a.question.(options := b.question.options))
    ensures RequestOf(a) == RequestOf(b)
  {
    hide SortedFindings, SortedUnique;
    FindingsForgetOrder(a.facts, b.facts);
    FindingsForgetOrder(a.experiments, b.experiments);
    FindingsForgetOrder(a.hypotheses, b.hypotheses);
    SortedUniqueForgetsOrder(a.question.options, b.question.options);
  }

  // ---------------------------------------------------------------- exactly when the order shows

  /** Listed findings that share an id are the same finding. */
  ghost predicate Unambiguous(s: seq<Finding>) {
    forall f, g :: f in s && g in s && f.listed && g.listed && f.id == g.id ==> f == g
  }

  lemma {:induction false} ListedCounts(s: seq<Finding>, f: Finding)
    ensures multiset(Listed(s))[f] == if f.listed then multiset(s)[f] else 0
  {
    if |s| > 0 {
      ListedCounts(s[..|s| - 1], f);
      assert s == s[..|s| - 1] + [s[|s| - 1]];
    }
  }

  lemma ListedForgetsOrder(s: seq<Finding>, t: seq<Finding>)
    requires multiset(s) == multiset(t)
    ensures multiset(Listed(s)) == multiset(Listed(t))
  {
    forall f
      ensures multiset(Listed(s))[f] == multiset(Listed(t))[f]
    {
      ListedCounts(s, f);
      ListedCounts(t, f);
    }
  }

  lemma UnambiguousFits(s: seq<Finding>)
    requires Unambiguous(s)
    ensures StrictOrder(FindingOrder()) && TotalOn(FindingOrder(), Listed(s))
  {
    hide TextBefore;
    FindingOrderFits([]);
    forall f, g | f in Listed(s) && g in Listed(s)
      ensures f == g || FindingOrder()(f, g) || FindingOrder()(g, f)
    {
      TextBeforeTotal(f.id, g.id);
    }
  }

  lemma UnambiguousForgetsOrder(s: seq<Finding>, t: seq<Finding>)
    requires Unambiguous(s) && multiset(s) == multiset(t)
    ensures SortedFindings(s) == SortedFindings(t)
  {
    UnambiguousFits(s);
    ListedForgetsOrder(s, t);
    hide TextBefore, StrictOrder, TotalOn;
    SortForgetsOrder(FindingOrder(), Listed(s), Listed(t));
  }

  /** The findings of one id, in order. */
  function WithId(s: seq<Finding>, id: Text): seq<Finding> {
    if |s| == 0 then []
    else if s[|s| - 1].id == id then WithId(s[..|s| - 1], id) + [s[|s| - 1]]
    else WithId(s[..|s| - 1], id)
  }

  lemma WithIdSnoc(s: seq<Finding>, f: Finding, id: Text)
    ensures WithId(s + [f], id) == WithId(s, id) + if f.id == id then [f] else []
  {
    assert (s + [f])[..|s|] == s;
  }

  lemma {:induction false} InsertIsStable(s: seq<Finding>, f: Finding, id: Text)
    ensures WithId(Insert(FindingOrder(), s, f), id) == WithId(s, id) + if f.id == id then [f] else []
  {
    hide TextBefore, WithId;
    WithIdSnoc(s, f, id);
    if |s| == 0 {
      assert s + [f] == [f] && s == [];
    } else {
      var init, last := s[..|s| - 1], s[|s| - 1];
      assert s == init + [last];
      WithIdSnoc(init, last, id);
      if TextBefore(f.id, last.id) {
        InsertIsStable(init, f, id);
        WithIdSnoc(Insert(FindingOrder(), init, f), last, id);
        TextBeforeIrreflexive(f.id);
      }
    }
  }

  /** Sorting keeps the findings of one id in the order of the report. */
  lemma {:induction false} SortIsStable(s: seq<Finding>, id: Text)
    ensures WithId(Sort(FindingOrder(), s), id) == WithId(s, id)
  {
    hide Insert, TextBefore, WithId;
    if |s| == 0 {
      assert Sort(FindingOrder(), s) == s;
    } else {
      var init, last := s[..|s| - 1], s[|s| - 1];
      SortIsStable(init, id);
      InsertIsStable(Sort(FindingOrder(), init), last, id);
      WithIdSnoc(init, last, id);
      assert s == init + [last];
    }
  }

  lemma {:induction false} ListedConcat(a: seq<Finding>, b: seq<Finding>)
    ensures Listed(a + b) == Listed(a) + Listed(b)
  {
    if |b| == 0 {
      assert a + b == a;
    } else {
      ListedConcat(a, b[..|b| - 1]);
      assert (a + b)[..|a + b| - 1] == a + b[..|b| - 1];
    }
  }

  lemma {:induction false} WithIdConcat(a: seq<Finding>, b: seq<Finding>, id: Text)
    ensures WithId(a + b, id) == WithId(a, id) + WithId(b, id)
  {
    if |b| == 0 {
      assert a + b == a;
    } else {
      WithIdConcat(a, b[..|b| - 1], id);
      assert (a + b)[..|a + b| - 1] == a + b[..|b| - 1];
    }
  }

  /** Which of two findings of one id comes first shows in the sorted list. */
  lemma FirstOfIdShows(f: Finding, g: Finding, rest: seq<Finding>)
    requires f.listed && g.listed && f.id == g.id && f != g
    ensures SortedFindings([f, g] + rest) != SortedFindings([g, f] + rest)
  {
    hide Sort, Listed, WithId;
    LeadingPair(f, g, rest);
    LeadingPair(g, f, rest);
    assert ([f, g] + WithId(Listed(rest), f.id))[0] == f;
    assert ([g, f] + WithId(Listed(rest), f.id))[0] == g;
    SortIsStable(Listed([f, g] + rest), f.id);
    SortIsStable(Listed([g, f] + rest), f.id);
  }

  lemma OnlyListed(f: Finding)
    requires f.listed
    ensures Listed([f]) == [f] && WithId([f], f.id) == [f]
  {
    assert [f][..0] == [];
  }

  lemma LeadingPair(f: Finding, g: Finding, rest: seq<Finding>)
    requires f.listed && g.listed && f.id == g.id
    ensures WithId(Listed([f, g] + rest), f.id) == [f, g] + WithId(Listed(rest), f.id)
  {
    hide Listed, WithId;
    OnlyListed(f);
    OnlyListed(g);
    assert [f, g] == [f] + [g];
    ListedConcat([f], [g]);
    ListedConcat([f, g], rest);
    WithIdConcat([f], [g], f.id);
    WithIdConcat([f, g], Listed(rest), f.id);
  }

  /** Two listed findings that share an id and differ: some other order of the same list sorts differently. */
  lemma SharedIdsShowOrder(s: seq<Finding>, i: nat, j: nat) returns (t: seq<Finding>)
    requires i < j < |s| && s[i].listed && s[j].listed && s[i].id == s[j].id && s[i] != s[j]
    ensures multiset(t) == multiset(s) && SortedFindings(t) != SortedFindings(s)
  {
    hide SortedFindings;
    var rest := s[..i] + s[i + 1..j] + s[j + 1..];
    assert s == s[..i] + [s[i]] + s[i + 1..j] + [s[j]] + s[j + 1..];
    FirstOfIdShows(s[i], s[j], rest);
    var one, other := [s[i], s[j]] + rest, [s[j], s[i]] + rest;
    assert multiset(one) == multiset(s) == multiset(other);
    t := if SortedFindings(one) != SortedFindings(s) then one else other;
  }

  /** The order of a list plays no role if and only if its listed findings are told apart by their ids. */
  lemma OrderIsForgottenIff(s: seq<Finding>)
    ensures Unambiguous(s) <==> forall t: seq<Finding> :: multiset(t) == multiset(s) ==> SortedFindings(t) == SortedFindings(s)
  {
    hide SortedFindings;
    if Unambiguous(s) {
      forall t: seq<Finding> | multiset(t) == multiset(s)
        ensures SortedFindings(t) == SortedFindings(s)
      {
        UnambiguousForgetsOrder(s, t);
      }
    } else {
      var f, g :| f in s && g in s && f.listed && g.listed && f.id == g.id && f != g;
      var i :| 0 <= i < |s| && s[i] == f;
      var j :| 0 <= j < |s| && s[j] == g;
      if i < j {
        var t := SharedIdsShowOrder(s, i, j);
      } else {
        var t := SharedIdsShowOrder(s, j, i);
      }
    }
  }

  /** The same report with its lists in another order, options possibly repeated. */
  ghost predicate SameUpToOrder(a: OpenReport, b: OpenReport) {
    && b == a.(facts := b.facts, experiments := b.experiments, hypotheses := b.hypotheses,
               question := a.question.(options := b.question.options))
    && multiset(b.facts) == multiset(a.facts) && multiset(b.experiments) == multiset(a.experiments)
    && multiset(b.hypotheses) == multiset(a.hypotheses) && Elements(b.question.options) == Elements(a.question.options)
  }

  ghost predicate AllUnambiguous(r: OpenReport) {
    Unambiguous(r.facts) && Unambiguous(r.experiments) && Unambiguous(r.hypotheses)
  }

  lemma SortedLength(s: seq<Finding>, t: seq<Finding>)
    requires multiset(s) == multiset(t)
    ensures |SortedFindings(s)| == |SortedFindings(t)|
  {
    ListedForgetsOrder(s, t);
    assert |multiset(Listed(s))| == |multiset(Listed(t))|;
  }

  /** The order of the report plays no role for its request exactly if it has none to show or shows none. */
  lemma RequestForgetsOrderIff(r: OpenReport)
    ensures (forall b :: SameUpToOrder(r, b) ==> RequestOf(b) == RequestOf(r)) <==> RequestOf(r).Failure? || AllUnambiguous(r)
  {
    hide SortedFindings, SortedUnique, Unambiguous;
    if RequestOf(r).Failure? || AllUnambiguous(r) {
      forall b | SameUpToOrder(r, b)
        ensures RequestOf(b) == RequestOf(r)
      {
        OtherOrderSameRequest(r, b);
      }
    } else {
      var b := AmbiguousRequest(r);
      assert SameUpToOrder(r, b);
    }
  }

  lemma OtherOrderSameRequest(r: OpenReport, b: OpenReport)
    requires SameUpToOrder(r, b) && (RequestOf(r).Failure? || AllUnambiguous(r))
    ensures RequestOf(b) == RequestOf(r)
  {
    hide SortedFindings, SortedUnique, Unambiguous;
    SortedLength(b.facts, r.facts);
    SortedLength(b.experiments, r.experiments);
    SortedLength(b.hypotheses, r.hypotheses);
    SortedUniqueForgetsOrder(b.question.options, r.question.options);
    if AllUnambiguous(r) {
      UnambiguousForgetsOrder(r.facts, b.facts);
      UnambiguousForgetsOrder(r.experiments, b.experiments);
      UnambiguousForgetsOrder(r.hypotheses, b.hypotheses);
    }
  }

  /** A request with findings that its ids do not tell apart comes out differently in another order. */
  lemma AmbiguousRequest(r: OpenReport) returns (b: OpenReport)
    requires RequestOf(r).Success? && !AllUnambiguous(r)
    ensures SameUpToOrder(r, b) && RequestOf(b) != RequestOf(r)
  {
    hide SortedFindings, SortedUnique, Unambiguous;
    b := r;
    if !Unambiguous(r.facts) {
      var t := OtherOrder(r.facts);
      SortedLength(t, r.facts);
      b := r.(facts := t);
    } else if !Unambiguous(r.experiments) {
      var t := OtherOrder(r.experiments);
      SortedLength(t, r.experiments);
      b := r.(experiments := t);
    } else {
      var t := OtherOrder(r.hypotheses);
      SortedLength(t, r.hypotheses);
      b := r.(hypotheses := t);
    }
  }

  lemma OtherOrder(s: seq<Finding>) returns (t: seq<Finding>)
    requires !Unambiguous(s)
    ensures multiset(t) == multiset(s) && SortedFindings(t) != SortedFindings(s)
  {
    hide SortedFindings, Unambiguous;
    OrderIsForgottenIff(s);
    t :| multiset(t) == multiset(s) && SortedFindings(t) != SortedFindings(s);
  }
}
