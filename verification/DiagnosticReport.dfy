/** The parts of a FailureReport that diagnosis reads and writes. */
module DiagnosticReport {
  import opened Common
  import opened Workpad

  datatype Revision = Revision(sha: string)
  /** The same Git object, whatever the case of its digits. */
  predicate SameRevision(a: Revision, b: Revision) {
    Lower(a.sha) == Lower(b.sha)
  }

  datatype ThreadId = ThreadId(text: string)

  datatype Sensitivity = Public | Internal | Restricted | Secret

  datatype Artifact = Artifact(ref: string, sensitivity: Sensitivity, rest: string)

  datatype Evidence = Evidence(id: Identifier, artifacts: seq<Artifact>, rest: string)

  /** A hypothesis or an experiment. */
  datatype Item = Item(id: Identifier, rest: string)

  datatype Input = Input(id: Identifier, artifact: Artifact)

  datatype Status = Intake | Investigating | Waiting | Diagnosed | TodoReady | NeedsInput | Inconclusive | Blocked | Superseded

  datatype Outcome = Outcome(
    status: Option<Status>,
    evidence: seq<Evidence>,
    operationEvidence: seq<Evidence>,
    hypotheses: seq<Item>,
    experiments: seq<Item>,
    conclusion: Option<string>)

  /** The immutable facts a completion is identified by. */
  datatype Binding = Binding(reportId: Identifier, target: Revision, session: Identifier, thread: ThreadId, head: Revision)

  datatype Completion = Completion(
    id: Identifier,
    binding: Binding,
    outcome: Outcome,
    completedAt: int,
    finishReason: Option<string>)

  datatype Lifecycle = Active | Finalized(branch: Revision)

  datatype Approval = Approval(id: Identifier, backend: Identifier, session: Identifier, rest: string)

  datatype Session = Session(
    lifecycle: Lifecycle,
    extensions: seq<Identifier>,
    backend: Identifier,
    thread: Option<ThreadId>,
    identity: Identifier,
    base: Revision,
    head: Revision,
    branchSlug: string,
    lastDiagnosed: Option<int>,
    approvals: seq<Approval>)

  datatype FailureReport = FailureReport(
    id: Identifier,
    target: Revision,
    status: Status,
    inputs: seq<Input>,
    evidence: seq<Evidence>,
    hypotheses: seq<Item>,
    experiments: seq<Item>,
    conclusion: string,
    session: Option<Session>,
    completions: seq<Completion>,
    hasContext: bool,
    rest: string)

  ghost predicate DistinctCompletions(cs: seq<Completion>) {
    forall i, j :: 0 <= i < j < |cs| ==> cs[i].id != cs[j].id
  }

  /** The session rules of the schema: approval ids are unique and belong to the session. */
  ghost predicate SessionOk(s: Session) {
    && (forall i, j :: 0 <= i < j < |s.approvals| ==> s.approvals[i].id != s.approvals[j].id)
    && (forall i :: 0 <= i < |s.approvals| ==> s.approvals[i].backend == s.backend && s.approvals[i].session == s.identity)
  }

  /** The completion rules of the schema. */
  ghost predicate ReportOk(r: FailureReport) {
    && (r.session.Some? ==> SessionOk(r.session.value))
    && (|r.completions| > 0 ==>
          && r.session.Some?
          && DistinctCompletions(r.completions)
          && forall i :: 0 <= i < |r.completions| ==>
               var b := r.completions[i].binding;
               && b.reportId == r.id && b.target == r.target
               && b.session == r.session.value.identity && Some(b.thread) == r.session.value.thread)
  }
}
