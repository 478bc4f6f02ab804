# FailureReport verification model

FailureReport keeps a diagnosis of a failure durable across crashes, retries and several processes. This project models its
stateful core in Dafny and proves what its documentation, comments and tests promise of it.

- **Root operation ledger** (`RootLedger`, `SessionLedger`, `LedgerInvariant`, `Retention`, `RetiredFilter`, `Base64`,
  `DeliveryProtocol`, `DeliverySafety`, `DeliveryRuns`, `RootSteps`, `RootQueue`, `RootAnswers`). Each session key owns a ledger with an active operation, a FIFO queue,
  operation records, a Bloom-style filter of retired ids, a cursor and a sticky block reason. `SessionLedger` holds the
  mutations as methods of an object; `DeliveryProtocol` is the transition system of several invokers on one store, with crashes,
  restarts and writes that are reported, lost or applied unreported. Ghost state counts sends per id and keeps the exact set of
  registered ids. `RootAnswers` says what every registration is answered and which result is stored.
- **Issue workpad** (`Workpad`, `Chunks`, `ChunkReuse`, `Decimal`, `Lineage`, `IssueWorkpad`, `IssueChanges`, `Publication`,
  `PublicationClosure`, `PublicationRuns`, `PublicationHistory`, `PublicationConflicts`, `PublicationRetry`, `PublicationBudget`,
  `PublicationContent`, `ManifestContent`, `ChunkIdentity`, `IssueGateway`). A GitHub Issue is a list of comments whose verified
  members form one predecessor chain; oversized entries are split into content-addressed chunks that a manifest makes visible.
  The last modules named state what a plan writes, within which budget, and what a reader may rely on.
- **Workpad text** (`PrettyJson`, `PrettyCompact`, `WorkpadView`, `WorkpadEscapes`, `WorkpadLines`, `WorkpadMarks`, `WorkpadStrings`, `WorkpadText`,
  `WorkpadReadback`). How an entry is printed into a comment and parsed back, down to lines, marker scanning, JSON escapes and the
  escapes of the human view.
- **Completion reconciliation** (`DiagnosticReport`, `ArtifactReferences`, `ArtifactHandles`, `CompletionRecords`,
  `Reconciliation`, `ReconciliationRuns`, `ReconciliationLoop`, `ReconciliationAttempts`, `DiagnosisShown`, `DiagnosisSteps`). The
  read, merge, write and read-back loop of a finished diagnosis, what it leaves in the report, and the public form of artifacts.
- **Native approval broker** (`ApprovalBroker`, `ApprovalRuns`, `ApprovalLeases`, `ApprovalOutcomes`, `ApprovalMemory`). One live
  lease raced by resolve, cancel, timeout, interrupt and duplicates; every await is an interleaving point. `ApprovalOutcomes` says
  what each exchange is answered and recorded, and why.
- **Transport, handoff and snapshots** (`Utf8`, `JsonlTransport`, `JsonlAnswers`, `Sorting`, `CanonicalJson`, `JsonText`,
  `Handoff`, `HandoffContent`, `SnapshotRefs`). Decoding of reads, JSONL framing and the pending-request table, canonical JSON and
  set-like rendering, and snapshot branches over an abstract Git ref store. Small types and sequence facts are in `Common`.

`dafny verify dfyconfig.toml` checks the whole project.

## Conventions

- Mutations of an object are methods proved against a specification function on its value; what the source promises is proved
  about that function.
- SHA-256, the schema checks, the credential pattern, `JSON.parse` and the size of a request are fields of a record of functions
  (`Hashes`, `Platform`, `Host`, `Rules`, `EntryFormat`). Hypotheses about them are named predicates: `PlatformOk` and `FormatOk`
  say that a serialised entry is read back, `HostOk` that ids are totally ordered,
  `SizeIgnoresGroupDigits` that a body's size depends on the length of its group id only, `PlainDigests` that digests hold no
  slash. No statement assumes that SHA-256 has no
  collisions; where two payloads would share a digest, the statement says so.
- Clocks are integer parameters of each step. Which of several records with equal completion time a compaction keeps is left
  open, so the statements hold for every choice.
- The body of a comment is a value in the workpad modules: what was put into it. Printed entries are read back unless one of them
  is marked, that is, unless a string of its report contains a marker that the parser reserves. `WorkpadReadback` derives this rule
  from the text of comments. In the text modules `\r\n` and `\n` count
  as the same line break, as they do for the parser, and a carriage return at the very end of the text is kept apart.

## What the proofs brought to light

- A comment at `eve/agent/lib/backends/native-approval-broker.ts:378-379` says that the backend receives only a denial when
  approval evidence cannot be stored. The code throws before any reply, so the backend receives nothing
  (`ApprovalRuns.UnrecordedApprovalGetsNoReply`).
- The broker looks at its live lease and its interrupt flag before it awaits the session check and not after. A lease is lost
  exactly when a registration passes its session check while that lease is live (`ApprovalLeases.NoLeaseDroppedIff`): overlapping
  registrations make this possible (`ApprovalLeases.OverlapDropsALease`), registrations one after the other do not. For the same
  reason a waiting registration goes live after an interrupt (`ApprovalLeases.LateRegistrationGoesLive`).
- At-most-once delivery rests on the write that blocks a session: if that write is lost, the same owner sends again
  (`DeliveryRuns.LostBlockLeadsToResend`, `DeliveryRuns.RequestIsSentTwice`). A request is about to be sent again exactly if such a write was lost.
- Two things are never checked before a write: that the report id is the lineage's, and that no string of the report contains a
  manifest, chunk or first-version marker. A caller can check both. A planned write keeps the Issue readable if and only if the id
  is the lineage's and the entry either goes out in chunks or holds no such marker; any other write leaves an Issue that nobody
  can read, or publish to through the gateway, again (`PublicationHistory.PublicationOutcome`, `PublicationHistory.RunIsReadableIffSound`,
  `WorkpadReadback.MarkedReportIsLost`). A comment with the managed marker by anyone who is no registered producer has the same
  effect (`PublicationHistory.OutsiderBreaksLineage`).
- Between the last freshness check and the write another writer can act. Two publications prepared from one reading fork the
  lineage, and the next read reports it, unless both append to the same comment: then the first entry is lost and neither
  read-back notices, because both writers prepared the same entry id and revision
  (`PublicationConflicts.TwoWritersFromOneReading`).
- With terminal retention 0 a clock that runs backwards can drop the result just recorded
  (`Retention.RecordedResultCanBeLost`); with retention 1 or more it never does.
- Artifact normalisation is idempotent exactly if the generated handle does not itself match the credential pattern
  (`ArtifactReferences.ArtifactIdempotence`).
- Worktree finalization compares revisions without case and the handoff with case, so a finalized snapshot passes the handoff
  exactly if the report names its target in lower case (`SnapshotRefs.FinalizedSnapshotPasses`).
- The order of a report shows in its human-input request exactly if two shown items of one list share an id with different
  content (`Handoff.RequestForgetsOrderIff`).
- The App Server's output is decoded read by read. A read that ends inside a multi-byte character changes the text, and so what
  the transport sees; cuts between characters are exactly the harmless ones (`JsonlTransport.BuffersActAsTextIff`).

## Model

| member | source | states |
|---|---|---|
| DeliveryRuns.AtMostOneSend | packages/mcp-adapter/src/eve-channel-root-invoker.ts:475-672 | Over every interleaving of invokers, crashes, restarts and lost writes on one session, no request id is sent twice, provided every block write after an undelivered send takes effect. |
| DeliveryRuns.SendsAreBounded | packages/mcp-adapter/src/eve-channel-root-invoker.ts:475-672 | Without that proviso: an id is sent at least as often as a block write for it was lost after a send, and at most once more. |
| DeliveryRuns.SendRepeatsIffBlockWasLost | packages/mcp-adapter/src/eve-channel-root-invoker.ts:556-623 | A claimed request about to be sent was sent before if and only if a block write for it was lost. |
| DeliveryRuns.LostBlockLeadsToResend | packages/mcp-adapter/src/eve-channel-root-invoker.ts:568-601 | From any state where a sent request has no recorded delivery, losing the block write leads to a second send in four steps. |
| DeliveryRuns.RequestIsSentTwice | packages/mcp-adapter/src/eve-channel-root-invoker.ts:475-672 | The failing case from a fresh session: a run of ten steps, one lost block write among them, after which the same request was sent twice. |
| DeliveryRuns.RegisteredIdIsNeverForgotten | packages/mcp-adapter/src/eve-channel-root-invoker.ts:342-414 | An id registered at any point of a run stays known forever, as a record or in the retired filter, and registering it changes nothing. |
| DeliveryRuns.ReRegistrationAddsNothing | packages/mcp-adapter/src/eve-channel-root-invoker.ts:342-414 | The whole registration step of a known id, compaction included, adds no record, no queue entry and no registered id, and the id stays known. |
| DeliveryRuns.WrittenLedgerIsAccepted | packages/mcp-adapter/src/root-operation-store.ts:290-373 | Along every run the stored ledger is one the parser accepts on reload. |
| DeliveryRuns.RunKeepsInv | packages/mcp-adapter/src/eve-channel-root-invoker.ts:475-818 | Every run keeps the delivery invariant: one engaged pump at most, a claim before every send, sends counted against lost block writes. |
| DeliveryRuns.RunKeepsRetention | packages/mcp-adapter/src/eve-channel-root-invoker.ts:765-807 | Over every run that retains at least one full record, completion times stay ordered and the newest completion stays a full record. |
| RootAnswers.FinishedTurnIsStored | packages/mcp-adapter/src/eve-channel-root-invoker.ts:674-807 | In any run that keeps full records up to then, a finished turn whose write lands is stored under its request, through its own compaction: Root's own result if it answers that request well, and otherwise the failure that fits. |
| RootAnswers.DecidedIsStored | packages/mcp-adapter/src/eve-channel-root-invoker.ts:713-738 | What is decided to be stored is the turn's own result if it names the request and is failed or fits the request's issue selector; without data, for another request, without an issue or for another issue it is the failure of exactly that case. |
| RootAnswers.StoredFailures | packages/mcp-adapter/src/eve-channel-root-invoker.ts:713-738 | Each of the four failures is stored if and only if its case holds, and Root's result if and only if none does. |
| RootAnswers.DrainsIff | packages/mcp-adapter/src/eve-channel-root-invoker.ts:674-712 | A pump reads on instead of storing exactly for a turn of another request, while turns of the active one may still come and the limit of replays is not reached. |
| RootAnswers.FinishedCannotBeDrained | packages/mcp-adapter/src/eve-channel-root-invoker.ts:674-712 | A turn that could be drained is never finished instead. |
| RootAnswers.RegistrationIsAnswered | packages/mcp-adapter/src/eve-channel-root-invoker.ts:342-450 | The answer of every registration, read off the ledger it leaves: blocked sessions answer the reason; a completed record its result if the request data are the record's and a conflict otherwise; an unfinished one nothing, or a conflict; an id without record that it is retired. |
| RootAnswers.FinishedResultIsAnswered | packages/mcp-adapter/src/eve-channel-root-invoker.ts:342-450 | Over every run: what a finished turn stored is what registering the same request answers for as long as its record is kept and the session is open, and the same id with other request data is refused. |
| RootAnswers.ResultStays | packages/mcp-adapter/src/eve-channel-root-invoker.ts:765-807 | A stored result and the request data it answers stay the same through every later step, for as long as the id has a record. |
| RootAnswers.CursorSurvivesFinish | packages/mcp-adapter/src/eve-channel-root-invoker.ts:741-831 | After a finished turn the session keeps the turn's cursor if it can be resumed and the delivered one otherwise: a cursor that cannot be resumed never replaces it. |
| RootSteps.LedgerHoldsNewestCursor | packages/mcp-adapter/src/eve-channel-root-invoker.ts:625-831 | At every point of every run the ledger's cursor is the newest one that was written and may be kept. |
| RootSteps.FirstReasonSticks | packages/mcp-adapter/src/eve-channel-root-invoker.ts:809-818 | Over every run a session is blocked from its first block whose write lands, for good, and for that block's reason. |
| RootQueue.QueueIsFifo | packages/mcp-adapter/src/eve-channel-root-invoker.ts:503-554 | At the end of every run the unfinished requests, the active one first and then the queue, are exactly the last ones registered, in the order of registration. |
| RootQueue.EarlierIsDone | packages/mcp-adapter/src/eve-channel-root-invoker.ts:503-554 | A request is being worked on or completed only when every request registered before it is completed. |
| DeliverySafety.NextKeepsInv | packages/mcp-adapter/src/eve-channel-root-invoker.ts:342-818 | Every step of the protocol, with every write reported, lost or landing unreported, keeps the delivery invariant. |
| LedgerInvariant.EmptyLedgerAccepted | packages/mcp-adapter/src/root-operation-store.ts:247-256 | A new ledger satisfies the parser. |
| LedgerInvariant.RegisterEvolves | packages/mcp-adapter/src/eve-channel-root-invoker.ts:342-414 | Registering keeps the ledger acceptable, moves records only forward and forgets no id. |
| LedgerInvariant.PromoteEvolves | packages/mcp-adapter/src/eve-channel-root-invoker.ts:524-553 | Promotion never meets its thrown errors on an accepted ledger and keeps it acceptable. |
| LedgerInvariant.ClaimEvolves | packages/mcp-adapter/src/eve-channel-root-invoker.ts:560-586 | Claiming keeps the ledger acceptable and never changes an owner once set. |
| LedgerInvariant.RecordDeliveryEvolves | packages/mcp-adapter/src/eve-channel-root-invoker.ts:625-655 | Recording a delivery keeps the ledger acceptable: the delivered cursor is the ledger cursor and resumable. |
| LedgerInvariant.PersistDeliveredCursorEvolves | packages/mcp-adapter/src/eve-channel-root-invoker.ts:741-763 | Replacing the delivered cursor keeps both copies equal and the ledger acceptable. |
| LedgerInvariant.RecordTerminalEvolves | packages/mcp-adapter/src/eve-channel-root-invoker.ts:765-807 | Storing a terminal result clears the active operation and keeps the ledger acceptable. |
| LedgerInvariant.BlockEvolves | packages/mcp-adapter/src/eve-channel-root-invoker.ts:809-818 | Blocking keeps the ledger acceptable and touches no record. |
| LedgerInvariant.WriteCursorEvolves | packages/mcp-adapter/src/root-operation-store.ts:117-128 | The cursor-only write keeps the ledger acceptable; it is refused while an operation is active. |
| LedgerInvariant.CompactionEvolves | packages/mcp-adapter/src/eve-channel-root-invoker.ts:981-1023 | Compaction keeps the ledger acceptable, and every dropped id answers true in the retired filter. |
| LedgerInvariant.ReloadAccepted | packages/mcp-adapter/src/root-operation-store.ts:290-373 | Reloading forgets at most a cursor that cannot be resumed, and a second reload changes nothing. |
| LedgerInvariant.KnownIdIsNotRegisteredAgain | packages/mcp-adapter/src/eve-channel-root-invoker.ts:342-414 | Registering an id that has a record or answers in the filter leaves the ledger as it is. |
| LedgerInvariant.EvolvesKeepsKnown | packages/mcp-adapter/src/eve-channel-root-invoker.ts:1025-1055 | A known id stays known through every change of the ledger. |
| RootLedger.ParseLedger | packages/mcp-adapter/src/root-operation-store.ts:290-373 | The loops of the parser accept exactly the ledgers of the inductive invariant and return the normalised ledger. |
| RootLedger.NextTimestamp | packages/mcp-adapter/src/eve-channel-root-invoker.ts:1119-1128 | The time a mutation writes is not before the clock and later than every recorded update. |
| SessionLedger.RootSessionLedger.RegisterOperation | packages/mcp-adapter/src/eve-channel-root-invoker.ts:342-414 | The mutation compacts, then answers: the block reason, a conflict for other request data under a known id, the stored result of a completed one, that the id is retired, or nothing after queueing it. |
| SessionLedger.RootSessionLedger.ReadOperationResult | packages/mcp-adapter/src/eve-channel-root-invoker.ts:416-451 | Reading answers the stored result of the same request data, a conflict for others, that the id is retired or missing, the block reason, or nothing while it is unfinished; the ledger does not change. |
| SessionLedger.RootSessionLedger.PromoteNext | packages/mcp-adapter/src/eve-channel-root-invoker.ts:503-554 | The mutation promotes the head of the queue or returns the active operation, and throws exactly where the specification has no result. |
| SessionLedger.RootSessionLedger.ClaimDelivery | packages/mcp-adapter/src/eve-channel-root-invoker.ts:556-586 | The mutation claims an unowned prepared operation and otherwise leaves the ledger as it is. |
| SessionLedger.RootSessionLedger.RecordDeliveryOf | packages/mcp-adapter/src/eve-channel-root-invoker.ts:625-655 | The mutation stores the delivery, or throws exactly where the operation is not the prepared one of this owner. |
| SessionLedger.RootSessionLedger.PersistCursor | packages/mcp-adapter/src/eve-channel-root-invoker.ts:741-763 | The mutation stores the cursor in both places, or throws where no delivered operation is active. |
| SessionLedger.RootSessionLedger.RecordTerminalResult | packages/mcp-adapter/src/eve-channel-root-invoker.ts:765-807 | The mutation stores the result, then compacts, and says whether queued work remains. |
| SessionLedger.RootSessionLedger.CompactTerminalOperations | packages/mcp-adapter/src/eve-channel-root-invoker.ts:981-1023 | The sort-and-slice loops choose the newest records by completion time and remember every dropped id in the filter. |
| SessionLedger.RootSessionLedger.NextLedgerTimestamp | packages/mcp-adapter/src/eve-channel-root-invoker.ts:1119-1128 | The loop over all records computes the specified timestamp. |
| SessionLedger.RootSessionLedger.BlockSession | packages/mcp-adapter/src/eve-channel-root-invoker.ts:809-818 | The first block reason sticks. |
| SessionLedger.RootSessionLedger.WriteSessionState | packages/mcp-adapter/src/root-operation-store.ts:117-128 | Stores the cursor, or throws while an operation is active. |
| Retention.CompactionKeepsNewest | packages/mcp-adapter/src/eve-channel-root-invoker.ts:981-1023 | After a compaction at most the configured full and cleaned records remain, and nothing given up is newer than what was kept. |
| Retention.CompactionKeepsResults | packages/mcp-adapter/src/eve-channel-root-invoker.ts:981-1023 | The results that remain are the stored ones, and unfinished records are untouched. |
| Retention.CompletionTimesIncrease | packages/mcp-adapter/src/eve-channel-root-invoker.ts:1119-1128 | A new completion is later than every stored one even if the clock runs backwards. |
| Retention.RecordedResultSurvives | packages/mcp-adapter/src/eve-channel-root-invoker.ts:765-807 | With at least one full record retained, a just-recorded result outlives its own compaction. |
| Retention.SurvivalWithoutFullRecords | packages/mcp-adapter/src/eve-channel-root-invoker.ts:981-1023 | With retention 0 a record survives if fewer than the cleaned limit completed since, is lost if at least that many completed after it, and without equal completion times survives exactly if fewer completed after it. |
| Retention.RecordedResultSurvivesWithSteadyClock | packages/mcp-adapter/src/eve-channel-root-invoker.ts:981-1023 | With retention 0 a just-recorded result survives if updates cover the completion times. |
| Retention.SteadyClockKeepsCover | packages/mcp-adapter/src/eve-channel-root-invoker.ts:981-1023 | A compaction whose clock has reached every completion time keeps that condition. |
| Retention.RecordedResultCanBeLost | packages/mcp-adapter/src/eve-channel-root-invoker.ts:981-1023 | Without it: a ledger, a request and clocks for which the result just recorded is dropped by its own compaction. |
| RetiredFilter.AddedPositions | packages/mcp-adapter/src/eve-channel-root-invoker.ts:1025-1036 | Adding an id yields a filter the store accepts whose set bits are the old ones and the four of the id, through the bit operations and base64. |
| RetiredFilter.SupersetStillHas | packages/mcp-adapter/src/eve-channel-root-invoker.ts:1038-1049 | An id that answered true answers true in every later filter. |
| RetiredFilter.RetiredFilterAdd | packages/mcp-adapter/src/eve-channel-root-invoker.ts:1025-1036 | The in-place bit loop computes that filter. |
| Base64.DecodeCanonicalIsInverse | packages/protocol/src/index.ts:1778-1786 | Canonical decoding accepts exactly the encodings of section 4 of RFC 4648 and returns the bytes they came from. |
| Base64.DecodeEncode | packages/protocol/src/index.ts:1778-1786 | Decoding inverts encoding for every byte sequence. |
| Base64.FourCarryThree | packages/protocol/src/index.ts:1778-1786 | Each four letters carry the 24 bits of three bytes, the highest first, as section 4 of RFC 4648 has it. |
| Base64.EncodingFillsGroups | packages/protocol/src/index.ts:1778-1786 | An encoding has four letters for every three bytes or part of three. |
| PublicationHistory.RunKeepsHistory | eve/agent/lib/integrations/github/issue-workpad.ts:150-384 | Over every run of publications from an Issue without a workpad, with comments of others in between: while each step is sound the Issue stays readable and its history is exactly the sequence of published entries; after an unsound publication, or a comment by an unknown author that poses as a workpad, it is unreadable for good. |
| PublicationHistory.RunIsReadableIffSound | eve/agent/lib/integrations/github/issue-workpad.ts:150-384 | A run ends readable if and only if every publication in it was sound (the lineage's own report id, and no reserved marker unless the entry went out in chunks) and no unknown author posed as a workpad. |
| PublicationHistory.PublicationOutcome | eve/agent/lib/integrations/github/issue-workpad.ts:231-384 | For one planned and written mutation of any mode: the Issue is readable, with exactly the prepared entry added, if and only if the write was sound. |
| PublicationHistory.StepFromUnreadable | eve/agent/lib/integrations/github/issue-workpad.ts:150-190 | On an unreadable Issue nothing can be published, and comments of others, managed or not, do not make it readable. |
| PublicationHistory.OutsiderBreaksLineage | eve/agent/lib/integrations/github/issue-workpad.ts:818-932 | Any managed comment whose author is no registered producer leaves no readable lineage, whatever else the Issue holds. |
| PublicationHistory.MarkedWriteBreaksLineage | eve/agent/lib/integrations/github/issue-workpad.ts:231-384 | No check looks for reserved markers before an inline write, and a marked one leaves an Issue nobody can read. |
| PublicationHistory.ReaderSeesLastPublication | eve/agent/lib/integrations/github/issue-workpad.ts:150-190 | A reader who finds anything at the end of a run finds the entry published last, at the revision that counts the earlier ones, and every publication was sound. |
| PublicationRuns.PlannedWriteMovesHead | eve/agent/lib/integrations/github/issue-workpad.ts:231-384 | Closure: any planned create, append, continuation or chunked write under a fresh id leaves a readable Issue whose head is the prepared entry at the next revision, if the report id is the lineage's and the entry is chunked or free of reserved markers. |
| PublicationHistory.ForeignReportBreaksLineage | eve/agent/lib/integrations/github/issue-workpad.ts:231-384 | Nothing checks the report id before writing, and any planned write of another report makes the Issue unreadable. |
| PublicationConflicts.TwoWritersFromOneReading | eve/agent/lib/integrations/github/issue-gateway.ts:216-225 | Two sound publications prepared from one reading and both written fork the lineage for every reader, unless both append: then the second silently replaces the first, and the read-back of either writer still finds what it expects. |
| PublicationConflicts.SameRevisionIsUnreadable | eve/agent/lib/integrations/github/issue-workpad.ts:818-932 | Two managed comments that show one revision have no acceptable lineage. |
| WorkpadReadback.PrintedEntriesAreReadBack | packages/protocol/src/index.ts:1310-1390 | A comment printed entry by entry parses to exactly those entries if none is marked, and not at all otherwise, as the Issue model assumes. |
| WorkpadReadback.JsonReservedIffString | packages/protocol/src/index.ts:1313-1337 | The printed JSON of an entry contains a reserved marker exactly if some string or key of its payload does. |
| WorkpadReadback.MarkedReportIsLost | packages/protocol/src/index.ts:1313-1337 | For every payload that holds a reserved marker in some string: the report is planned and written on an empty Issue, its comment does not parse, and nobody can read the Issue. |
| WorkpadReadback.MarkerAsString | packages/protocol/src/index.ts:1313-1337 | A payload one string of which is the chunk marker can be printed and holds a reserved marker. |
| PublicationHistory.MixedReportsAreUnreadable | eve/agent/lib/integrations/github/issue-workpad.ts:818-932 | Two managed comments that name different reports have no acceptable lineage. |
| Lineage.SelectLinearLineage | eve/agent/lib/integrations/github/issue-workpad.ts:818-932 | Succeeds exactly when the verified comments can be arranged as one acceptable chain, returns that arrangement, and reports a cycle only for comments that share an id. |
| Lineage.LineageIsUnique | eve/agent/lib/integrations/github/issue-workpad.ts:818-932 | At most one arrangement of the comments is acceptable. |
| Lineage.LineageIgnoresOrder | eve/agent/lib/integrations/github/issue-workpad.ts:818-932 | The result does not depend on the order in which the comments are listed. |
| Lineage.NoCycleAmongDistinct | eve/agent/lib/integrations/github/issue-workpad.ts:880-908 | A walk that returns to a visited comment proves a shared id, so the cycle branch is dead for distinct comments. |
| IssueWorkpad.FindExistingWorkpad | eve/agent/lib/integrations/github/issue-workpad.ts:150-190 | Finds the head of the one lineage, finds nothing only if no comment is managed, and fails only if the configuration is invalid or no lineage exists. |
| IssueWorkpad.ValidateProducerConfiguration | eve/agent/lib/integrations/github/issue-workpad.ts:973-1018 | The loop accepts exactly the configurations with unique producers that include the current one. |
| IssueWorkpad.VerifyManifestComment | eve/agent/lib/integrations/github/issue-workpad.ts:730-815 | A manifest comment is verified exactly as specified: author, resolved references, rebuilt entry, binding to the Issue. |
| IssueWorkpad.VerifyManagedComment | eve/agent/lib/integrations/github/issue-workpad.ts:616-727 | A managed comment is verified exactly as specified, whichever representation it uses. |
| IssueChanges.UnmanagedIsInvisible | eve/agent/lib/integrations/github/issue-workpad.ts:150-190 | A comment without the managed marker changes nothing for readers, whoever wrote it. |
| IssueChanges.ManifestRefersToChunks | eve/agent/lib/integrations/github/issue-workpad.ts:730-815 | A readable manifest never refers to a comment that holds entries. |
| IssueChanges.HeadRewritten | eve/agent/lib/integrations/github/issue-workpad.ts:150-190 | Rewriting the head comment replaces the last member of the chain and leaves the others verified. |
| Publication.PrepareIssueWorkpadMutation | eve/agent/lib/integrations/github/issue-workpad.ts:231-384 | A mutation is planned from the verified head alone; a single write and every chunk stay within the budget; each error is returned exactly under its condition, and a missing slice size is certain where fitting is monotone. |
| Publication.PlanMutation | eve/agent/lib/integrations/github/issue-workpad.ts:250-384 | Given the head: append, open or chunk as the budget decides, never over it, or the one error that applies. |
| PublicationBudget.PlanRespectsBudget | eve/agent/lib/integrations/github/issue-workpad.ts:231-384 | No comment that a plan writes is over the budget: the appended or new body, and every chunk of the selected attempt, whatever comments spoiled earlier ones (as long as the size of a chunk ignores the digits of its group id and fewer than 10^10 comments exist). |
| PublicationBudget.PlanModeIff | eve/agent/lib/integrations/github/issue-workpad.ts:309-354 | A plan appends if and only if the head holds entries of the same account and its body with the new entry fits the budget; opens a comment if and only if it does not append and the new entry alone fits; and splits the entry otherwise. |
| PublicationBudget.WrittenWithinBudget | eve/agent/lib/integrations/github/issue-gateway.ts:281-370 | The visible write of a plan leaves every comment it adds or changes, the manifest included, within the budget. |
| PublicationBudget.PublishesFromCurrent | eve/agent/lib/integrations/github/issue-workpad.ts:255-308 | Nothing is published from a report whose own context names another Issue, revision or session than the head shows. |
| PublicationBudget.CurrentIsNoConflict | eve/agent/lib/integrations/github/issue-workpad.ts:255-308 | A report of the head's own revision, session and Issue is never refused as a conflict. |
| PublicationContent.PlannedEntryIs | eve/agent/lib/integrations/github/issue-workpad.ts:425-466 | The planned entry is the next revision of the lineage by the current producer, with its id, predecessor and kind of continuation, and carries the given report unchanged but for the context that says where it is published. |
| PublicationContent.ReaderMayRelyOn | eve/agent/lib/integrations/github/issue-workpad.ts:616-932 | In an accepted lineage every managed comment has its place; each is written by the registered producer it names and bound to this Issue; all entries are of one session and one report, with revisions from zero without a gap and no id twice; each comment names the one before it. |
| ManifestContent.ManifestIsAcceptedIff | eve/agent/lib/integrations/github/issue-workpad.ts:730-815 | A manifest comment is accepted as an entry if and only if its registered producer wrote it, each reference has one comment behind it, by the same account, which is the chunk of this group at this index under its own digest, and the parts join to the serialised entry, under the manifest's digest and with its metadata, bound to this Issue. |
| PublicationContent.FreshMeansUnchanged | eve/agent/lib/integrations/github/issue-gateway.ts:395-457 | A plan that passes the freshness check finds the very head comment and revision it was prepared from. |
| IssueGateway.PublishSharedContext | eve/agent/lib/integrations/github/issue-gateway.ts:192-263 | On success the history gained exactly the prepared entry and its head is returned; a failure before the visible write changes nothing for readers; the read-back fails exactly for an unsound write. The other failures are another actor, a refused report, a provider that stopped, or a manifest over the budget. |
| IssueGateway.ReadBack | eve/agent/lib/integrations/github/issue-gateway.ts:227-255 | The post-write read succeeds exactly if readers find the written comment with the prepared entry id and revision at the head. |
| IssueGateway.WriteWorkpad | eve/agent/lib/integrations/github/issue-gateway.ts:281-370 | The write adds at most the missing chunks and then one visible change, and fails only if the provider stopped or the manifest is too large. |
| IssueGateway.WriteChunks | eve/agent/lib/integrations/github/issue-gateway.ts:287-337 | However far the chunk loop gets, it added only the missing chunks in order; when the plan is current it stops only because the provider did. |
| IssueGateway.WriteChunkedWorkpad | eve/agent/lib/integrations/github/issue-gateway.ts:287-349 | The manifest is written only when every chunk is in place, and is the only managed comment added. |
| IssueGateway.AssertFreshWorkpadMutation | eve/agent/lib/integrations/github/issue-gateway.ts:395-457 | Holds exactly if readers see the head the mutation expects. |
| IssueGateway.PlanIsFresh | eve/agent/lib/integrations/github/issue-gateway.ts:216-225 | With no write in between, the freshness check before the write passes. |
| IssueGateway.ChunksAreInvisible | eve/agent/lib/integrations/github/issue-gateway.ts:281-349 | After every prefix of a chunked publication readers find exactly the lineage they found before. |
| IssueGateway.PrepareVerifiedManifest | eve/agent/lib/integrations/github/issue-workpad.ts:563-613 | The manifest is prepared exactly when every chunk is in place and it fits the budget. |
| PublicationRetry.RetryWritesTheRest | eve/agent/lib/integrations/github/issue-workpad.ts:504-557 | A retry with the same inputs after any prefix settles on the same group and has exactly the unwritten chunks left. |
| ChunkReuse.SelectReusableChunkGroup | eve/agent/lib/integrations/github/issue-workpad.ts:504-557 | Whatever provisional comments exist, one of the first n + 1 attempts is reusable: the final throw is unreachable. |
| ChunkReuse.Pigeonhole | eve/agent/lib/integrations/github/issue-workpad.ts:504-557 | More attempts than comments cannot each be spoiled by a comment of their own. |
| ChunkReuse.CandidateOfOneAttempt | eve/agent/lib/integrations/github/issue-workpad.ts:504-557 | A comment can be a candidate for one attempt only. |
| ChunkReuse.TryAttempt | eve/agent/lib/integrations/github/issue-workpad.ts:515-551 | The inner loop returns references exactly if nothing spoils the attempt, and otherwise names a spoiling comment. |
| ChunkReuse.ReusedRefsAreExact | eve/agent/lib/integrations/github/issue-workpad.ts:504-557 | Every reused reference is a comment of the current actor that holds exactly that chunk. |
| ChunkReuse.ReusedRefsAreDistinct | eve/agent/lib/integrations/github/issue-workpad.ts:504-557 | Reused references are distinct. |
| ChunkReuse.RetrySelectsSameGroup | eve/agent/lib/integrations/github/issue-workpad.ts:504-557 | Chunks written since, or comments of others, do not change the selected attempt; each exact chunk written since is found. |
| ChunkReuse.LargestFittingChunkByteLength | eve/agent/lib/integrations/github/issue-workpad.ts:472-502 | The binary search terminates and what it returns fits; where fitting is monotone it is the largest size, and none is returned only if none fits. |
| ChunkReuse.LaterAttemptsFit | packages/protocol/src/index.ts:1409-1481 | A size found at attempt 0 serves every attempt below 10^10. |
| Decimal.PaddedLength | packages/protocol/src/index.ts:1409-1481 | The zero-padded attempt has ten characters below 10^10. |
| Chunks.RoundTrip | packages/protocol/src/index.ts:1669-1741 | Splitting, publishing under any distinct references and rebuilding from the manifest returns the entry, for every slice size and attempt. |
| Chunks.ReconstructionIsAuthentic | packages/protocol/src/index.ts:1669-1741 | An accepted manifest that carries the digest of an entry's payload yields that entry, or its chunks hold a second payload with the same digest. |
| Chunks.RebuiltPayload | packages/protocol/src/index.ts:1669-1741 | If no other byte sequence shares the digest of a payload, the bytes rebuilt under it are that payload. |
| Chunks.SlicesConcatenate | packages/protocol/src/index.ts:1409-1481 | The slices concatenate to the payload. |
| Chunks.SliceLengths | packages/protocol/src/index.ts:1409-1481 | Every slice but the last has the full length and the last is not empty or longer. |
| Chunks.SliceBytes | packages/protocol/src/index.ts:1409-1481 | The slicing loop computes those slices. |
| Chunks.AttemptsHaveDifferentIds | packages/protocol/src/index.ts:1409-1481 | Different attempts get different group ids, whatever the digests are. |
| ChunkIdentity.GroupIdTellsGroup | packages/protocol/src/index.ts:1439-1458 | Groups with one id are the same attempt at the same digests of the same entry, with its producer, session, revision, predecessor and continuation, unless two keys share their group digest. |
| Chunks.GroupIdLength | packages/protocol/src/index.ts:1409-1481 | Group ids keep their length below 10^10 attempts. |
| Chunks.RenderManifest | packages/protocol/src/index.ts:1561-1611 | A manifest is rendered exactly for one reference per chunk in a well-ordered list. |
| Chunks.AssertManifestOrdering | packages/protocol/src/index.ts:1766-1776 | Accepts exactly contiguous indices and distinct references. |
| Chunks.ReconstructManifest | packages/protocol/src/index.ts:1669-1741 | The loop over references returns the specified reconstruction, and fails on a comment supplied twice. |
| WorkpadText.AppendThenParse | packages/protocol/src/index.ts:1230-1241 | Appending keeps every unit of the old text in place, and the parser then reads the old entries and the new one; it refuses the result exactly if the new entry's JSON contains a reserved marker. |
| WorkpadText.PrintThenParse | packages/protocol/src/index.ts:1219-1223 | A printed comment is read back as its one entry, under the same condition. |
| WorkpadText.HistoryParses | packages/protocol/src/index.ts:1310-1390 | A comment printed once and appended to any number of times is read back as all its entries in order, or refused if the JSON of one contains a reserved marker. |
| WorkpadText.InnerReadsBack | packages/protocol/src/index.ts:1824-1830 | The fold check passes and the first standalone fence of a printed entry is its JSON. |
| WorkpadText.AcceptedGoesOn | packages/protocol/src/index.ts:1310-1390 | A comment that parses also stays balanced when text follows its last line, even if that line ends in a carriage return. |
| WorkpadLines.BlocksAppend | packages/protocol/src/index.ts:1337-1350 | When every opening marker belongs to an entry, what follows is scanned on its own. |
| WorkpadLines.BlocksBound | packages/protocol/src/index.ts:1326-1333 | There are never more entries than opening or closing marker lines. |
| WorkpadMarks.JsonLineIsNoMark | packages/protocol/src/index.ts:1244-1269 | No line of pretty-printed JSON can be a marker or a fence. |
| PrettyJson.PrettyLines | packages/protocol/src/index.ts:1244-1269 | Every line of `JSON.stringify(value, null, 2)` is one line that starts, after spaces, like a JSON value. |
| PrettyCompact.PrettyIsCompact | packages/protocol/src/index.ts:1244-1269 | Without the blanks and line breaks outside strings, the indented JSON of a value is its compact JSON. |
| PrettyCompact.PrettyIsUnambiguous | packages/protocol/src/index.ts:1244-1269 | Two values with the same indented JSON are the same value. |
| WorkpadStrings.PrettyHolds | packages/protocol/src/index.ts:1313-1337 | A marker occurs in pretty-printed JSON exactly if it occurs in a string or key of the value: escaping, indentation and punctuation neither make nor hide one. |
| WorkpadView.ViewIsHarmless | packages/protocol/src/workpad-human-view.ts:322-350 | Whatever the authors of a report wrote, no line of the human view opens a comment or a fence. |
| WorkpadEscapes.PlainShowsText | packages/protocol/src/workpad-human-view.ts:322-332 | Escaped plain text loses nothing: two values are shown alike if and only if they differ in the kind of their line breaks only. |
| WorkpadEscapes.CodeShowsText | packages/protocol/src/workpad-human-view.ts:334-346 | Two values make the same code span if and only if they differ only in line breaks that stand where the other has a space. |
| ReconciliationRuns.RunKeepsOneCompletion | eve/agent/lib/diagnostics/workpad.ts:360-601 | Over every run of session steps, completions and other publications a report holds at most one completion, for the head its session records; it is never replaced, changed or dropped. |
| ReconciliationRuns.CompletionMatchesSession | eve/agent/lib/diagnostics/workpad.ts:360-601 | At every point of a run the one completion names the head and thread its session records, and a finalized session's branch points at that head. |
| ReconciliationRuns.NextKeepsInv | eve/agent/lib/diagnostics/workpad.ts:156-682 | Every publication of the diagnosis keeps that invariant. |
| ReconciliationRuns.OnlyFirstCompletionIsPublished | eve/agent/lib/diagnostics/workpad.ts:418-506 | A second completion is never published: it would repeat the identity or regress the head. |
| ReconciliationRuns.ReplayReturnsRecord | eve/agent/lib/diagnostics/workpad.ts:438-483 | Finishing the same turn again on the same head returns the stored record exactly if the replay omits its payload or repeats it; an omitted payload needs handles that are no credentials. |
| ReconciliationRuns.RehydrationNeedsNoCompletion | eve/agent/lib/diagnostics/workpad.ts:783-851 | A worktree rebuilt without its thread can be published exactly if nothing is completed yet. |
| ReconciliationLoop.ReconcileCompletion | eve/agent/lib/diagnostics/workpad.ts:360-601 | The bounded loop answers and stores what its rounds prescribe; a stored completion is never replaced, a reported one is the one stored, and a replay returns its record and publishes nothing. |
| ReconciliationLoop.UnknownWriteIsFound | eve/agent/lib/diagnostics/workpad.ts:360-601 | A completion stored by a write that reported failure is found by the next round, whatever others published in between, and nothing more is published. |
| ReconciliationLoop.SecondCallFindsIt | eve/agent/lib/diagnostics/workpad.ts:360-601 | If the call gives up after such a write, a second call for the same turn on the same head returns the record in its first round and publishes nothing. |
| ReconciliationLoop.ReplayIsDecided | eve/agent/lib/diagnostics/workpad.ts:438-483 | Whatever others published meanwhile and whatever the clock shows, a replay finds its record. |
| ReconciliationAttempts.AttemptsAreJustified | eve/agent/lib/diagnostics/workpad.ts:366-601 | The loop goes on only after a failed write that may be retried; a new completion is reported only after an accepted write, and is dated by the clock of the first attempt, however many followed. |
| Reconciliation.DecideAttempt | eve/agent/lib/diagnostics/workpad.ts:371-524 | One pass refuses, replays or publishes exactly as specified. |
| Reconciliation.CheckState | eve/agent/lib/diagnostics/workpad.ts:907-961 | The state check holds exactly if no binding of the captured session changed. |
| Reconciliation.ValidateHistory | eve/agent/lib/diagnostics/completion.ts:130-170 | Accepts exactly histories of distinct records that belong to the report and its session. |
| Reconciliation.ProjectCompletion | eve/agent/lib/diagnostics/completion.ts:177-277 | Projects a completion exactly where the merges meet no conflict, no other record owns status or conclusion, and the schema accepts the result; what it yields shows the outcome and changes nothing else. |
| Reconciliation.ProjectionShowsOutcome | eve/agent/lib/diagnostics/completion.ts:177-277 | Each list of the projected report is the old one followed by the outcome's entries of that kind and no others; status and conclusion are the outcome's where given and the old ones otherwise; the record is appended and every other field is unchanged. |
| Reconciliation.ProjectionRefusedIff | eve/agent/lib/diagnostics/completion.ts:177-277 | A new completion of a sound history is refused if and only if an entry conflicts, it changes the status or conclusion after some record decided one, or the schema refuses it. |
| DiagnosisShown.DoneShowsDiagnosis | eve/agent/lib/diagnostics/workpad.ts:360-601 | Whenever the loop reports a new completion, the stored report shows the whole diagnosis of the finished turn, with its artifacts in public form, on top of everything others had published up to the last read. |
| DiagnosisShown.ReportedDiagnosisIsStored | eve/agent/lib/diagnostics/workpad.ts:360-601 | The same for a whole call, from the report it started with. |
| DiagnosisSteps.PublishedIff | eve/agent/lib/diagnostics/workpad.ts:418-524 | A finished turn is published if and only if the session is the one it ran in, no completion is stored, the head may move, the outcome is well formed and mergeable, and the report has its shared context. |
| DiagnosisSteps.PublishedRecordIs | eve/agent/lib/diagnostics/completion.ts:76-117 | The published record carries the turn's thread, the observed head, its canonical outcome, the first moment of completion and its finish reason, under the identity of that binding. |
| DiagnosisSteps.StepLeavesSession | eve/agent/lib/diagnostics/workpad.ts:156-358 | Each step stores the session it is for and nothing else of it; only completing steps touch completions. |
| DiagnosisSteps.RecordedApprovalStays | eve/agent/lib/diagnostics/workpad.ts:294-358 | Over every run a recorded approval is in the session ever after. |
| DiagnosisSteps.RecordedThreadStays | eve/agent/lib/diagnostics/workpad.ts:257-280 | Over every run a recorded thread stays until a rehydration gives it up. |
| CompletionRecords.MergeIsConservative | eve/agent/lib/diagnostics/completion.ts:326-351 | Merging keeps the existing entries as a prefix, adds only additions, misses none, and keeps ids unique. |
| CompletionRecords.MergeFailsOnConflict | eve/agent/lib/diagnostics/completion.ts:326-351 | Merging fails exactly on an id that comes with differing content. |
| CompletionRecords.MergeIsIdempotent | eve/agent/lib/diagnostics/completion.ts:326-351 | Merging the same additions again changes nothing. |
| CompletionRecords.MergeOwnedEntries | eve/agent/lib/diagnostics/completion.ts:326-351 | The loop over additions with its index computes that merge. |
| CompletionRecords.OutcomeForgetsOrder | eve/agent/lib/diagnostics/completion.ts:280-323 | Equivalent evidence in another order makes the same canonical outcome. |
| CompletionRecords.CanonicalOutcomeTwice | eve/agent/lib/diagnostics/completion.ts:280-323 | A stored outcome that is fed back in stays as it is, or is refused for a credential-like handle. |
| CompletionRecords.AssertUniqueIds | eve/agent/lib/diagnostics/completion.ts:353-370 | Accepts exactly lists without a repeated id. |
| ArtifactReferences.ArtifactIdempotence | eve/agent/lib/diagnostics/artifact-references.ts:114-144 | Normalising an artifact twice equals normalising it once exactly if it kept its reference or its handle does not look like a credential. |
| ArtifactReferences.ArtifactTwice | eve/agent/lib/diagnostics/artifact-references.ts:114-144 | A second pass, at whatever slot, keeps a normalised artifact or refuses it. |
| ArtifactReferences.OutcomeTwice | eve/agent/lib/diagnostics/artifact-references.ts:78-95 | A normalised outcome is a fixed point unless one of its handles looks like a credential. |
| ArtifactReferences.CompletionsStable | eve/agent/lib/diagnostics/artifact-references.ts:22-69 | Completions whose outcomes were normalised are published unchanged or not at all. |
| ArtifactReferences.ReportTwice | eve/agent/lib/diagnostics/artifact-references.ts:22-69 | Publishing a published report changes no artifact, or refuses it. |
| ArtifactReferences.NormalizeFailureReport | eve/agent/lib/diagnostics/artifact-references.ts:22-69 | The loop that fills the completion slots and the maps after it compute the specified report. |
| ArtifactReferences.EvidenceIsPublic | eve/agent/lib/diagnostics/artifact-references.ts:97-144 | Normalised evidence is the same evidence, artifact by artifact: public and opaque references stay, every other location becomes a protected handle, and nothing else changes. |
| ArtifactHandles.LocationsDoNotShow | eve/agent/lib/diagnostics/artifact-references.ts:17-144 | Reports that differ in concealed locations only are published alike: what is published says nothing about such a location. |
| ArtifactHandles.HandlesAreDistinct | eve/agent/lib/diagnostics/artifact-references.ts:78-144 | Two concealed locations of an outcome get the same handle only if they are the same artifact of the same entry in the same list. |
| ArtifactHandles.SharedEvidenceStaysShared | eve/agent/lib/diagnostics/artifact-references.ts:22-69 | Evidence that a report shares with a completion is published alike in both places, handles included, unless some completion lists its id in the other way too. |
| ApprovalRuns.ExchangeIsSettledOnce | eve/agent/lib/backends/native-approval-broker.ts:357-409 | Over every interleaving of resolve, cancel, timeout, interrupt and duplicates, an exchange ends at most once, is answered and recorded at most once, and is approved only after approving evidence is durable. |
| ApprovalRuns.EndedLeaseIsStale | eve/agent/lib/backends/native-approval-broker.ts:282-325 | Every action on an ended lease, also one that was waiting for the session check, changes nothing. |
| ApprovalRuns.CacheStaysBounded | eve/agent/lib/backends/native-approval-broker.ts:457-469 | The set and the FIFO list of completed ids agree and stay within the cap over every run. |
| ApprovalRuns.UnrecordedApprovalGetsNoReply | eve/agent/lib/backends/native-approval-broker.ts:378-388 | An approval whose evidence cannot be recorded is never answered; no denial is sent either. |
| ApprovalOutcomes.DecisionIsTheOperators | eve/agent/lib/backends/native-approval-broker.ts:282-302 | Over every run: an approval that was sent, and a decision that was recorded, is the one the operator gave for this very lease, in an answer whose session check came back current. |
| ApprovalOutcomes.CurrentAnswerIsGiven | eve/agent/lib/backends/native-approval-broker.ts:282-409 | An answer to the live lease whose check comes back current is what is sent and what is recorded as resolved, with exactly that decision, once nothing is left to do and if no delivery or record failed; an approval is sent only after its record is durable, a denial always. |
| ApprovalOutcomes.StaleAnswerIsDenied | eve/agent/lib/backends/native-approval-broker.ts:282-302 | An answer whose session check fails, and a malformed one, deny the live lease with the reason that applies. |
| ApprovalOutcomes.TimeoutAndInterruptDeny | eve/agent/lib/backends/native-approval-broker.ts:270-325 | A timeout denies its live lease and an interrupt whichever lease is live, each with its own record. |
| ApprovalOutcomes.CancelIsSilent | eve/agent/lib/backends/native-approval-broker.ts:304-313 | A cancelled lease is recorded as cancelled and gets no reply. |
| ApprovalOutcomes.RefusedIsDenied | eve/agent/lib/backends/native-approval-broker.ts:195-234 | A registration refused at once (malformed, foreign, interrupted, a duplicate or while another lease is live) is denied with the reason that applies; a repeat of the live request ends that lease. |
| ApprovalOutcomes.UncheckedIsDenied | eve/agent/lib/backends/native-approval-broker.ts:236-268 | A registration whose session check fails is denied as stale. |
| ApprovalOutcomes.RecordsAreConsistent | eve/agent/lib/backends/native-approval-broker.ts:429-447 | A record is resolved if and only if it carries a decision, and gives a reason exactly otherwise. |
| ApprovalOutcomes.OwedIsGiven | eve/agent/lib/backends/native-approval-broker.ts:357-409 | What a step owes an exchange is what it gets: its deliveries and records follow that answer to the end of the run, and complete it if none fails. |
| ApprovalOutcomes.GivenIsOwed | eve/agent/lib/backends/native-approval-broker.ts:357-409 | Nothing is answered or recorded that no step of the run owes. |
| ApprovalMemory.CompletedIsRefusedAgain | eve/agent/lib/backends/native-approval-broker.ts:457-469 | Over every run a request completed for the first time is refused as a duplicate when it comes again, as long as fewer requests than the cap were completed in between. |
| ApprovalMemory.LiveWasRegistered | eve/agent/lib/backends/native-approval-broker.ts:195-268 | Over every run the live lease is for the request that was registered under it: well formed, of this session, and just checked. |
| ApprovalRuns.NextKeepsInv | eve/agent/lib/backends/native-approval-broker.ts:195-469 | Every step between two awaits keeps the broker invariant. |
| ApprovalLeases.NoLeaseDroppedIff | eve/agent/lib/backends/native-approval-broker.ts:195-268 | A run loses no lease if and only if no registration passes its session check while a lease is live; register looks for one only before that await. |
| ApprovalLeases.LostLeases | eve/agent/lib/backends/native-approval-broker.ts:195-268 | At the end of a run the lost leases are exactly those some registration took over; nothing restores one. |
| ApprovalLeases.StepLosses | eve/agent/lib/backends/native-approval-broker.ts:236-257 | One step loses the lease it takes over and no other; no other step loses or restores any. |
| ApprovalLeases.SerialisedRunDropsNoLease | eve/agent/lib/backends/native-approval-broker.ts:195-268 | With registrations one after the other no lease is ever lost. |
| ApprovalLeases.OverlapDropsALease | eve/agent/lib/backends/native-approval-broker.ts:195-268 | Concretely: two overlapping registrations both pass the check, and the first lease is lost. |
| ApprovalLeases.FinishedIsFinal | eve/agent/lib/backends/native-approval-broker.ts:357-409 | No later step answers, records or ends a finished exchange again. |
| ApprovalLeases.QuietStaysQuiet | eve/agent/lib/backends/native-approval-broker.ts:270-280 | Once interrupted with no registration waiting, no lease goes live again. |
| ApprovalLeases.InterruptQuiets | eve/agent/lib/backends/native-approval-broker.ts:270-280 | An interrupt ends the live lease; it quiets the broker if no registration is waiting. |
| ApprovalLeases.LateRegistrationGoesLive | eve/agent/lib/backends/native-approval-broker.ts:195-268 | A registration that was waiting for the session check when the interrupt came still goes live. |
| ApprovalBroker.CompletedIsRecognised | eve/agent/lib/backends/native-approval-broker.ts:457-469 | A completed request is recognised as a duplicate while fewer than the cap of others complete. |
| ApprovalBroker.NativeApprovalBroker.Register | eve/agent/lib/backends/native-approval-broker.ts:195-268 | The object takes the specified first step of a registration. |
| ApprovalBroker.NativeApprovalBroker.RegisterAfterCheck | eve/agent/lib/backends/native-approval-broker.ts:195-268 | After the session check the lease goes live or is refused as specified. |
| ApprovalBroker.NativeApprovalBroker.Resolve | eve/agent/lib/backends/native-approval-broker.ts:282-302 | Resolving the live lease takes its first step: a malformed response ends it with a denial, a well-formed one starts the session check with the decision given; a stale lease is left alone. |
| ApprovalBroker.NativeApprovalBroker.CancelOrExpire | eve/agent/lib/backends/native-approval-broker.ts:304-325 | Cancelling and timing out end the live lease and no other. |
| ApprovalBroker.NativeApprovalBroker.InterruptProcess | eve/agent/lib/backends/native-approval-broker.ts:270-280 | The interrupt sets the flag and ends the live lease. |
| ApprovalBroker.NativeApprovalBroker.TerminalizeLease | eve/agent/lib/backends/native-approval-broker.ts:357-409 | Ending a lease clears it and remembers its request before the first await. |
| ApprovalBroker.NativeApprovalBroker.RememberRequest | eve/agent/lib/backends/native-approval-broker.ts:457-469 | The set and the list gain the id and give up the oldest one over the cap. |
| JsonlTransport.BuffersActAsTextIff | eve/agent/lib/backends/codex-app-server-transport.ts:126-128 | For a stream of encoded text: decoding each read by itself has the effect of the whole text, for every meaning of messages, if and only if no read splits a character. |
| JsonlTransport.BuffersActAsStreamIff | eve/agent/lib/backends/codex-app-server-transport.ts:126-128 | For any byte stream: reads act like the whole stream at once if and only if none ends inside a piece that decodes to one character. |
| Utf8.ReadsAreHarmlessIff | eve/agent/lib/backends/codex-app-server-transport.ts:126-128 | Decoding read by read gives the text of the whole stream if and only if no read ends inside a piece, well-formed or not. |
| Utf8.DecodeThrough | eve/agent/lib/backends/codex-app-server-transport.ts:126-128 | A cut through a piece makes the decoded text strictly longer. |
| Utf8.DecodeEncode | eve/agent/lib/backends/codex-app-server-transport.ts:126-128 | Encoded text decodes to itself. |
| Utf8.CutsOfText | eve/agent/lib/backends/codex-app-server-transport.ts:126-128 | In encoded text the places between pieces are exactly those between characters. |
| JsonlTransport.NodeCodexAppServerProcess.OnStdout | eve/agent/lib/backends/codex-app-server-transport.ts:126-128 | A buffer from stdout is decoded by itself and has the effect of its text. |
| JsonlTransport.ChunksDoNotMatter | eve/agent/lib/backends/codex-app-server-transport.ts:218-236 | However the decoded stream is cut into chunks, the effect is that of the whole text at once. |
| JsonlTransport.SplitIsExact | eve/agent/lib/backends/codex-app-server-transport.ts:218-236 | Joining the lines and the unfinished rest gives the text back. |
| JsonlTransport.RequestsSettleOnce | eve/agent/lib/backends/codex-app-server-transport.ts:147-162 | Over every run each request is pending or settled exactly once, never both and never twice. |
| JsonlAnswers.AnsweredByFirst | eve/agent/lib/backends/codex-app-server-transport.ts:238-260 | A pending request is settled by the first response that names it, with exactly what that response carries, and by no other. |
| JsonlAnswers.AnswerIsGiven | eve/agent/lib/backends/codex-app-server-transport.ts:147-336 | Over every run, what settles a request at some step (that response, a failed write or the end of the process) is what its caller has at the end. |
| JsonlAnswers.GivenHasCause | eve/agent/lib/backends/codex-app-server-transport.ts:147-336 | And a request is settled by nothing else. |
| JsonlAnswers.RunDispatchesTheStream | eve/agent/lib/backends/codex-app-server-transport.ts:218-288 | Over every run, handlers have seen exactly the server requests and notifications on the complete lines of all text read, in order, whatever requests and failures are interleaved. |
| JsonlTransport.NothingPendsAfterClose | eve/agent/lib/backends/codex-app-server-transport.ts:304-336 | Once closed, the pending table is empty forever and every request ever sent has settled. |
| JsonlTransport.NodeCodexAppServerProcess.HandleStdout | eve/agent/lib/backends/codex-app-server-transport.ts:218-236 | The buffer loop has the effect of the specified splitter. |
| JsonlTransport.NodeCodexAppServerProcess.HandleMessage | eve/agent/lib/backends/codex-app-server-transport.ts:238-288 | A response settles the request its key names and no other; other messages are dispatched. |
| JsonlTransport.NodeCodexAppServerProcess.SendRequest | eve/agent/lib/backends/codex-app-server-transport.ts:147-162 | A request gets the next id and a pending entry, is rejected at once if the write fails, and is refused after close. |
| JsonlTransport.NodeCodexAppServerProcess.FinishClosed | eve/agent/lib/backends/codex-app-server-transport.ts:322-336 | Closing rejects every pending request once; a second close changes nothing. |
| JsonText.CanonicalTextIsMeaning | packages/protocol/src/handoff.ts:524-541 | Two values get the same canonical text exactly if they mean the same, whatever the order of their properties. |
| JsonText.RenderIsPrefixFree | packages/protocol/src/handoff.ts:524-526 | A rendered value followed by a delimiter can be read in one way only. |
| CanonicalJson.SameMeaningSameForm | packages/protocol/src/handoff.ts:528-541 | Values that differ only in the order of properties, or in undefined ones, have the same canonical form. |
| CanonicalJson.SameFormSameMeaning | packages/protocol/src/handoff.ts:528-541 | Values with the same canonical form mean the same. |
| Sorting.OneAscending | packages/protocol/src/handoff.ts:543-550 | A multiset has only one ascending arrangement. |
| Handoff.SortedUniqueListsTheSet | packages/protocol/src/handoff.ts:543-546 | The result lists the same strings, strictly ascending by code units. |
| Handoff.SortedUniqueForgetsOrder | packages/protocol/src/handoff.ts:543-546 | Order and multiplicity of the input play no role. |
| HandoffContent.OrderIsByCodeUnits | packages/protocol/src/handoff.ts:548-550 | Strings are ordered by their first differing code unit, and a proper prefix comes first. |
| Handoff.HandoffDependsOnContent | packages/protocol/src/handoff.ts:258-378 | Reports with equal scalars and equal sets render the same handoff, or fail with the same error. |
| HandoffContent.HandoffSaysTheReport | packages/protocol/src/handoff.ts:258-378 | A rendered handoff says what the report says, each thing in its own place: report and target, Issue, snapshot, completion ids, all evidence, and under each heading of the contract the report's own list for it. |
| HandoffContent.HandoffIsRenderedIff | packages/protocol/src/handoff.ts:258-378 | A handoff is rendered if and only if the report is ready, its workpad reference complete and of this repository, its session finalized on its target and on the Issue's own branch at the completed head, and its evidence and contract are not empty. |
| HandoffContent.SegmentsRejoin | packages/protocol/src/handoff.ts:485-512 | A branch name is encoded segment by segment: its slashes stay and nothing else separates segments. |
| Handoff.RequestDependsOnContent | packages/protocol/src/handoff.ts:380-483 | With distinct item ids, equal scalars and equal sets make the same human-input request. |
| HandoffContent.RequestSaysTheReport | packages/protocol/src/handoff.ts:380-483 | A rendered request says what the report says: its question and context, and each shown finding, as often as listed, in its own section in ascending order of ids. |
| HandoffContent.RequestIsRenderedIff | packages/protocol/src/handoff.ts:380-483 | A request is rendered if and only if each of the facts it needs holds; otherwise it needs input. |
| Handoff.OrderIsForgottenIff | packages/protocol/src/handoff.ts:419-444 | All orders of a list of items give the same sorted list if and only if no two shown items share an id with different content. |
| Handoff.RequestForgetsOrderIff | packages/protocol/src/handoff.ts:380-483 | All orders of the report make the same request if and only if it is refused, or none of its three lists shows two items with one id and different content. |
| Handoff.SharedIdsShowOrder | packages/protocol/src/handoff.ts:419-444 | For any two shown items of a list that share an id and differ, some other order of the list sorts differently. |
| Handoff.SortIsStable | packages/protocol/src/handoff.ts:419-444 | Sorting keeps the items of one id in the order of the report. |
| SnapshotRefs.FinalizeSnapshot | eve/agent/lib/diagnostics/worktree.ts:327-409 | Never moves a ref, adds at most the snapshot branch at the recorded head, succeeds only with both refs there, and with working commands succeeds exactly if the worktree is clean, the Issue URL fits and both refs are absent or right; a differing remote or local branch is reported as such, and the former before anything is written. |
| SnapshotRefs.InterruptedRunCanFinish | eve/agent/lib/diagnostics/worktree.ts:327-409 | However a run ends, the refs it leaves let the next run finish. |
| SnapshotRefs.FinalizeAgain | eve/agent/lib/diagnostics/worktree.ts:327-409 | A crash after any command and a rerun with working commands converge to the same branch and head. |
| SnapshotRefs.FinalizedSnapshotPasses | packages/protocol/src/handoff.ts:279-309 | Past the checks of its workpad reference, what finalization writes passes every identity check of the handoff exactly if the report names its target in lower case. |

## Left out

- File and process I/O: temporary files, fsync and rename, child processes, Octokit, `gh` and the GraphQL tracker. The ledger
  store is one atomic value per session, the Issue a comment list, Git two maps from refs to revisions.
- Several processes writing one ledger file: each mutation is atomic, as within one process.
- Cross-session ownership (`packages/mcp-adapter/src/root-operation-store.ts:551-577`): under filter false positives the store
  may refuse an id no session owns; the statements are about one session's ledger.
- Version 1 session files and their migration.
- Schema field checks and the credential and path patterns: parameters of the model. The cross-field rules the state machines
  need are kept.
- `publishHandoffComment` and the handoff Markdown templates: they follow the same read, write and read-back scheme.
- The words of the human view: its headings, links and stages are fixed parts that hold no tag and no tilde; the two escapes of
  report text are modelled.
- Runtime supervisor, host readiness, target setup, channel policy, tool declarations and evaluations: many small branches without
  shared state.
- IssueGateway.PublishSharedContext: nobody else writes during the call; what a second writer does to it is stated in
  PublicationConflicts. Artifact normalisation before the write is modelled in ArtifactReferences and not repeated here.
- IssueGateway.WriteWorkpad: nobody else writes during the call.
- IssueGateway.WriteChunks: nobody else writes during the loop.
- IssueGateway.WriteChunkedWorkpad: nobody else writes during the call.
- PublicationRuns.PlannedWriteMovesHead: chunk and manifest comments never hold a reserved marker of report text, because chunks
  are base64, identifiers are restricted and the human view is escaped; only inline entries can be marked.
- RootLedger.ParseLedger: the shape checks of single fields (timestamps, the fingerprint pattern, non-empty strings) are left to
  the types of the model.
- Handoff.RequestDependsOnContent: equality of the request as a value; the Markdown around it is a template.
- ChunkReuse.LargestFittingChunkByteLength: that the result is the largest size is stated under monotone fitting only, because
  rounding in base64 and the digits of the chunk count make fitting not literally monotone.
- Publication.PrepareIssueWorkpadMutation: a refusal for the budget is exact under the same monotonicity.
- DeliveryRuns.AtMostOneSend: takes as hypothesis that block writes after an undelivered send take effect; the exact count
  without it is DeliveryRuns.SendsAreBounded.
- SessionLedger.RootSessionLedger.CompactTerminalOperations: the order of records with equal completion time is left open.
- JsonlTransport.ChunksDoNotMatter: chunks of decoded text; bytes and split characters are the subject of
  JsonlTransport.BuffersActAsTextIff. Strings are sequences of Unicode scalar values, which decoding always yields.
- IssueWorkpad.ValidateProducerConfiguration: the patterns of producer and actor ids are left to the types of the model.
- PublicationHistory.RunKeepsHistory: nobody edits or deletes comments, and a registered producer's account writes managed
  comments through the gateway only.
- SnapshotRefs.FinalizeSnapshot: nobody else writes the remote branch meanwhile, and the inspection of the worktree is one flag.
- Handoff.HandoffDependsOnContent: the payload whose digest is the handoff id is a value; its encoding as JSON is covered by
  JsonText for JSON values in general.
- WorkpadText.AppendThenParse: fixed words and links of the human view are taken to be free of tags and leading tildes, and
  the schema round trip of an entry's JSON is a hypothesis on the format.
- ReconciliationLoop.ReconcileCompletion: the inspection of the worktree is its observed head, or nothing where it throws.
- Retention.SurvivalWithoutFullRecords: among records with equal completion times the order of the sort decides, and is left open.
- PublicationBudget.PlanRespectsBudget: the code checks chunk sizes at attempt 0 only; for later attempts the statement supposes
  that the size of a body depends on the length of its group id and not on its digits.
- RootAnswers.FinishedTurnIsStored: supposes that at least one full record is retained; retention 0 is the subject of
  Retention.SurvivalWithoutFullRecords.
- ArtifactHandles.HandlesAreDistinct: supposes that digests hold no slash, as hexadecimal ones do.
