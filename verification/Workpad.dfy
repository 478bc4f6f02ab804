/** The values of the GitHub Issue workpad protocol. */
module Workpad {
  import opened Common
  import opened Decimal

  datatype Identifier = Identifier(text: string)
  datatype CommentRef = CommentRef(text: string)
  datatype ActorId = ActorId(text: string)

  /** One explicitly configured producer allowed to write a lineage. */
  datatype Producer = Producer(id: Identifier, actor: ActorId)

  datatype Continuation = Capacity | ProducerTransition

  datatype IssueKey = IssueKey(repository: string, issueNumber: nat, issueUrl: string)

  /** The `shared_context` of a report. */
  datatype Context = Context(
    issue: IssueKey,
    commentRef: Option<CommentRef>,
    revision: nat,
    sessionId: Option<Identifier>,
    entryId: Option<Identifier>,
    producerId: Option<Identifier>,
    predecessor: Option<CommentRef>,
    syncedAt: Option<int>)

  datatype Report = Report(id: Identifier, updatedAt: int, context: Option<Context>, content: string)

  /** One immutable revision of the report. */
  datatype Entry = Entry(
    producer: Producer,
    sessionId: Identifier,
    entryId: Identifier,
    revision: nat,
    predecessor: Option<CommentRef>,
    continuation: Option<Continuation>,
    report: Report)

  datatype Chunk = Chunk(
    producer: Producer,
    sessionId: Identifier,
    entryId: Identifier,
    revision: nat,
    groupId: Identifier,
    index: nat,
    count: nat,
    chunkDigest: Digest,
    payloadDigest: Digest,
    content: string)

  datatype ChunkReference = ChunkReference(commentRef: CommentRef, index: nat, chunkDigest: Digest)

  datatype Manifest = Manifest(
    producer: Producer,
    sessionId: Identifier,
    entryId: Identifier,
    revision: nat,
    groupId: Identifier,
    payloadDigest: Digest,
    predecessor: Option<CommentRef>,
    continuation: Option<Continuation>,
    chunks: seq<ChunkReference>)

  /** The text of a comment that no parser reads. */
  datatype Layout = Rendered | Edited(text: string)

  /**
   * A comment body by what was put into it. The parsers read an `EntriesBody` back unless one of
   * its entries is marked; they never read the broken ones.
   */
  datatype Body =
    | EntriesBody(entries: seq<Entry>, layout: Layout)
    | ManifestBody(manifest: Manifest, layout: Layout)
    | ChunkBody(chunk: Chunk, layout: Layout)
    | BrokenManaged(text: string)
    | BrokenChunk(text: string)
    | Unrelated(text: string)

  /** The body contains the managed marker. */
  predicate IsManaged(body: Body) {
    body.EntriesBody? || body.ManifestBody? || body.BrokenManaged?
  }

  /** The body contains the provisional chunk marker. */
  predicate IsProvisional(body: Body) {
    body.ChunkBody? || body.BrokenChunk?
  }

  datatype Comment = Comment(id: CommentRef, body: Body, author: Option<ActorId>)

  ghost predicate DistinctIds(comments: seq<Comment>) {
    forall i, j :: 0 <= i < j < |comments| ==> comments[i].id != comments[j].id
  }

  datatype Issue = Issue(key: IssueKey, updatedAt: int, comments: seq<Comment>)

  datatype Configuration = Configuration(current: Producer, producers: seq<Producer>)

  /** What the content address of a chunk group covers. */
  datatype GroupKey = GroupKey(
    producer: Producer,
    sessionId: Identifier,
    entryId: Identifier,
    revision: nat,
    predecessor: Option<CommentRef>,
    continuation: Option<Continuation>,
    payloadDigest: Digest,
    chunkDigests: seq<Digest>,
    attempt: nat)

  /**
   * The parts of the runtime the protocol rests on: hashing, canonical JSON with its schema
   * and publication checks (`None` where those throw), whether the printed JSON of an entry
   * contains a marker its parser reserves, and the size of a comment request.
   */
  datatype Platform = Platform(
    sha256: seq<Byte> -> Digest,
    groupDigest: GroupKey -> Digest,
    encode: Entry -> Option<seq<Byte>>,
    decode: seq<Byte> -> Option<Entry>,
    marked: Entry -> bool,
    size: Body -> nat)

  /** Serialised entries are not empty and are read back unchanged. */
  ghost predicate PlatformOk(p: Platform) {
    forall e :: p.encode(e).Some? ==> |p.encode(e).value| > 0 && p.decode(p.encode(e).value) == Some(e)
  }

  /** An entry's own metadata repeats what its report's shared context says. */
  predicate ContextMatches(e: Entry) {
    && e.report.context.Some?
    && var c := e.report.context.value;
       && c.revision == e.revision
       && c.entryId == Some(e.entryId)
       && c.sessionId == Some(e.sessionId)
       && c.producerId == Some(e.producer.id)
       && c.predecessor == e.predecessor
  }

  /** `logicalSessionId + "/revision-" + revision`. */
  function EntryIdFor(sessionId: Identifier, revision: nat): Identifier {
    Identifier(sessionId.text + "/revision-" + Text(revision))
  }

  lemma EntryIdsDiffer(sessionId: Identifier, a: nat, b: nat)
    requires EntryIdFor(sessionId, a) == EntryIdFor(sessionId, b)
    ensures a == b
  {
    var prefix := sessionId.text + "/revision-";
    assert (prefix + Text(a))[|prefix|..] == Text(a);
    assert (prefix + Text(b))[|prefix|..] == Text(b);
    TextIsInjective(a, b);
  }
}
