/**
 * What the Issue model takes from the text of comments: an entry is marked exactly if a string of
 * its report contains a reserved marker, and printed entries are read back exactly if none is.
 */
module WorkpadReadback {
  import opened Common
  import opened CanonicalJson
  import opened JsonText
  import opened PrettyJson
  import opened WorkpadLines
  import opened WorkpadMarks
  import opened WorkpadStrings
  import opened WorkpadText
  import opened Workpad
  import opened IssueWorkpad
  import opened IssueChanges
  import opened Publication
  import opened PublicationRuns
  import opened PublicationHistory

  /** A string or key of the payload contains the marker of a manifest, of a chunk or of the first version. */
  ghost predicate HoldsReserved(v: Json) {
    Holds(v, ManifestStart()) || Holds(v, ChunkMark()) || Holds(v, LegacyMark())
  }

  lemma JsonReservedIffString(f: EntryFormat, e: Entry)
    requires FormatOk(f) && Prints(f, e)
    ensures JsonReserved(f, e) <==> HoldsReserved(f.payload(e).value)
  {
    var v := f.payload(e).value;
    hide Holds, Contains, ManifestStart, ChunkMark, LegacyMark, Pretty, IsComment;
    PrettyHolds(v, 0, ManifestStart());
    PrettyHolds(v, 0, ChunkMark());
    PrettyHolds(v, 0, LegacyMark());
  }

  /** The Issue model and the text model speak of the same entries and the same markers. */
  ghost predicate SameFormat(p: Platform, f: EntryFormat)
    requires FormatOk(f)
  {
    forall e :: (p.encode(e).Some? <==> Prints(f, e)) && (Prints(f, e) ==> p.marked(e) == JsonReserved(f, e))
  }

  /** A comment printed entry by entry is read back as the Issue model says. */
  lemma PrintedEntriesAreReadBack(p: Platform, f: EntryFormat, entries: seq<Entry>)
    requires FormatOk(f) && SameFormat(p, f) && |entries| > 0
    requires forall i :: 0 <= i < |entries| ==> p.encode(entries[i]).Some?
    ensures forall i :: 0 <= i < |entries| ==> Prints(f, entries[i])
    ensures Parse(f, PrintHistory(f, entries)) == if NoneMarked(p, entries) then Some(entries) else None
  {
    assert forall i :: 0 <= i < |entries| ==> p.marked(entries[i]) == JsonReserved(f, entries[i]);
    hide FormatOk, JsonReserved, Parse, PrintHistory, SameFormat;
    HistoryParses(f, entries);
    if !NoneMarked(p, entries) {
      var e :| e in entries && p.marked(e);
      var i :| 0 <= i < |entries| && entries[i] == e;
      assert JsonReserved(f, entries[i]);
    } else {
      assert forall i :: 0 <= i < |entries| ==> entries[i] in entries;
    }
  }

  // ---------------------------------------------------------------- a marked report is written and lost

  /** For instance, a report one string of which is the chunk marker. */
  lemma MarkerAsString(name: Text)
    ensures var v := Obj([Field(name, Some(Str(ChunkMark())))]); Printable(v) && HoldsReserved(v)
  {
    hide ChunkMark, ManifestStart, LegacyMark;
    var v := Obj([Field(name, Some(Str(ChunkMark())))]);
    assert OccursAt(ChunkMark(), ChunkMark(), 0);
    assert Contains(ChunkMark(), ChunkMark());
    assert Holds(Str(ChunkMark()), ChunkMark());
    assert FieldHolds(v.fields[0], ChunkMark());
  }

  const ZERO_DIGEST: Digest := seq(32, _ => 0)

  function OneEntryPlatform(e: Entry): Platform {
    Platform(_ => ZERO_DIGEST, _ => ZERO_DIGEST, x => if x == e then Some([1]) else None, b => if b == [1] then Some(e) else None,
             x => x == e, _ => 0)
  }

  function OneEntryFormat(e: Entry, v: Json): EntryFormat {
    EntryFormat(_ => [], x => if x == e then Some(v) else None, _ => Some(e))
  }

  lemma OneEntryFits(e: Entry, v: Json)
    requires Printable(v) && HoldsReserved(v)
    ensures PlatformOk(OneEntryPlatform(e)) && FormatOk(OneEntryFormat(e, v))
    ensures JsonReserved(OneEntryFormat(e, v), e) && SameFormat(OneEntryPlatform(e), OneEntryFormat(e, v))
  {
    hide Pretty, HoldsReserved;
    assert FormatOk(OneEntryFormat(e, v));
    JsonReservedIffString(OneEntryFormat(e, v), e);
    hide JsonReserved;
  }

  function OpeningWrite(key: IssueKey, producer: Producer, report: Report): Mutation {
    var e := OpeningEntry(key, report, 0, producer, None);
    SingleWrite(Create, Expectation(0, None, None), e, EntriesBody([e], Rendered), None)
  }

  lemma OpeningIsLost(key: IssueKey, producer: Producer, report: Report, id: CommentRef)
    returns (p: Platform, m: Mutation, after: seq<Comment>)
    requires report.context.None?
    ensures m == OpeningWrite(key, producer, report) && p == OneEntryPlatform(m.entry)
    ensures Publishes(p, key, None, report, 0, producer, 1, m) && Written([], m, producer.actor, id, [], after)
    ensures Unreadable(p, after, key, [producer])
  {
    m := OpeningWrite(key, producer, report);
    p := OneEntryPlatform(m.entry);
    after := [Comment(id, m.body, Some(producer.actor))];
    hide OpeningEntry, Unreadable;
    assert ManagedOf([]) == [];
    assert [] + after == after;
    MarkedWriteBreaksLineage(p, Issue(key, 0, []), Configuration(producer, [producer]), [], report, 0, 1, m, id, [], after);
  }

  /**
   * The lineage's own report on an Issue without comments, whatever the JSON its entry prints to: if
   * one string of it is or contains a reserved marker, the planned creation is written, and after
   * that nobody can read the Issue.
   */
  lemma MarkedReportIsLost(key: IssueKey, producer: Producer, report: Report, id: CommentRef, v: Json)
    returns (p: Platform, f: EntryFormat, m: Mutation, after: seq<Comment>)
    requires report.context.None? && Printable(v) && HoldsReserved(v)
    ensures PlatformOk(p) && FormatOk(f) && SameFormat(p, f) && Prints(f, m.entry)
    ensures m.entry == OpeningEntry(key, report, 0, producer, None) && f.payload(m.entry) == Some(v)
    ensures Publishes(p, key, None, report, 0, producer, 1, m) && Written([], m, producer.actor, id, [], after)
    ensures Parse(f, PrintComment(f, m.entry)) == None
    ensures Unreadable(p, after, key, [producer])
  {
    hide HoldsReserved, JsonReserved, FormatOk, SameFormat, Parse, PrintComment, Unreadable, OpeningEntry, Publishes, Written;
    p, m, after := OpeningIsLost(key, producer, report, id);
    f := OneEntryFormat(m.entry, v);
    OneEntryFits(m.entry, v);
    PrintThenParse(f, m.entry);
  }
}
