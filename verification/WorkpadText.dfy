/**
 * Printing entries into a comment and parsing them back: appending keeps the old text, and the
 * parser reads the appended entry after the old ones, unless its JSON contains a reserved marker.
 */
module WorkpadText {
  import opened Common
  import opened CanonicalJson
  import opened JsonText
  import opened PrettyJson
  import opened WorkpadView
  import opened WorkpadLines
  import opened WorkpadMarks
  import opened Workpad

  /**
   * What an entry is printed from: its human view and its payload (`None` where the schema or the
   * publication checks throw); and how the JSON between the fences is read back.
   */
  datatype EntryFormat = EntryFormat(
    view: Entry -> seq<Block>,
    payload: Entry -> Option<Json>,
    read: seq<Text> -> Option<Entry>)

  /** `JSON.parse` with the schema undoes `JSON.stringify`, and the view's own words are harmless. */
  ghost predicate FormatOk(f: EntryFormat) {
    forall e :: f.payload(e).Some? ==>
      && Printable(f.payload(e).value)
      && FixedPartsHarmless(f.view(e))
      && f.read(Pretty(f.payload(e).value, 0)) == Some(e)
  }

  ghost predicate Prints(f: EntryFormat, e: Entry) {
    f.payload(e).Some?
  }

  // ---------------------------------------------------------------- printing

  function Heading(): (t: Text)
    ensures |t| == 24 && Harmless(t)
  {
    var t := Units("### FailureReport update");
    assert LESS !in t && TILDE !in t && OneLine(t);
    t
  }

  function Details(): (t: Text)
    ensures |t| == 9 && Harmless(t)
  {
    Units("<details>")
  }

  function DetailsEnd(): (t: Text)
    ensures |t| == 10 && Harmless(t)
  {
    Units("</details>")
  }

  /** Words without tags, tildes or line ends. */
  function Words(s: string): (t: Text)
    requires forall i :: 0 <= i < |s| ==> ' ' <= s[i] < '{' && s[i] != '<'
    ensures Harmless(t)
  {
    Units(s)
  }

  function Tagged(words: Text): (t: Text)
    requires Harmless(words)
    ensures Harmless(t)
  {
    var start, end := Units("<summary>"), Units("</summary>");
    assert Harmless(start) && Harmless(end);
    HarmlessConcat(start, words);
    HarmlessConcat(start + words, end);
    start + words + end
  }

  function Snapshot(): (t: Text)
    ensures Harmless(t)
  {
    HarmlessConcat(Words("FailureReport "), Words("snapshot"));
    Words("FailureReport ") + Words("snapshot")
  }

  /** The line that labels the snapshot. */
  function Summary(): (t: Text)
    ensures Harmless(t)
  {
    assert Harmless([0x2014]);
    HarmlessConcat(Words("Canonical "), Words("context "));
    HarmlessConcat(Words("Canonical ") + Words("context "), [0x2014]);
    HarmlessConcat(Words(" complete "), Snapshot());
    HarmlessConcat(Words("Canonical ") + Words("context ") + [0x2014], Words(" complete ") + Snapshot());
    Tagged(Words("Canonical ") + Words("context ") + [0x2014] + (Words(" complete ") + Snapshot()))
  }

  /** The label of the first fold, still accepted. */
  function OldSummary(): (t: Text)
    ensures Harmless(t)
  {
    HarmlessConcat(Words("Canonical "), Snapshot());
    Tagged(Words("Canonical ") + Snapshot())
  }

  ghost function BeforeFence(f: EntryFormat, e: Entry): seq<Text> {
    [Heading(), []] + ViewLines(f.view(e)) + [[], Details(), Summary(), []]
  }

  ghost function JsonLines(f: EntryFormat, e: Entry): (lines: seq<Text>)
    requires FormatOk(f) && Prints(f, e)
    ensures |lines| > 0
  {
    Pretty(f.payload(e).value, 0)
  }

  /** The lines between the entry markers. */
  ghost function InnerLines(f: EntryFormat, e: Entry): (lines: seq<Text>)
    requires FormatOk(f) && Prints(f, e)
    ensures |lines| > 0
  {
    BeforeFence(f, e) + ([FenceOpen()] + JsonLines(f, e) + [FenceClose()] + [DetailsEnd()])
  }

  /** `renderFailureReportWorkpadEntry` */
  ghost function EntryLines(f: EntryFormat, e: Entry): (lines: seq<Text>)
    requires FormatOk(f) && Prints(f, e)
    ensures |lines| > 0
  {
    [EntryStart()] + InnerLines(f, e) + [EntryEnd()]
  }

  /** `renderFailureReportWorkpad` */
  ghost function PrintComment(f: EntryFormat, e: Entry): Text
    requires FormatOk(f) && Prints(f, e)
  {
    Join([WorkpadMark()] + EntryLines(f, e) + [[]])
  }

  predicate EndsWithNewline(text: Text) {
    |text| > 0 && text[|text| - 1] == NEWLINE
  }

  function Separator(text: Text): Text {
    if EndsWithNewline(text) then [NEWLINE] else [NEWLINE, NEWLINE]
  }

  /** `appendFailureReportWorkpadEntry`, for a text that parses. */
  ghost function AppendEntry(f: EntryFormat, text: Text, e: Entry): Text
    requires FormatOk(f) && Prints(f, e)
  {
    text + Separator(text) + (Join(EntryLines(f, e)) + [NEWLINE])
  }

  // ---------------------------------------------------------------- parsing

  /** The public summary comes before the folded snapshot. */
  ghost predicate HasFold(body: Text) {
    && (exists i :: OccursAt(body, Heading(), i) && forall k :: 0 <= k < i ==> !OccursAt(body, Details(), k))
    && Contains(body, Details())
    && (Contains(body, Summary()) || Contains(body, OldSummary()))
    && Contains(body, DetailsEnd())
  }

  /** `extractStandaloneJsonFence` */
  ghost function Fences(body: seq<Text>): seq<seq<Text>> {
    Blocks(body, FenceOpen(), FenceClose())
  }

  ghost function ReadBody(f: EntryFormat, body: seq<Text>): Option<Entry>
    requires |body| > 0
  {
    if Join(body) == [] || !HasFold(Join(body)) then None
    else if |Fences(body)| == 0 || Join(Fences(body)[0]) == [] then None
    else f.read(Fences(body)[0])
  }

  ghost function ReadAll(f: EntryFormat, bodies: seq<seq<Text>>): Option<seq<Entry>>
    requires forall i :: 0 <= i < |bodies| ==> |bodies[i]| > 0
  {
    if |bodies| == 0 then Some([])
    else
      match (ReadBody(f, bodies[0]), ReadAll(f, bodies[1..]))
      case (Some(e), Some(es)) => Some([e] + es)
      case (_, _) => None
  }

  ghost function EntryBodies(lines: seq<Text>): (bodies: seq<seq<Text>>)
    ensures forall i :: 0 <= i < |bodies| ==> |bodies[i]| > 0
  {
    Blocks(lines, EntryStart(), EntryEnd())
  }

  ghost predicate NoneReserved(lines: seq<Text>) {
    forall i :: 0 <= i < |lines| ==> !Reserved(lines[i])
  }

  /** One comment marker, and every entry marker belongs to an entry. */
  ghost predicate Balanced(lines: seq<Text>) {
    && CountTrimmed(lines, WorkpadMark()) == 1
    && NoneReserved(lines)
    && CountTrimmed(lines, EntryStart()) == CountTrimmed(lines, EntryEnd()) == |EntryBodies(lines)|
  }

  ghost function ParseLines(f: EntryFormat, lines: seq<Text>): Option<seq<Entry>> {
    if Balanced(lines) && |EntryBodies(lines)| > 0 then ReadAll(f, EntryBodies(lines)) else None
  }

  /** `parseFailureReportWorkpad`; `None` where it throws. */
  ghost function Parse(f: EntryFormat, text: Text): Option<seq<Entry>> {
    ParseLines(f, Lines(text))
  }

  // ---------------------------------------------------------------- the lines of an entry

  /** Some JSON line of the entry contains a reserved marker. */
  ghost predicate JsonReserved(f: EntryFormat, e: Entry)
    requires FormatOk(f) && Prints(f, e)
  {
    !NoneReserved(JsonLines(f, e))
  }

  lemma EmptyIsHarmless()
    ensures Harmless([])
  {
  }

  lemma BeforeFenceIsHarmless(f: EntryFormat, e: Entry)
    requires FormatOk(f) && Prints(f, e)
    ensures AllHarmless(BeforeFence(f, e))
  {
    EmptyIsHarmless();
    ViewIsHarmless(f.view(e));
    hide Harmless, ViewLines, Heading, Details, Summary, Printable, Pretty;
    var head, view, tail := [Heading(), []], ViewLines(f.view(e)), [[], Details(), Summary(), []];
    AllHarmlessConcat(head, view);
    AllHarmlessConcat(head + view, tail);
  }

  lemma AllHarmlessConcat(a: seq<Text>, b: seq<Text>)
    requires AllHarmless(a) && AllHarmless(b)
    ensures AllHarmless(a + b)
  {
    hide Harmless;
  }

  lemma JsonLinesAreJson(f: EntryFormat, e: Entry)
    requires FormatOk(f) && Prints(f, e)
    ensures AllJsonLines(JsonLines(f, e))
  {
    hide Pretty;
    PrettyLines(f.payload(e).value, 0);
  }

  /** A line of an entry: harmless, a fence or JSON. */
  ghost predicate EntryLine(line: Text) {
    Harmless(line) || IsJsonLine(line) || line == FenceOpen() || line == FenceClose()
  }

  lemma InnerLinesAre(f: EntryFormat, e: Entry)
    requires FormatOk(f) && Prints(f, e)
    ensures forall i :: 0 <= i < |InnerLines(f, e)| ==> EntryLine(InnerLines(f, e)[i])
  {
    BeforeFenceIsHarmless(f, e);
    JsonLinesAreJson(f, e);
    hide Harmless, IsJsonLine, FenceOpen, FenceClose, DetailsEnd, BeforeFence, JsonLines, FormatOk;
  }

  lemma EntryLineIsCalm(line: Text)
    requires EntryLine(line)
    ensures Calm(line) && NEWLINE !in line && WithoutReturn(line) == line
  {
    if Harmless(line) {
      HarmlessIsCalm(line);
    } else if IsJsonLine(line) {
      JsonLineIsCalm(line);
    } else {
      WordsAreCalm(line);
    }
    hide Calm, FenceOpen, FenceClose;
  }

  /** Of an entry's lines only JSON can contain a reserved marker. */
  lemma ReservedIsJson(f: EntryFormat, e: Entry)
    requires FormatOk(f) && Prints(f, e)
    ensures NoneReserved(InnerLines(f, e)) <==> !JsonReserved(f, e)
  {
    hide Harmless, Reserved, Calm, FenceOpen, FenceClose, DetailsEnd, BeforeFence, JsonLines, FormatOk;
    BeforeFenceIsHarmless(f, e);
    WordsAreCalm(FenceOpen());
    WordsAreCalm(FenceClose());
    HarmlessIsCalm(DetailsEnd());
    var before, json, inner := BeforeFence(f, e), JsonLines(f, e), InnerLines(f, e);
    forall i | 0 <= i < |before|
      ensures !Reserved(before[i])
    {
      HarmlessIsCalm(before[i]);
    }
    assert forall i :: 0 <= i < |before| ==> inner[i] == before[i];
    assert forall i :: 0 <= i < |json| ==> inner[|before| + 1 + i] == json[i];
    assert inner[|before|] == FenceOpen() && inner[|before| + 1 + |json|] == FenceClose();
    assert inner[|before| + 2 + |json|] == DetailsEnd() && |inner| == |before| + 3 + |json|;
    assert forall i :: |before| < i <= |before| + |json| ==> inner[i] == json[i - |before| - 1];
  }

  // ---------------------------------------------------------------- reading an entry back

  lemma {:induction false} JoinContains(lines: seq<Text>, i: nat)
    requires i < |lines|
    ensures Contains(Join(lines), lines[i])
  {
    if |lines| == 1 {
      assert OccursAt(Join(lines), lines[0], 0);
    } else if i == 0 {
      assert OccursAt(Join(lines), lines[0], 0);
    } else {
      JoinContains(lines[1..], i - 1);
      var k :| OccursAt(Join(lines[1..]), lines[1..][i - 1], k);
      var n := |lines[0]| + 1 + k;
      assert Join(lines)[n..n + |lines[i]|] == Join(lines[1..])[k..k + |lines[i]|];
      assert OccursAt(Join(lines), lines[i], n);
    }
  }

  lemma InnerHasFold(f: EntryFormat, e: Entry)
    requires FormatOk(f) && Prints(f, e)
    ensures HasFold(Join(InnerLines(f, e))) && Join(InnerLines(f, e)) != []
  {
    hide Harmless, Contains, Heading, Details, DetailsEnd, Summary, OldSummary, FenceOpen, FenceClose, JsonLines, FormatOk, ViewLines;
    var inner, n := InnerLines(f, e), |ViewLines(f.view(e))|;
    assert inner[0] == Heading() && inner[n + 3] == Details() && inner[n + 4] == Summary();
    assert inner[|inner| - 1] == DetailsEnd();
    JoinContains(inner, n + 3);
    JoinContains(inner, n + 4);
    JoinContains(inner, |inner| - 1);
    JoinStarts(inner);
  }

  lemma JoinStarts(lines: seq<Text>)
    requires |lines| > 0
    ensures OccursAt(Join(lines), lines[0], 0) && |Join(lines)| >= |lines[0]|
  {
  }

  lemma InnerFence(f: EntryFormat, e: Entry)
    requires FormatOk(f) && Prints(f, e)
    ensures |Fences(InnerLines(f, e))| > 0 && Fences(InnerLines(f, e))[0] == JsonLines(f, e)
  {
    BeforeFenceIsHarmless(f, e);
    JsonLinesAreJson(f, e);
    hide Harmless, IsJsonLine, Stands, FenceOpen, FenceClose, DetailsEnd, BeforeFence, JsonLines, FormatOk, Blocks;
    var before, json := BeforeFence(f, e), JsonLines(f, e);
    forall i | 0 <= i < |before|
      ensures !Stands(before[i], FenceOpen())
    {
      HarmlessIsNoFence(before[i], FenceOpen());
    }
    forall i | 0 <= i < |json|
      ensures !Stands(json[i], FenceClose())
    {
      JsonLineIsNoMark(json[i], FenceClose());
    }
    MarkStands(FenceOpen());
    MarkStands(FenceClose());
    BlocksSkip(before, [FenceOpen()] + json + [FenceClose()] + [DetailsEnd()], FenceOpen(), FenceClose());
    BlocksOfOne(FenceOpen(), json, FenceClose(), [DetailsEnd()], FenceOpen(), FenceClose());
  }

  /** The parser reads the printed entry back. */
  lemma InnerReadsBack(f: EntryFormat, e: Entry)
    requires FormatOk(f) && Prints(f, e)
    ensures ReadBody(f, InnerLines(f, e)) == Some(e)
  {
    InnerHasFold(f, e);
    InnerFence(f, e);
    JsonLinesAreJson(f, e);
    assert f.read(JsonLines(f, e)) == Some(e);
    hide Harmless, IsJsonLine, HasFold, Fences, JsonLines, InnerLines, FormatOk;
    JsonLineIsNotEmpty(JsonLines(f, e)[0]);
    JoinStarts(JsonLines(f, e));
  }

  lemma JsonLineIsNotEmpty(line: Text)
    requires IsJsonLine(line)
    ensures |line| > 0
  {
  }

  // ---------------------------------------------------------------- adding an entry to a comment

  ghost predicate AllCalm(lines: seq<Text>) {
    forall i :: 0 <= i < |lines| ==> Calm(lines[i])
  }

  /** What printing adds to the lines of a comment: perhaps an empty line, the entry, and the end of the text. */
  ghost function Addition(gap: bool, inner: seq<Text>): seq<Text> {
    Gap(gap) + ([EntryStart()] + inner + [EntryEnd()] + Gap(true))
  }

  ghost function Gap(gap: bool): seq<Text> {
    if gap then [[]] else []
  }

  lemma GapIsCalm(gap: bool)
    ensures AllCalm(Gap(gap)) && NoneReserved(Gap(gap))
  {
    WordsAreCalm([]);
    hide Calm, Reserved;
  }

  lemma InnerIsCalm(f: EntryFormat, e: Entry)
    requires FormatOk(f) && Prints(f, e)
    ensures AllCalm(InnerLines(f, e))
  {
    InnerLinesAre(f, e);
    hide EntryLine, InnerLines, Calm, FormatOk;
    forall i | 0 <= i < |InnerLines(f, e)|
      ensures Calm(InnerLines(f, e)[i])
    {
      EntryLineIsCalm(InnerLines(f, e)[i]);
    }
  }

  ghost predicate IsEntryMark(m: Text) {
    m == WorkpadMark() || m == EntryStart() || m == EntryEnd()
  }

  lemma CalmCountsNothing(lines: seq<Text>, m: Text)
    requires AllCalm(lines) && IsEntryMark(m)
    ensures CountTrimmed(lines, m) == 0
  {
    hide StandsTrimmed, CountTrimmed, WorkpadMark, EntryStart, EntryEnd;
    assert forall i :: 0 <= i < |lines| ==> Calm(lines[i]);
    CountNone(lines, m);
  }

  lemma CountOfOne(line: Text, m: Text)
    ensures CountTrimmed([line], m) == if StandsTrimmed(line, m) then 1 else 0
  {
    hide StandsTrimmed;
    assert CountTrimmed([line][1..], m) == 0;
  }

  /** An entry marker counts once as itself and not as the others. */
  lemma EntryMarkCounts(line: Text, m: Text)
    requires IsEntryMark(line) && IsEntryMark(m)
    ensures CountTrimmed([line], m) == if m == line then 1 else 0
  {
    CountOfOne(line, m);
    MarkStands(m);
    hide StandsTrimmed, CountTrimmed, WorkpadMark, EntryStart, EntryEnd;
    if m != line {
      MarksDiffer(line, m);
    }
  }

  lemma AdditionCounts(gap: bool, inner: seq<Text>, m: Text)
    requires AllCalm(inner) && IsEntryMark(m)
    ensures CountTrimmed(Addition(gap, inner), m) == (if m == EntryStart() then 1 else 0) + if m == EntryEnd() then 1 else 0
  {
    GapIsCalm(gap);
    GapIsCalm(true);
    CalmCountsNothing(Gap(gap), m);
    CalmCountsNothing(inner, m);
    CalmCountsNothing(Gap(true), m);
    hide StandsTrimmed, CountTrimmed, WorkpadMark, EntryStart, EntryEnd, Gap, AllCalm;
    EntryMarkCounts(EntryStart(), m);
    EntryMarkCounts(EntryEnd(), m);
    CountConcat(Gap(gap), [EntryStart()] + inner + [EntryEnd()] + Gap(true), m);
    CountConcat([EntryStart()] + inner + [EntryEnd()], Gap(true), m);
    CountConcat([EntryStart()] + inner, [EntryEnd()], m);
    CountConcat([EntryStart()], inner, m);
  }

  lemma AdditionBodies(gap: bool, inner: seq<Text>)
    requires |inner| > 0 && AllCalm(inner)
    ensures EntryBodies(Addition(gap, inner)) == [inner]
  {
    GapIsCalm(gap);
    GapIsCalm(true);
    CalmStandNot(Gap(gap));
    CalmStandNot(Gap(true));
    CalmStandNot(inner);
    MarkStands(EntryStart());
    MarkStands(EntryEnd());
    hide AllCalm, Stands, StandsTrimmed, WorkpadMark, EntryStart, EntryEnd, Blocks, Gap, NoneReserved;
    BlocksSkip(Gap(gap), [EntryStart()] + inner + [EntryEnd()] + Gap(true), EntryStart(), EntryEnd());
    BlocksOfOne(EntryStart(), inner, EntryEnd(), Gap(true), EntryStart(), EntryEnd());
    BlocksSkip(Gap(true), [], EntryStart(), EntryEnd());
    NoBlocks(EntryStart(), EntryEnd());
    assert Gap(true) + [] == Gap(true);
  }

  lemma NoBlocks(a: Text, b: Text)
    ensures Blocks([], a, b) == []
  {
  }

  lemma CalmStandNot(lines: seq<Text>)
    requires AllCalm(lines)
    ensures forall i :: 0 <= i < |lines| ==> !Stands(lines[i], EntryStart()) && !Stands(lines[i], EntryEnd())
  {
    hide Calm, Stands, WorkpadMark, EntryStart, EntryEnd;
    forall i | 0 <= i < |lines|
      ensures !Stands(lines[i], EntryStart()) && !Stands(lines[i], EntryEnd())
    {
      CalmStandsNot(lines[i]);
    }
  }

  lemma CalmStandsNot(line: Text)
    requires Calm(line)
    ensures !Stands(line, EntryStart()) && !Stands(line, EntryEnd())
  {
    hide Stands, StandsTrimmed, WorkpadMark, EntryStart, EntryEnd;
    if Stands(line, EntryStart()) {
      StandsIsTrimmed(line, EntryStart());
    }
    if Stands(line, EntryEnd()) {
      StandsIsTrimmed(line, EntryEnd());
    }
  }

  lemma NoneReservedConcat(a: seq<Text>, b: seq<Text>)
    ensures NoneReserved(a + b) <==> NoneReserved(a) && NoneReserved(b)
  {
    hide Reserved;
    if NoneReserved(a + b) {
      forall i | 0 <= i < |a|
        ensures !Reserved(a[i])
      {
        assert (a + b)[i] == a[i];
      }
      forall i | 0 <= i < |b|
        ensures !Reserved(b[i])
      {
        assert (a + b)[|a| + i] == b[i];
      }
    }
  }

  lemma AdditionReserved(gap: bool, inner: seq<Text>)
    ensures NoneReserved(Addition(gap, inner)) <==> NoneReserved(inner)
  {
    EntryMarksAreNotReserved();
    GapIsCalm(gap);
    GapIsCalm(true);
    MarksAsLines();
    hide Reserved, NoneReserved, AllCalm, WorkpadMark, EntryStart, EntryEnd, Gap;
    NoneReservedConcat(Gap(gap), [EntryStart()] + inner + [EntryEnd()] + Gap(true));
    NoneReservedConcat([EntryStart()] + inner + [EntryEnd()], Gap(true));
    NoneReservedConcat([EntryStart()] + inner, [EntryEnd()]);
    NoneReservedConcat([EntryStart()], inner);
  }

  lemma MarksAsLines()
    ensures NoneReserved([WorkpadMark()]) && NoneReserved([EntryStart()]) && NoneReserved([EntryEnd()])
  {
    EntryMarksAreNotReserved();
    hide Reserved, WorkpadMark, EntryStart, EntryEnd;
  }

  lemma BalancedBodiesAppend(lines: seq<Text>, more: seq<Text>)
    requires Balanced(lines)
    ensures EntryBodies(lines + more) == EntryBodies(lines) + EntryBodies(more)
  {
    hide Stands, StandsTrimmed, WorkpadMark, EntryStart, EntryEnd, Blocks, Count, CountTrimmed, NoneReserved;
    BlocksBound(lines, EntryStart(), EntryEnd());
    CountAtMostTrimmed(lines, EntryStart());
    BlocksAppend(lines, more, EntryStart(), EntryEnd());
  }

  lemma AdditionKeepsBalance(lines: seq<Text>, gap: bool, inner: seq<Text>)
    requires Balanced(lines) && |inner| > 0 && AllCalm(inner)
    ensures Balanced(lines + Addition(gap, inner)) <==> NoneReserved(inner)
    ensures EntryBodies(lines + Addition(gap, inner)) == EntryBodies(lines) + [inner]
  {
    hide WorkpadMark, EntryStart, EntryEnd, CountTrimmed, Addition, EntryBodies, NoneReserved, AllCalm;
    var added := Addition(gap, inner);
    AdditionCounts(gap, inner, WorkpadMark());
    AdditionCounts(gap, inner, EntryStart());
    AdditionCounts(gap, inner, EntryEnd());
    AdditionReserved(gap, inner);
    AdditionBodies(gap, inner);
    NoneReservedConcat(lines, added);
    CountConcat(lines, added, WorkpadMark());
    CountConcat(lines, added, EntryStart());
    CountConcat(lines, added, EntryEnd());
    BalancedBodiesAppend(lines, added);
  }

  lemma {:induction false} ReadAllConcat(f: EntryFormat, a: seq<seq<Text>>, body: seq<Text>)
    requires (forall i :: 0 <= i < |a| ==> |a[i]| > 0) && |body| > 0
    requires ReadAll(f, a).Some? && ReadBody(f, body).Some?
    ensures ReadAll(f, a + [body]) == Some(ReadAll(f, a).value + [ReadBody(f, body).value])
  {
    hide ReadBody;
    if |a| == 0 {
      assert (a + [body])[0] == body && (a + [body])[1..] == [] == a;
      assert [ReadBody(f, body).value] + [] == [] + [ReadBody(f, body).value];
    } else {
      ReadAllConcat(f, a[1..], body);
      assert (a + [body])[1..] == a[1..] + [body];
      var e, es := ReadBody(f, a[0]).value, ReadAll(f, a[1..]).value;
      assert [e] + (es + [ReadBody(f, body).value]) == [e] + es + [ReadBody(f, body).value];
    }
  }

  /** Printing one more entry after lines that are in order. */
  lemma AdditionParses(f: EntryFormat, lines: seq<Text>, gap: bool, e: Entry)
    requires FormatOk(f) && Prints(f, e) && Balanced(lines) && ReadAll(f, EntryBodies(lines)).Some?
    ensures ParseLines(f, lines + Addition(gap, InnerLines(f, e)))
         == if JsonReserved(f, e) then None else Some(ReadAll(f, EntryBodies(lines)).value + [e])
  {
    InnerIsCalm(f, e);
    InnerReadsBack(f, e);
    ReservedIsJson(f, e);
    hide Balanced, Addition, InnerLines, EntryBodies, JsonReserved, FormatOk, ReadBody, ReadAll, AllCalm, NoneReserved;
    AdditionKeepsBalance(lines, gap, InnerLines(f, e));
    ReadAllConcat(f, EntryBodies(lines), InnerLines(f, e));
  }

  // ---------------------------------------------------------------- from lines to text

  lemma EntryTextSplits(f: EntryFormat, e: Entry)
    requires FormatOk(f) && Prints(f, e)
    ensures SplitAtNewlines(Join(EntryLines(f, e))) == EntryLines(f, e)
    ensures WithoutReturns(EntryLines(f, e)) == EntryLines(f, e)
  {
    hide EntryLine, InnerLines, FormatOk, WorkpadMark, EntryStart, EntryEnd, IsComment, WithoutReturn;
    InnerLinesAre(f, e);
    var inner := InnerLines(f, e);
    forall i | 0 <= i < |inner|
      ensures NEWLINE !in inner[i] && WithoutReturn(inner[i]) == inner[i]
    {
      EntryLineIsCalm(inner[i]);
    }
    MarkIsWholeLine(EntryStart());
    MarkIsWholeLine(EntryEnd());
    SplitJoin(EntryLines(f, e));
  }

  lemma MarkIsWholeLine(m: Text)
    requires IsMark(m)
    ensures NEWLINE !in m && WithoutReturn(m) == m
  {
  }

  lemma WithoutReturnsConcat(a: seq<Text>, b: seq<Text>)
    ensures WithoutReturns(a + b) == WithoutReturns(a) + WithoutReturns(b)
  {
    hide WithoutReturn;
  }

  /** The lines of a text that goes on after a newline. */
  lemma LinesAfterNewline(a: Text, b: Text)
    ensures Lines(a + [NEWLINE] + b) == WithoutReturns(SplitAtNewlines(a)) + Lines(b)
  {
    SplitConcat(a, b);
    hide SplitAtNewlines, WithoutReturn;
    var x, y := SplitAtNewlines(a), SplitAtNewlines(b);
    assert (x + y)[..|x + y| - 1] == x + y[..|y| - 1];
    WithoutReturnsConcat(x, y[..|y| - 1]);
  }

  lemma EmptyLine()
    ensures SplitAtNewlines([]) == [[]] && WithoutReturns([[]]) == [[]] && Lines([]) == Gap(true)
  {
    assert SplitAtNewlines([])[..0] == [];
  }

  /** The text of an entry with its last newline, as lines. */
  lemma EntryTextLines(f: EntryFormat, e: Entry)
    requires FormatOk(f) && Prints(f, e)
    ensures Lines(Join(EntryLines(f, e)) + [NEWLINE]) == EntryLines(f, e) + Gap(true)
  {
    EntryTextSplits(f, e);
    EmptyLine();
    hide EntryLines, FormatOk, Lines, Join;
    LinesAfterNewline(Join(EntryLines(f, e)), []);
    assert Join(EntryLines(f, e)) + [NEWLINE] + [] == Join(EntryLines(f, e)) + [NEWLINE];
  }

  /** Where a text ends up among the lines when another is put after it. */
  lemma LinesAfterGap(text: Text, rest: Text)
    ensures Lines(text + Separator(text) + rest) == WithoutReturns(SplitAtNewlines(text)) + (Gap(!EndsWithNewline(text)) + Lines(rest))
  {
    LinesAfterNewline(text, rest);
    EmptyLine();
    hide Lines, WithoutReturns, SplitAtNewlines;
    if !EndsWithNewline(text) {
      LinesAfterNewline(text, [NEWLINE] + rest);
      LinesAfterNewline([], rest);
      assert text + [NEWLINE, NEWLINE] + rest == text + [NEWLINE] + ([NEWLINE] + rest);
      assert [] + [NEWLINE] + rest == [NEWLINE] + rest;
    }
  }

  lemma AppendLines(f: EntryFormat, text: Text, e: Entry)
    requires FormatOk(f) && Prints(f, e)
    ensures Lines(AppendEntry(f, text, e))
         == WithoutReturns(SplitAtNewlines(text)) + Addition(!EndsWithNewline(text), InnerLines(f, e))
  {
    EntryTextLines(f, e);
    hide InnerLines, FormatOk, Lines, Join, WithoutReturns, SplitAtNewlines, Gap, Separator, EntryStart, EntryEnd;
    LinesAfterGap(text, Join(EntryLines(f, e)) + [NEWLINE]);
  }

  // ---------------------------------------------------------------- a carriage return at the very end

  /** The last line of an accepted comment closes an entry only if it says so exactly. */
  lemma ReturnAtEnd(f: EntryFormat, init: seq<Text>, line: Text)
    requires ParseLines(f, init + [line + [RETURN]]).Some?
    ensures Balanced(init + [line]) && EntryBodies(init + [line]) == EntryBodies(init + [line + [RETURN]])
  {
    hide Stands, StandsTrimmed, WorkpadMark, EntryStart, EntryEnd, Blocks, Count, CountTrimmed, Reserved, ReadAll;
    var returned := line + [RETURN];
    ReturnKeepsCounts(init, line, WorkpadMark());
    ReturnKeepsCounts(init, line, EntryStart());
    ReturnKeepsCounts(init, line, EntryEnd());
    ReservedWithReturn(line);
    NoneReservedConcat(init, [line]);
    NoneReservedConcat(init, [returned]);
    assert [line][0] == line && [returned][0] == returned;
    BlocksLastLine(init, returned, EntryStart(), EntryEnd());
    ReturnClosesNothing(init, line);
    BlocksLastLine(init, line, EntryStart(), EntryEnd());
  }

  lemma ReturnKeepsCounts(init: seq<Text>, line: Text, m: Text)
    requires IsMark(m)
    ensures CountTrimmed(init + [line + [RETURN]], m) == CountTrimmed(init + [line], m)
    ensures CountTrimmed(init + [line], m) == CountTrimmed(init, m) + (if StandsTrimmed(line, m) then 1 else 0)
    ensures !Stands(line + [RETURN], m)
  {
    hide Stands, StandsTrimmed;
    TrimmedWithReturn(line, m);
    CountConcat(init, [line], m);
    CountConcat(init, [line + [RETURN]], m);
    CountOfOne(line, m);
    CountOfOne(line + [RETURN], m);
  }

  lemma ReturnClosesNothing(init: seq<Text>, line: Text)
    requires Balanced(init + [line + [RETURN]])
    ensures !Stands(line, EntryEnd())
  {
    hide Stands, StandsTrimmed, WorkpadMark, EntryStart, EntryEnd, Blocks, Count, CountTrimmed, NoneReserved;
    ReturnKeepsCounts(init, line, EntryEnd());
    BlocksLastLine(init, line + [RETURN], EntryStart(), EntryEnd());
    BlocksBound(init, EntryStart(), EntryEnd());
    CountAtMostTrimmed(init, EntryEnd());
    if Stands(line, EntryEnd()) {
      StandsIsTrimmed(line, EntryEnd());
    }
  }

  /** An accepted comment stays in order when more text follows its last line. */
  lemma AcceptedGoesOn(f: EntryFormat, text: Text)
    requires Parse(f, text).Some?
    ensures var lines := WithoutReturns(SplitAtNewlines(text));
            Balanced(lines) && ReadAll(f, EntryBodies(lines)) == Parse(f, text)
  {
    hide SplitAtNewlines, Balanced, EntryBodies, ReadAll, WithoutReturn;
    var all := SplitAtNewlines(text);
    var init, last := WithoutReturns(all[..|all| - 1]), all[|all| - 1];
    WithoutReturnsConcat(all[..|all| - 1], [last]);
    assert all == all[..|all| - 1] + [last];
    assert WithoutReturns(all) == init + [WithoutReturn(last)];
    ReturnOrNot(last);
    if WithoutReturn(last) != last {
      ReturnAtEnd(f, init, WithoutReturn(last));
    }
  }

  lemma ReturnOrNot(line: Text)
    ensures WithoutReturn(line) == line || line == WithoutReturn(line) + [RETURN]
  {
  }

  // ---------------------------------------------------------------- main results

  /**
   * Appending keeps every unit of the old text in place, and the parser then reads the old entries
   * and the new one. It refuses the result exactly when the new entry's JSON contains a reserved
   * marker.
   */
  lemma AppendThenParse(f: EntryFormat, text: Text, e: Entry)
    requires FormatOk(f) && Prints(f, e) && Parse(f, text).Some?
    ensures text <= AppendEntry(f, text, e)
    ensures Parse(f, AppendEntry(f, text, e)) == if JsonReserved(f, e) then None else Some(Parse(f, text).value + [e])
  {
    AppendsAtTheEnd(f, text, e);
    AcceptedGoesOn(f, text);
    AppendLines(f, text, e);
    hide FormatOk, ParseLines, JsonReserved, Addition, InnerLines, Balanced, ReadAll, EntryBodies, Lines, SplitAtNewlines,
         WithoutReturns, AppendEntry, EndsWithNewline;
    AdditionParses(f, WithoutReturns(SplitAtNewlines(text)), !EndsWithNewline(text), e);
  }

  lemma AppendsAtTheEnd(f: EntryFormat, text: Text, e: Entry)
    requires FormatOk(f) && Prints(f, e)
    ensures text <= AppendEntry(f, text, e)
  {
    hide EntryLines, FormatOk, Join;
  }

  /** A fresh comment is read back as its one entry, under the same condition. */
  lemma PrintThenParse(f: EntryFormat, e: Entry)
    requires FormatOk(f) && Prints(f, e)
    ensures Parse(f, PrintComment(f, e)) == if JsonReserved(f, e) then None else Some([e])
  {
    hide FormatOk, ParseLines, JsonReserved, Addition, InnerLines, Balanced, ReadAll, EntryBodies, Lines, PrintComment, WorkpadMark;
    MarkOnlyIsBalanced();
    NothingRead(f);
    PrintedLines(f, e);
    AdditionParses(f, [WorkpadMark()], false, e);
    assert [] + [e] == [e];
  }

  lemma NothingRead(f: EntryFormat)
    ensures ReadAll(f, []) == Some([])
  {
  }

  lemma MarkOnlyIsBalanced()
    ensures Balanced([WorkpadMark()]) && EntryBodies([WorkpadMark()]) == []
  {
    MarksAsLines();
    hide Stands, StandsTrimmed, CountTrimmed, NoneReserved, WorkpadMark, EntryStart, EntryEnd, Blocks;
    EntryMarkCounts(WorkpadMark(), WorkpadMark());
    EntryMarkCounts(WorkpadMark(), EntryStart());
    EntryMarkCounts(WorkpadMark(), EntryEnd());
    MarksDiffer(WorkpadMark(), EntryStart());
    if Stands(WorkpadMark(), EntryStart()) {
      StandsIsTrimmed(WorkpadMark(), EntryStart());
    }
    BlocksSkip([WorkpadMark()], [], EntryStart(), EntryEnd());
    NoBlocks(EntryStart(), EntryEnd());
    assert [WorkpadMark()] + [] == [WorkpadMark()];
  }

  lemma PrintedLines(f: EntryFormat, e: Entry)
    requires FormatOk(f) && Prints(f, e)
    ensures Lines(PrintComment(f, e)) == [WorkpadMark()] + Addition(false, InnerLines(f, e))
  {
    hide FormatOk, Lines, Join, InnerLines, WorkpadMark, EntryStart, EntryEnd, PrintComment;
    EntryTextLines(f, e);
    PrintedText(f, e);
    LinesAfterMark(Join(EntryLines(f, e)) + [NEWLINE]);
    assert Gap(false) == [];
  }

  lemma LinesAfterMark(rest: Text)
    ensures Lines(WorkpadMark() + [NEWLINE] + rest) == [WorkpadMark()] + Lines(rest)
  {
    hide Lines, WorkpadMark, SplitAtNewlines;
    LinesAfterNewline(WorkpadMark(), rest);
    MarkIsWholeLine(WorkpadMark());
    SplitLine(WorkpadMark());
  }

  lemma PrintedText(f: EntryFormat, e: Entry)
    requires FormatOk(f) && Prints(f, e)
    ensures PrintComment(f, e) == WorkpadMark() + [NEWLINE] + (Join(EntryLines(f, e)) + [NEWLINE])
  {
    hide FormatOk, EntryLines, WorkpadMark;
    var lines := EntryLines(f, e);
    JoinThenEnd(lines);
    assert ([WorkpadMark()] + lines + [[]])[1..] == lines + [[]];
  }

  lemma {:induction false} JoinThenEnd(lines: seq<Text>)
    requires |lines| > 0
    ensures Join(lines + [[]]) == Join(lines) + [NEWLINE]
  {
    if |lines| > 1 {
      JoinThenEnd(lines[1..]);
      assert (lines + [[]])[1..] == lines[1..] + [[]];
    } else {
      assert (lines + [[]])[1..] == [[]];
    }
  }

  /** A comment written by printing and appending. */
  ghost function PrintHistory(f: EntryFormat, entries: seq<Entry>): Text
    requires FormatOk(f) && |entries| > 0 && forall i :: 0 <= i < |entries| ==> Prints(f, entries[i])
  {
    if |entries| == 1 then PrintComment(f, entries[0])
    else AppendEntry(f, PrintHistory(f, entries[..|entries| - 1]), entries[|entries| - 1])
  }

  // ---------------------------------------------------------------- reserved markers in a history

  lemma ReservedBeforeReturns(text: Text)
    ensures NoneReserved(WithoutReturns(SplitAtNewlines(text))) <==> NoneReserved(Lines(text))
  {
    hide SplitAtNewlines, Reserved, WithoutReturn;
    var all := SplitAtNewlines(text);
    var init, last := WithoutReturns(all[..|all| - 1]), all[|all| - 1];
    WithoutReturnsConcat(all[..|all| - 1], [last]);
    assert all == all[..|all| - 1] + [last];
    assert WithoutReturns(all) == init + [WithoutReturn(last)];
    ReturnOrNot(last);
    ReservedWithReturn(WithoutReturn(last));
    NoneReservedConcat(init, [last]);
    NoneReservedConcat(init, [WithoutReturn(last)]);
    OneLineReserved(last);
    OneLineReserved(WithoutReturn(last));
  }

  lemma OneLineReserved(line: Text)
    ensures NoneReserved([line]) <==> !Reserved(line)
  {
    hide Reserved;
    assert [line][0] == line;
  }

  /** Reserved markers stay, and each entry adds those of its JSON. */
  lemma AppendReserved(f: EntryFormat, text: Text, e: Entry)
    requires FormatOk(f) && Prints(f, e)
    ensures NoneReserved(Lines(AppendEntry(f, text, e))) <==> NoneReserved(Lines(text)) && !JsonReserved(f, e)
  {
    hide FormatOk, NoneReserved, JsonReserved, Addition, InnerLines, Lines, SplitAtNewlines, WithoutReturns, AppendEntry, EndsWithNewline;
    AppendLines(f, text, e);
    ReservedIsJson(f, e);
    ReservedBeforeReturns(text);
    AdditionReserved(!EndsWithNewline(text), InnerLines(f, e));
    NoneReservedConcat(WithoutReturns(SplitAtNewlines(text)), Addition(!EndsWithNewline(text), InnerLines(f, e)));
  }

  lemma PrintReserved(f: EntryFormat, e: Entry)
    requires FormatOk(f) && Prints(f, e)
    ensures NoneReserved(Lines(PrintComment(f, e))) <==> !JsonReserved(f, e)
  {
    hide FormatOk, NoneReserved, JsonReserved, Addition, InnerLines, Lines, PrintComment, WorkpadMark;
    PrintedLines(f, e);
    ReservedIsJson(f, e);
    MarksAsLines();
    AdditionReserved(false, InnerLines(f, e));
    NoneReservedConcat([WorkpadMark()], Addition(false, InnerLines(f, e)));
  }

  lemma {:induction false} HistoryReserved(f: EntryFormat, entries: seq<Entry>)
    requires FormatOk(f) && |entries| > 0 && forall i :: 0 <= i < |entries| ==> Prints(f, entries[i])
    ensures NoneReserved(Lines(PrintHistory(f, entries))) <==> forall i :: 0 <= i < |entries| ==> !JsonReserved(f, entries[i])
  {
    hide FormatOk, NoneReserved, JsonReserved, Lines, AppendEntry, PrintComment;
    if |entries| == 1 {
      PrintReserved(f, entries[0]);
    } else {
      var init, last := entries[..|entries| - 1], entries[|entries| - 1];
      HistoryReserved(f, init);
      AppendReserved(f, PrintHistory(f, init), last);
      assert forall i :: 0 <= i < |init| ==> init[i] == entries[i];
    }
  }

  /**
   * The whole history of a comment is read back in order, exactly if no entry's JSON contains a
   * reserved marker.
   */
  lemma HistoryParses(f: EntryFormat, entries: seq<Entry>)
    requires FormatOk(f) && |entries| > 0 && forall i :: 0 <= i < |entries| ==> Prints(f, entries[i])
    ensures (forall i :: 0 <= i < |entries| ==> !JsonReserved(f, entries[i])) ==> Parse(f, PrintHistory(f, entries)) == Some(entries)
    ensures (exists i :: 0 <= i < |entries| && JsonReserved(f, entries[i])) ==> Parse(f, PrintHistory(f, entries)) == None
  {
    hide FormatOk, NoneReserved, JsonReserved, Lines, PrintHistory, CountTrimmed, EntryBodies, ReadAll;
    if i :| 0 <= i < |entries| && JsonReserved(f, entries[i]) {
      HistoryReserved(f, entries);
    } else {
      CleanHistoryParses(f, entries);
    }
  }

  lemma {:induction false} CleanHistoryParses(f: EntryFormat, entries: seq<Entry>)
    requires FormatOk(f) && |entries| > 0
    requires forall i :: 0 <= i < |entries| ==> Prints(f, entries[i]) && !JsonReserved(f, entries[i])
    ensures Parse(f, PrintHistory(f, entries)) == Some(entries)
  {
    hide FormatOk, Parse, JsonReserved, AppendEntry, PrintComment;
    if |entries| == 1 {
      PrintThenParse(f, entries[0]);
      assert entries == [entries[0]];
    } else {
      var init, last := entries[..|entries| - 1], entries[|entries| - 1];
      CleanHistoryParses(f, init);
      AppendThenParse(f, PrintHistory(f, init), last);
      assert entries == init + [last];
    }
  }
}
