/** The marker lines of workpad comments and which lines can be mistaken for them. */
module WorkpadMarks {
  import opened CanonicalJson
  import opened JsonText
  import opened PrettyJson
  import opened WorkpadView
  import opened WorkpadLines

  function Units(s: string): (t: Text)
    requires forall i :: 0 <= i < |s| ==> s[i] < 0x80 as char
    ensures |t| == |s| && forall i :: 0 <= i < |s| ==> t[i] == s[i] as int
  {
    seq(|s|, i requires 0 <= i < |s| => s[i] as int)
  }

  /** Printable ASCII that JSON neither escapes nor uses around strings. */
  predicate IsVerbatim(t: Text) {
    forall k :: 0 <= k < |t| ==> 0x20 <= t[k] < 0x7F && t[k] != QUOTE && t[k] != BACKSLASH && t[k] != COMMA
  }

  /** `<!--`, and no other tag. */
  ghost predicate IsComment(m: Text) {
    |m| > 5 && m[0] == LESS && m[1] == BANG && IsVerbatim(m) && forall k :: 0 < k < |m| ==> m[k] != LESS
  }

  /** Words without tags or line ends. */
  predicate IsWords(t: Text) {
    LESS !in t && IsVerbatim(t)
  }

  /** What every marker but one opens with: `<!-- failure-report`. */
  function Opening(): (t: Text)
    ensures |t| == 19 && IsVerbatim(t) && t[0] == LESS && t[1] == BANG && t[5] == 0x66 && LESS !in t[1..]
  {
    Units("<!-- failure-report")
  }

  function EndOpening(): (t: Text)
    ensures |t| == 14 && IsVerbatim(t) && t[0] == LESS && t[1] == BANG && t[5] == 0x2F && LESS !in t[1..]
  {
    Units("<!-- /failure-")
  }

  function WorkpadMark(): (m: Text)
    ensures |m| == 31 && IsMark(m) && IsComment(m) && m[5] == 0x66 && m[19] == 0x2D
  {
    var t := Units("-workpad -->");
    assert IsWords(t);
    Opening() + t
  }

  function EntryStart(): (m: Text)
    ensures |m| == 40 && IsMark(m) && IsComment(m) && m[5] == 0x66 && m[19] == 0x2D && m[28] == 0x65
  {
    var t := Units("-workpad-entry/v2 -->");
    assert IsWords(t);
    Opening() + t
  }

  function EntryEnd(): (m: Text)
    ensures |m| == 38 && IsMark(m) && IsComment(m) && m[5] == 0x2F
  {
    var t := Units("report-workpad-entry -->");
    assert IsWords(t);
    EndOpening() + t
  }

  function ManifestStart(): (m: Text)
    ensures |m| == 43 && IsComment(m)
  {
    var t := Units("-workpad-manifest/v1 -->");
    assert IsWords(t);
    Opening() + t
  }

  function ChunkMark(): (m: Text)
    ensures |m| == 40 && IsComment(m) && m[28] == 0x63
  {
    var t := Units("-workpad-chunk/v1 -->");
    assert IsWords(t);
    Opening() + t
  }

  function LegacyMark(): (m: Text)
    ensures |m| == 23 && IsComment(m) && m[5] == 0x66 && m[19] == 0x2F
  {
    var t := Units("/v1 ");
    assert IsWords(t);
    Opening() + t
  }

  function FenceOpen(): (m: Text)
    ensures |m| == 7 && IsMark(m) && m[0] == TILDE && LESS !in m
  {
    Units("~~~json")
  }

  function FenceClose(): (m: Text)
    ensures |m| == 3 && IsMark(m) && m[0] == TILDE && LESS !in m
  {
    Units("~~~")
  }

  // ---------------------------------------------------------------- lines that are no marker

  ghost predicate Contains(text: Text, m: Text) {
    exists i :: OccursAt(text, m, i)
  }

  /** A line in which the parser finds another transport's or the first version's marker. */
  ghost predicate Reserved(line: Text) {
    Contains(line, ManifestStart()) || Contains(line, ChunkMark()) || Contains(line, LegacyMark())
  }

  /** None of the markers of an entry comment. */
  ghost predicate Calm(line: Text) {
    !StandsTrimmed(line, WorkpadMark()) && !StandsTrimmed(line, EntryStart()) && !StandsTrimmed(line, EntryEnd())
  }

  lemma HarmlessHasNoComment(line: Text, m: Text)
    requires Harmless(line) && IsComment(m)
    ensures !Contains(line, m) && !StandsTrimmed(line, m)
  {
    forall i | OccursAt(line, m, i)
      ensures false
    {
      CommentInside(line, m, i);
    }
  }

  /** Where a comment occurs there is a `<!`. */
  lemma CommentInside(line: Text, m: Text, i: int)
    requires IsComment(m) && OccursAt(line, m, i)
    ensures 0 <= i && i + 1 < |line| && line[i] == LESS && line[i + 1] == BANG
  {
    assert line[i..i + |m|][0] == line[i] && line[i..i + |m|][1] == line[i + 1];
  }

  lemma HarmlessIsCalm(line: Text)
    requires Harmless(line)
    ensures Calm(line) && !Reserved(line)
  {
    hide Harmless, IsComment, StandsTrimmed, Contains;
    hide WorkpadMark, EntryStart, EntryEnd, ManifestStart, ChunkMark, LegacyMark;
    HarmlessHasNoComment(line, WorkpadMark());
    HarmlessHasNoComment(line, EntryStart());
    HarmlessHasNoComment(line, EntryEnd());
    HarmlessHasNoComment(line, ManifestStart());
    HarmlessHasNoComment(line, ChunkMark());
    HarmlessHasNoComment(line, LegacyMark());
  }

  /** A fence is the first visible thing on its line. */
  lemma HarmlessIsNoFence(line: Text, m: Text)
    requires Harmless(line) && |m| > 0 && m[0] == TILDE
    ensures !Stands(line, m)
  {
    forall i | OccursAt(line, m, i)
      ensures exists k :: 0 <= k < i && !IsBlank(line[k])
    {
      assert line[i..i + |m|][0] == line[i];
    }
  }

  /** JSON lines start with a JSON value, not with a comment or a fence. */
  lemma JsonLineIsNoMark(line: Text, m: Text)
    requires IsJsonLine(line) && |m| > 0 && (m[0] == LESS || m[0] == TILDE)
    ensures !StandsTrimmed(line, m) && !Stands(line, m)
  {
    var p :| 0 <= p < |line| && (forall k :: 0 <= k < p ==> line[k] == SPACE) && IsJsonStart(line[p]);
    forall i | OccursAt(line, m, i)
      ensures 0 <= p < i && !IsSpace(line[p])
    {
      assert line[i..i + |m|][0] == line[i];
    }
    if Stands(line, m) {
      StandsIsTrimmed(line, m);
    }
  }

  lemma JsonLineIsCalm(line: Text)
    requires IsJsonLine(line)
    ensures Calm(line)
  {
    hide IsJsonLine, StandsTrimmed, WorkpadMark, EntryStart, EntryEnd;
    JsonLineIsNoMark(line, WorkpadMark());
    JsonLineIsNoMark(line, EntryStart());
    JsonLineIsNoMark(line, EntryEnd());
  }

  /** No tag, no marker. */
  lemma WordsAreCalm(line: Text)
    requires LESS !in line
    ensures Calm(line) && !Reserved(line)
  {
    hide WorkpadMark, EntryStart, EntryEnd, ManifestStart, ChunkMark, LegacyMark;
    forall m: Text, i | IsComment(m) && OccursAt(line, m, i)
      ensures false
    {
      CommentInside(line, m, i);
    }
    assert forall m: Text :: IsComment(m) ==> !Contains(line, m) && !StandsTrimmed(line, m);
  }

  /** Marks that differ in length are not each other's marker lines. */
  lemma MarksDiffer(line: Text, m: Text)
    requires IsMark(line) && IsMark(m) && |line| != |m|
    ensures !StandsTrimmed(line, m)
  {
    forall i | OccursAt(line, m, i)
      ensures !IsSpace(line[0]) && !IsSpace(line[|line| - 1]) && (0 < i || i + |m| < |line|)
    {
    }
  }

  /** A comment occurs in another only at its start. */
  lemma CommentInComment(line: Text, m: Text, k: nat)
    requires IsComment(line) && IsComment(m) && k < |m| && (k < |line| ==> line[k] != m[k])
    ensures !Contains(line, m)
  {
    forall i | OccursAt(line, m, i)
      ensures false
    {
      CommentsAgree(line, m, i, k);
    }
  }

  lemma CommentsAgree(line: Text, m: Text, i: int, k: nat)
    requires IsComment(line) && IsComment(m) && OccursAt(line, m, i) && k < |m|
    ensures k < |line| && line[k] == m[k]
  {
    CommentInside(line, m, i);
    assert i == 0;
    assert line[0..|m|][k] == line[k];
  }

  lemma EntryMarksAreNotReserved()
    ensures !Reserved(WorkpadMark()) && !Reserved(EntryStart()) && !Reserved(EntryEnd())
  {
    hide IsComment, Contains, WorkpadMark, EntryStart, EntryEnd, ManifestStart, ChunkMark, LegacyMark;
    CommentInComment(WorkpadMark(), ManifestStart(), 42);
    CommentInComment(EntryStart(), ManifestStart(), 42);
    CommentInComment(EntryEnd(), ManifestStart(), 42);
    CommentInComment(WorkpadMark(), ChunkMark(), 39);
    CommentInComment(EntryStart(), ChunkMark(), 28);
    CommentInComment(EntryEnd(), ChunkMark(), 39);
    CommentInComment(WorkpadMark(), LegacyMark(), 19);
    CommentInComment(EntryStart(), LegacyMark(), 19);
    CommentInComment(EntryEnd(), LegacyMark(), 5);
  }

  /** A carriage return at the end of a line does not change what the line contains. */
  lemma ReservedWithReturn(line: Text)
    ensures Reserved(line + [RETURN]) <==> Reserved(line)
  {
    hide Contains, WorkpadMark, EntryStart, EntryEnd, ManifestStart, ChunkMark, LegacyMark;
    ContainsWithReturn(line, ManifestStart());
    ContainsWithReturn(line, ChunkMark());
    ContainsWithReturn(line, LegacyMark());
  }

  lemma ContainsWithReturn(line: Text, m: Text)
    requires IsComment(m)
    ensures Contains(line + [RETURN], m) <==> Contains(line, m)
  {
    var r := line + [RETURN];
    forall i | OccursAt(r, m, i)
      ensures OccursAt(line, m, i)
    {
      assert r[i..i + |m|][|m| - 1] == r[i + |m| - 1];
    }
    forall i | OccursAt(line, m, i)
      ensures OccursAt(r, m, i)
    {
    }
  }
}
