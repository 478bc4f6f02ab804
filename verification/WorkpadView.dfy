/**
 * The human part of a workpad entry. Whatever the authors of a report wrote, none of its lines
 * can open an HTML comment or a fence.
 */
module WorkpadView {
  import opened CanonicalJson
  import opened PrettyJson

  const LESS: Unit := 0x3C
  const BANG: Unit := 0x21
  const TILDE: Unit := 0x7E
  const TICK: Unit := 0x60

  /** A stretch of an item: fixed words and links, or report text in one of the two escapes. */
  datatype Piece = Fixed(text: Text) | Plain(value: Text) | Code(value: Text)

  datatype Block = Heading(line: Text) | Item(pieces: seq<Piece>) | Paragraph(value: Text)

  // ---------------------------------------------------------------- rendering

  function PlainUnit(u: Unit): Text {
    if u == 0x26 then [0x26, 0x61, 0x6D, 0x70, 0x3B]
    else if u == 0x5C then [0x26, 0x5C, 0x23, 0x39, 0x32, 0x3B]
    else if u == LESS then [0x26, 0x6C, 0x74, 0x3B]
    else if u == 0x3E then [0x26, 0x67, 0x74, 0x3B]
    else if u == 0x40 then [0x40, 0x200B]
    else if IsMarkdown(u) then [0x5C, u]
    else [u]
  }

  /** The units of `` `*_{}[]()#+.!|~=- ``. */
  predicate IsMarkdown(u: Unit) {
    u == TICK || u == 0x2A || u == 0x5F || u == 0x7B || u == 0x7D || u == 0x5B || u == 0x5D || u == 0x28 || u == 0x29
    || u == 0x23 || u == 0x2B || u == 0x2E || u == BANG || u == 0x7C || u == TILDE || u == 0x3D || u == 0x2D
  }

  function PlainLines(value: Text): (lines: seq<Text>)
    ensures |lines| > 0
    decreases |value|
  {
    if |value| == 0 then [[]]
    else if value[0] == RETURN && |value| > 1 && value[1] == NEWLINE then [LineBreak()] + PlainLines(value[2..])
    else if value[0] == RETURN || value[0] == NEWLINE then [LineBreak()] + PlainLines(value[1..])
    else Inline([PlainUnit(value[0])], PlainLines(value[1..]))
  }

  /** `<br>` */
  function LineBreak(): Text {
    [LESS, 0x62, 0x72, 0x3E]
  }

  function CodeUnit(u: Unit): Text {
    if u == 0x26 then [0x26, 0x61, 0x6D, 0x70, 0x3B]
    else if u == TICK then [0x26, 0x23, 0x39, 0x36, 0x3B]
    else if u == LESS then [0x26, 0x6C, 0x74, 0x3B]
    else if u == 0x3E then [0x26, 0x67, 0x74, 0x3B]
    else if u == 0x40 then [0x40, 0x200B]
    else if u == NEWLINE then [SPACE]
    else [u]
  }

  function CodeText(value: Text): Text
    decreases |value|
  {
    if |value| == 0 then []
    else if value[0] == RETURN && |value| > 1 && value[1] == NEWLINE then CodeText(value[1..])
    else CodeUnit(value[0]) + CodeText(value[1..])
  }

  /** Joins the last line of `a` with the first of `b`. */
  function Inline(a: seq<Text>, b: seq<Text>): (r: seq<Text>)
    requires |a| > 0 && |b| > 0
    ensures |r| == |a| + |b| - 1
  {
    a[..|a| - 1] + [a[|a| - 1] + b[0]] + b[1..]
  }

  function PieceLines(p: Piece): (lines: seq<Text>)
    ensures |lines| > 0
  {
    match p
    case Fixed(text) => [text]
    case Plain(value) => PlainLines(value)
    case Code(value) => [[TICK] + CodeText(value) + [TICK]]
  }

  function PiecesLines(pieces: seq<Piece>): (lines: seq<Text>)
    ensures |lines| > 0
  {
    if |pieces| == 0 then [[]] else Inline(PieceLines(pieces[0]), PiecesLines(pieces[1..]))
  }

  /** `"- " + indentContinuation(item)` */
  function Indented(lines: seq<Text>): (r: seq<Text>)
    ensures |r| == |lines|
  {
    seq(|lines|, i requires 0 <= i < |lines| => (if i == 0 then [0x2D, SPACE] else [SPACE, SPACE]) + lines[i])
  }

  function BlockLines(b: Block): seq<Text> {
    match b
    case Heading(line) => [line]
    case Item(pieces) => Indented(PiecesLines(pieces))
    case Paragraph(value) => PlainLines(value)
  }

  function ViewLines(blocks: seq<Block>): seq<Text> {
    if |blocks| == 0 then [] else BlockLines(blocks[0]) + ViewLines(blocks[1..])
  }

  // ---------------------------------------------------------------- harmless lines

  predicate IsBlank(u: Unit) {
    u == SPACE || u == 0x09
  }

  /** One line in which no `<!` occurs and no `~` comes before every visible unit. */
  ghost predicate Harmless(line: Text) {
    && NEWLINE !in line && (|line| > 0 ==> line[|line| - 1] != RETURN)
    && (forall k :: 0 <= k < |line| && line[k] == LESS ==> k + 1 < |line| && line[k + 1] != BANG)
    && forall k :: 0 <= k < |line| && line[k] == TILDE ==> exists m :: 0 <= m < k && !IsBlank(line[m])
  }

  ghost predicate AllHarmless(lines: seq<Text>) {
    forall i :: 0 <= i < |lines| ==> Harmless(lines[i])
  }

  /** Fixed words, links and headings are harmless to begin with. */
  ghost predicate FixedPartsHarmless(blocks: seq<Block>) {
    && (forall b :: b in blocks && b.Heading? ==> Harmless(b.line))
    && forall b :: b in blocks && b.Item? ==> FixedPiecesHarmless(b.pieces)
  }

  ghost predicate FixedPiecesHarmless(pieces: seq<Piece>) {
    forall p :: p in pieces && p.Fixed? ==> Harmless(p.text)
  }

  lemma HarmlessConcat(a: Text, b: Text)
    requires Harmless(a) && Harmless(b)
    ensures Harmless(a + b)
  {
    var r := a + b;
    forall k | 0 <= k < |r| && r[k] == TILDE
      ensures exists m :: 0 <= m < k && !IsBlank(r[m])
    {
      if k < |a| {
        var m :| 0 <= m < k && !IsBlank(a[m]);
        assert r[m] == a[m];
      } else {
        var m :| 0 <= m < k - |a| && !IsBlank(b[m]);
        assert r[|a| + m] == b[m];
      }
    }
  }

  lemma HarmlessInline(a: seq<Text>, b: seq<Text>)
    requires |a| > 0 && |b| > 0 && AllHarmless(a) && AllHarmless(b)
    ensures AllHarmless(Inline(a, b))
  {
    hide Harmless;
    HarmlessConcat(a[|a| - 1], b[0]);
    forall i | 0 <= i < |Inline(a, b)|
      ensures Harmless(Inline(a, b)[i])
    {
    }
  }

  lemma PlainUnitIsHarmless(u: Unit)
    requires u != NEWLINE && u != RETURN
    ensures Harmless(PlainUnit(u))
  {
    var r := PlainUnit(u);
    assert u == TILDE ==> !IsBlank(r[0]) && r[1] == TILDE;
    assert forall k :: 0 <= k < |r| && r[k] == TILDE ==> k == 1 && u == TILDE;
  }

  lemma {:induction false} PlainIsHarmless(value: Text)
    ensures AllHarmless(PlainLines(value))
    decreases |value|
  {
    hide Harmless, Inline, PlainUnit;
    BreakIsHarmless();
    if |value| == 0 {
    } else if value[0] == RETURN && |value| > 1 && value[1] == NEWLINE {
      PlainIsHarmless(value[2..]);
    } else if value[0] == RETURN || value[0] == NEWLINE {
      PlainIsHarmless(value[1..]);
    } else {
      PlainUnitIsHarmless(value[0]);
      PlainIsHarmless(value[1..]);
      HarmlessInline([PlainUnit(value[0])], PlainLines(value[1..]));
    }
  }

  lemma BreakIsHarmless()
    ensures Harmless(LineBreak()) && Harmless([])
  {
  }

  lemma {:induction false} CodeHasNoTag(value: Text)
    ensures NEWLINE !in CodeText(value) && LESS !in CodeText(value)
    decreases |value|
  {
    if |value| > 0 {
      CodeHasNoTag(value[1..]);
    }
  }

  lemma CodeIsHarmless(value: Text)
    ensures Harmless([TICK] + CodeText(value) + [TICK])
  {
    CodeHasNoTag(value);
    hide CodeText;
    var r := [TICK] + CodeText(value) + [TICK];
    assert !IsBlank(r[0]) && r[0] != TILDE;
  }

  lemma {:induction false} PiecesAreHarmless(pieces: seq<Piece>)
    requires FixedPiecesHarmless(pieces)
    ensures AllHarmless(PiecesLines(pieces))
  {
    hide Harmless, Inline, PlainLines, CodeText;
    BreakIsHarmless();
    if |pieces| > 0 {
      match pieces[0] {
        case Fixed(text) => assert Harmless(text) by { assert pieces[0] in pieces; }
        case Plain(value) => PlainIsHarmless(value);
        case Code(value) => CodeIsHarmless(value);
      }
      PiecesAreHarmless(pieces[1..]);
      HarmlessInline(PieceLines(pieces[0]), PiecesLines(pieces[1..]));
    }
  }

  lemma IndentedIsHarmless(lines: seq<Text>)
    requires AllHarmless(lines)
    ensures AllHarmless(Indented(lines))
  {
    assert Harmless([0x2D, SPACE]) && Harmless([SPACE, SPACE]);
    hide Harmless;
    forall i | 0 <= i < |lines|
      ensures Harmless(Indented(lines)[i])
    {
      HarmlessConcat(if i == 0 then [0x2D, SPACE] else [SPACE, SPACE], lines[i]);
    }
  }

  /** No report text can put a comment marker or a fence into the human view. */
  lemma {:induction false} ViewIsHarmless(blocks: seq<Block>)
    requires FixedPartsHarmless(blocks)
    ensures AllHarmless(ViewLines(blocks))
  {
    hide Harmless, PlainLines, PiecesLines, Indented, FixedPiecesHarmless;
    if |blocks| > 0 {
      match blocks[0] {
        case Heading(line) =>
        case Item(pieces) =>
          PiecesAreHarmless(pieces);
          IndentedIsHarmless(PiecesLines(pieces));
        case Paragraph(value) => PlainIsHarmless(value);
      }
      ViewIsHarmless(blocks[1..]);
    }
  }
}
