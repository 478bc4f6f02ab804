/**
 * The two escapes of report text lose nothing a reader could miss: two values are shown alike exactly
 * if they differ in the kind of their line breaks only.
 */
module WorkpadEscapes {
  import opened CanonicalJson
  import opened PrettyJson
  import opened WorkpadView

  // ---------------------------------------------------------------- what is not shown

  /** The value starts with a line break of some kind. */
  predicate AtBreak(value: Text) {
    |value| > 0 && (value[0] == RETURN || value[0] == NEWLINE)
  }

  /** What follows the first unit; `\r\n` counts as one. */
  function Following(value: Text): (rest: Text)
    requires |value| > 0
    ensures |rest| < |value|
  {
    if value[0] == RETURN && |value| > 1 && value[1] == NEWLINE then value[2..] else value[1..]
  }

  /** The value with every kind of line break written as `\n`. */
  function WithPlainBreaks(value: Text): Text
    decreases |value|
  {
    if |value| == 0 then []
    else [if AtBreak(value) then NEWLINE else value[0]] + WithPlainBreaks(Following(value))
  }

  /** The value with `\n` and `\r\n` written as a space. */
  function WithSpaces(value: Text): Text
    decreases |value|
  {
    if |value| == 0 then []
    else if value[0] == NEWLINE || (value[0] == RETURN && |value| > 1 && value[1] == NEWLINE)
    then [SPACE] + WithSpaces(Following(value))
    else [value[0]] + WithSpaces(value[1..])
  }

  // ---------------------------------------------------------------- plain text

  /** The escapes of single units are told apart by reading from the left. */
  lemma PlainUnitIsReadable(u: Unit, v: Unit, s: Text, t: Text)
    requires PlainUnit(u) + s == PlainUnit(v) + t
    ensures u == v && s == t
  {
    var a, b := PlainUnit(u), PlainUnit(v);
    assert (a + s)[0] == a[0] && (b + t)[0] == b[0];
    assert |a| > 1 ==> (a + s)[1] == a[1];
    assert |b| > 1 ==> (b + t)[1] == b[1];
    assert a == b;
    assert s == (a + s)[|a|..] && t == (b + t)[|b|..];
  }

  lemma PlainUnfolds(value: Text)
    requires |value| > 0
    ensures PlainLines(value) == if AtBreak(value) then [LineBreak()] + PlainLines(Following(value))
                                 else Inline([PlainUnit(value[0])], PlainLines(Following(value)))
  {
  }

  /** Where the first line comes from. */
  lemma PlainStart(value: Text)
    requires |value| > 0
    ensures |PlainLines(value)[0]| > 0 && (AtBreak(value) <==> PlainLines(value)[0][0] == LESS)
    ensures !AtBreak(value) ==> PlainLines(value)[0] == PlainUnit(value[0]) + PlainLines(Following(value))[0]
    ensures !AtBreak(value) ==> PlainLines(value)[1..] == PlainLines(Following(value))[1..]
  {
    PlainUnfolds(value);
    hide PlainLines;
  }

  /** Plain text shows everything but the kind of a line break. */
  lemma {:induction false} PlainShowsText(a: Text, b: Text)
    ensures PlainLines(a) == PlainLines(b) <==> WithPlainBreaks(a) == WithPlainBreaks(b)
    decreases |a|
  {
    if |a| == 0 || |b| == 0 {
      PlainEmpty(a, b);
    } else {
      PlainShowsText(Following(a), Following(b));
      BreaksUnfold(a, b);
      if PlainLines(a) == PlainLines(b) {
        PlainSameStart(a, b);
      } else if AtBreak(a) == AtBreak(b) {
        PlainUnfolds(a);
        PlainUnfolds(b);
        hide PlainLines, PlainUnit, Inline;
      }
    }
  }

  lemma PlainEmpty(a: Text, b: Text)
    requires |a| == 0 || |b| == 0
    ensures PlainLines(a) == PlainLines(b) <==> |a| == |b|
    ensures WithPlainBreaks(a) == WithPlainBreaks(b) <==> |a| == |b|
  {
    if |a| > 0 {
      PlainStart(a);
    }
    if |b| > 0 {
      PlainStart(b);
    }
  }

  lemma BreaksUnfold(a: Text, b: Text)
    requires |a| > 0 && |b| > 0
    ensures WithPlainBreaks(a) == WithPlainBreaks(b)
            <==> WithPlainBreaks(Following(a)) == WithPlainBreaks(Following(b))
                 && (AtBreak(a) <==> AtBreak(b)) && (!AtBreak(a) ==> a[0] == b[0])
  {
    var s, t := WithPlainBreaks(a), WithPlainBreaks(b);
    assert s[1..] == WithPlainBreaks(Following(a)) && t[1..] == WithPlainBreaks(Following(b));
    assert s == [s[0]] + s[1..] && t == [t[0]] + t[1..];
  }

  lemma PlainSameStart(a: Text, b: Text)
    requires |a| > 0 && |b| > 0 && PlainLines(a) == PlainLines(b)
    ensures (AtBreak(a) <==> AtBreak(b)) && (!AtBreak(a) ==> a[0] == b[0])
    ensures PlainLines(Following(a)) == PlainLines(Following(b))
  {
    PlainStart(a);
    PlainStart(b);
    var s, t := PlainLines(Following(a)), PlainLines(Following(b));
    if AtBreak(a) {
      PlainUnfolds(a);
      PlainUnfolds(b);
      hide PlainLines;
      assert s == ([LineBreak()] + s)[1..] && t == ([LineBreak()] + t)[1..];
    } else {
      hide PlainLines, PlainUnit;
      PlainUnitIsReadable(a[0], b[0], s[0], t[0]);
      assert s == [s[0]] + s[1..] && t == [t[0]] + t[1..];
    }
  }

  // ---------------------------------------------------------------- code spans

  /** A unit of a code span, after line breaks became spaces. */
  lemma CodeUnitIsReadable(u: Unit, v: Unit, s: Text, t: Text)
    requires u != NEWLINE && v != NEWLINE && CodeUnit(u) + s == CodeUnit(v) + t
    ensures u == v && s == t
  {
    var a, b := CodeUnit(u), CodeUnit(v);
    assert (a + s)[0] == a[0] && (b + t)[0] == b[0];
    assert |a| > 1 ==> (a + s)[1] == a[1];
    assert |b| > 1 ==> (b + t)[1] == b[1];
    assert a == b;
    assert s == (a + s)[|a|..] && t == (b + t)[|b|..];
  }

  /** The first unit of the text after line breaks became spaces, and the value behind it. */
  lemma CodeUnfolds(value: Text) returns (u: Unit, rest: Text)
    requires |value| > 0
    ensures |rest| < |value| && u != NEWLINE
    ensures CodeText(value) == CodeUnit(u) + CodeText(rest) && WithSpaces(value) == [u] + WithSpaces(rest)
  {
    if value[0] == RETURN && |value| > 1 && value[1] == NEWLINE {
      u, rest := SPACE, value[2..];
      assert value[1..][1..] == value[2..];
      assert CodeText(value[1..]) == CodeUnit(NEWLINE) + CodeText(value[2..]);
    } else {
      u, rest := if value[0] == NEWLINE then SPACE else value[0], value[1..];
    }
  }

  /** A code span shows everything but the difference between a line break and a space. */
  lemma {:induction false} CodeShowsText(a: Text, b: Text)
    ensures CodeText(a) == CodeText(b) <==> WithSpaces(a) == WithSpaces(b)
    decreases |a|
  {
    if |a| > 0 && |b| > 0 {
      var u, s := CodeUnfolds(a);
      var v, t := CodeUnfolds(b);
      CodeShowsText(s, t);
      if CodeText(a) == CodeText(b) {
        CodeUnitIsReadable(u, v, CodeText(s), CodeText(t));
      }
      if WithSpaces(a) == WithSpaces(b) {
        assert WithSpaces(s) == WithSpaces(a)[1..] && WithSpaces(t) == WithSpaces(b)[1..];
        assert u == WithSpaces(a)[0] && v == WithSpaces(b)[0];
      }
    } else {
      CodeEmpty(a);
      CodeEmpty(b);
    }
  }

  lemma {:induction false} CodeEmpty(value: Text)
    ensures (CodeText(value) == [] <==> |value| == 0) && (WithSpaces(value) == [] <==> |value| == 0)
  {
    if |value| > 0 {
      var u, rest := CodeUnfolds(value);
      hide CodeText, WithSpaces;
      assert |CodeUnit(u)| > 0;
    }
  }
}
