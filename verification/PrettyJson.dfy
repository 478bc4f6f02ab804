/** `JSON.stringify(value, null, 2)` line by line: no line of it can pass for a marker or a fence. */
module PrettyJson {
  import opened Common
  import opened CanonicalJson
  import opened JsonText

  const SPACE: Unit := 0x20
  const NEWLINE: Unit := 0x0A
  const RETURN: Unit := 0x0D

  function Pad(depth: nat): Text {
    seq(2 * depth, _ => SPACE)
  }

  /** A value as lines; the caller indents the first one. */
  ghost function Pretty(v: Json, depth: nat): (lines: seq<Text>)
    requires Printable(v)
    ensures |lines| > 0
    decreases v, 0
  {
    match v
    case Arr(items) => if |items| == 0 then [[0x5B, CLOSE_ARRAY]] else [[0x5B as Unit]] + PrettyItems(v, items, depth)
    case Obj(fields) => if |fields| == 0 then [[0x7B, CLOSE_OBJECT]] else [[0x7B as Unit]] + PrettyFields(v, fields, depth)
    case _ => [Render(v)]
  }

  /** Lines with a prefix before the first and a suffix after the last. */
  function Framed(prefix: Text, lines: seq<Text>, suffix: Text): (r: seq<Text>)
    requires |lines| > 0
    ensures |r| == |lines|
  {
    var led := [prefix + lines[0]] + lines[1..];
    led[|led| - 1 := led[|led| - 1] + suffix]
  }

  ghost function PrettyItems(whole: Json, items: seq<Json>, depth: nat): (lines: seq<Text>)
    requires forall i :: 0 <= i < |items| ==> items[i] < whole && Printable(items[i])
    ensures |lines| > 0
    decreases whole, 0, |items|
  {
    if |items| == 0 then [Pad(depth) + [CLOSE_ARRAY]]
    else
      Framed(Pad(depth + 1), Pretty(items[0], depth + 1), if |items| == 1 then [] else [COMMA])
      + PrettyItems(whole, items[1..], depth)
  }

  ghost function PrettyFields(whole: Json, fields: seq<Field>, depth: nat): (lines: seq<Text>)
    requires forall i :: 0 <= i < |fields| ==> fields[i].value.Some? && fields[i].value.value < whole && Printable(fields[i].value.value)
    ensures |lines| > 0
    decreases whole, 0, |fields|
  {
    if |fields| == 0 then [Pad(depth) + [CLOSE_OBJECT]]
    else
      Framed(Pad(depth + 1) + Quoted(fields[0].key) + [COLON, SPACE], Pretty(fields[0].value.value, depth + 1),
             if |fields| == 1 then [] else [COMMA])
      + PrettyFields(whole, fields[1..], depth)
  }

  // ---------------------------------------------------------------- what its lines look like

  predicate OneLine(line: Text) {
    NEWLINE !in line && RETURN !in line
  }

  /** One line whose first unit after spaces opens or closes a JSON value. */
  predicate IsJsonLine(line: Text) {
    && OneLine(line)
    && exists i :: 0 <= i < |line| && (forall k :: 0 <= k < i ==> line[k] == SPACE) && IsJsonStart(line[i])
  }

  predicate IsJsonStart(u: Unit) {
    u == QUOTE || u == 0x5B || u == CLOSE_ARRAY || u == 0x7B || u == CLOSE_OBJECT || u == 0x2D || 0x30 <= u <= 0x39
    || u == 0x6E || u == 0x74 || u == 0x66
  }

  ghost predicate AllJsonLines(lines: seq<Text>) {
    forall i :: 0 <= i < |lines| ==> IsJsonLine(lines[i])
  }

  lemma EscapedUnitIsOneLine(u: Unit)
    ensures OneLine(EscapeUnit(u))
  {
  }

  lemma {:induction false} EscapedIsOneLine(s: Text)
    ensures OneLine(Escape(s))
    decreases |s|
  {
    hide EscapeUnit;
    if |s| >= 2 && IsLead(s[0]) && IsTrail(s[1]) {
      EscapedIsOneLine(s[2..]);
    } else if |s| > 0 {
      EscapedIsOneLine(s[1..]);
      EscapedUnitIsOneLine(s[0]);
    }
  }

  lemma QuotedIsOneLine(s: Text)
    ensures OneLine(Quoted(s)) && |Quoted(s)| > 0 && Quoted(s)[0] == QUOTE
  {
    EscapedIsOneLine(s);
    hide Escape;
  }

  /** Scalars are one JSON line. */
  lemma ScalarIsJsonLine(v: Json)
    requires Printable(v) && !v.Arr? && !v.Obj?
    ensures IsJsonLine(Render(v))
  {
    if v.Str? {
      QuotedIsOneLine(v.s);
    }
    hide Quoted;
    assert IsJsonStart(Render(v)[0]);
  }

  /** Padding before and a comma after keep a JSON line one. */
  lemma FramedLine(prefix: Text, line: Text, suffix: Text)
    requires IsJsonLine(line) && OneLine(prefix) && OneLine(suffix)
    requires (forall k :: 0 <= k < |prefix| ==> prefix[k] == SPACE) || IsJsonLine(prefix)
    ensures IsJsonLine(prefix + line + suffix)
  {
    var r := prefix + line + suffix;
    if IsJsonLine(prefix) {
      var i :| 0 <= i < |prefix| && (forall k :: 0 <= k < i ==> prefix[k] == SPACE) && IsJsonStart(prefix[i]);
      assert r[i] == prefix[i] && forall k :: 0 <= k < i ==> r[k] == prefix[k];
    } else {
      var i :| 0 <= i < |line| && (forall k :: 0 <= k < i ==> line[k] == SPACE) && IsJsonStart(line[i]);
      assert r[|prefix| + i] == line[i];
      assert forall k :: 0 <= k < |prefix| + i ==> r[k] == if k < |prefix| then prefix[k] else line[k - |prefix|];
    }
  }

  lemma FramedLines(prefix: Text, lines: seq<Text>, suffix: Text)
    requires |lines| > 0 && AllJsonLines(lines) && OneLine(prefix) && OneLine(suffix)
    requires (forall k :: 0 <= k < |prefix| ==> prefix[k] == SPACE) || IsJsonLine(prefix)
    ensures AllJsonLines(Framed(prefix, lines, suffix))
  {
    hide IsJsonLine;
    var r, n := Framed(prefix, lines, suffix), |lines| - 1;
    FramedLine(prefix, lines[0], if n == 0 then suffix else []);
    FramedLine([], lines[n], suffix);
    assert prefix + lines[0] + [] == prefix + lines[0] && [] + lines[n] + suffix == lines[n] + suffix;
    forall i | 0 <= i < |r|
      ensures IsJsonLine(r[i])
    {
    }
  }

  lemma CloserIsJsonLine(depth: nat, u: Unit)
    requires u == CLOSE_ARRAY || u == CLOSE_OBJECT
    ensures IsJsonLine(Pad(depth) + [u])
  {
    assert (Pad(depth) + [u])[2 * depth] == u;
  }

  lemma KeyPrefix(depth: nat, key: Text)
    ensures IsJsonLine(Pad(depth) + Quoted(key) + [COLON, SPACE]) && OneLine(Pad(depth) + Quoted(key) + [COLON, SPACE])
  {
    QuotedIsOneLine(key);
    hide Quoted;
    var p := Pad(depth) + Quoted(key) + [COLON, SPACE];
    assert p[2 * depth] == Quoted(key)[0] == QUOTE;
    assert forall k :: 0 <= k < 2 * depth ==> p[k] == SPACE;
  }

  /** Every line of a printed value is a JSON line. */
  lemma {:induction false} PrettyLines(v: Json, depth: nat)
    requires Printable(v)
    ensures AllJsonLines(Pretty(v, depth))
    decreases v, 1
  {
    hide IsJsonLine;
    match v
    case Arr(items) =>
      OneUnitLines();
      PrettyItemLines(v, items, depth);
    case Obj(fields) =>
      OneUnitLines();
      PrettyFieldLines(v, fields, depth);
    case _ => ScalarIsJsonLine(v);
  }

  lemma OneUnitLines()
    ensures IsJsonLine([0x5B]) && IsJsonLine([0x7B]) && IsJsonLine([0x5B, CLOSE_ARRAY]) && IsJsonLine([0x7B, CLOSE_OBJECT])
  {
    assert IsJsonStart([0x5B as Unit][0]) && IsJsonStart([0x7B as Unit][0]);
    assert IsJsonStart([0x5B, CLOSE_ARRAY][0]) && IsJsonStart([0x7B, CLOSE_OBJECT][0]);
  }

  lemma {:induction false} PrettyItemLines(whole: Json, items: seq<Json>, depth: nat)
    requires forall i :: 0 <= i < |items| ==> items[i] < whole && Printable(items[i])
    ensures AllJsonLines(PrettyItems(whole, items, depth))
    decreases whole, 0, |items|
  {
    hide IsJsonLine, Pretty, Framed;
    if |items| == 0 {
      CloserIsJsonLine(depth, CLOSE_ARRAY);
    } else {
      PrettyLines(items[0], depth + 1);
      FramedLines(Pad(depth + 1), Pretty(items[0], depth + 1), if |items| == 1 then [] else [COMMA]);
      PrettyItemLines(whole, items[1..], depth);
    }
  }

  lemma {:induction false} PrettyFieldLines(whole: Json, fields: seq<Field>, depth: nat)
    requires forall i :: 0 <= i < |fields| ==> fields[i].value.Some? && fields[i].value.value < whole && Printable(fields[i].value.value)
    ensures AllJsonLines(PrettyFields(whole, fields, depth))
    decreases whole, 0, |fields|
  {
    hide IsJsonLine, Pretty, Framed, Quoted;
    if |fields| == 0 {
      CloserIsJsonLine(depth, CLOSE_OBJECT);
    } else {
      PrettyLines(fields[0].value.value, depth + 1);
      KeyPrefix(depth + 1, fields[0].key);
      FramedLines(Pad(depth + 1) + Quoted(fields[0].key) + [COLON, SPACE], Pretty(fields[0].value.value, depth + 1),
                  if |fields| == 1 then [] else [COMMA]);
      PrettyFieldLines(whole, fields[1..], depth);
    }
  }
}
