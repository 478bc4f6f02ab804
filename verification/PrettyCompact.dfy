/** The indented JSON of a workpad is the compact JSON of the same value, spread over lines with blanks outside strings. */
module PrettyCompact {
  import opened Common
  import opened CanonicalJson
  import opened JsonText
  import opened PrettyJson

  // ---------------------------------------------------------------- blanks outside strings

  /** One line without its blanks, except those inside strings. */
  function Squeezed(t: Text): Text
    decreases |t|
  {
    if |t| == 0 then []
    else if t[0] == QUOTE then [QUOTE] + InString(t[1..])
    else if t[0] == SPACE then Squeezed(t[1..])
    else [t[0]] + Squeezed(t[1..])
  }

  /** The same from inside a string. */
  function InString(t: Text): Text
    decreases |t|
  {
    if |t| == 0 then []
    else if t[0] == QUOTE then [QUOTE] + Squeezed(t[1..])
    else if t[0] == BACKSLASH && |t| >= 2 then [t[0], t[1]] + InString(t[2..])
    else [t[0]] + InString(t[1..])
  }

  function SqueezedLines(lines: seq<Text>): Text {
    if |lines| == 0 then [] else Squeezed(lines[0]) + SqueezedLines(lines[1..])
  }

  lemma {:induction false} SqueezedConcat(a: seq<Text>, b: seq<Text>)
    ensures SqueezedLines(a + b) == SqueezedLines(a) + SqueezedLines(b)
  {
    hide Squeezed;
    if |a| == 0 {
      assert a + b == b;
    } else {
      SqueezedConcat(a[1..], b);
      assert (a + b)[1..] == a[1..] + b;
    }
  }

  /** A text that starts and ends outside strings: what follows it is squeezed on its own. */
  ghost predicate Whole(t: Text) {
    forall rest: Text :: Squeezed(t + rest) == Squeezed(t) + Squeezed(rest)
  }

  lemma WholeConcat(a: Text, b: Text)
    requires Whole(a) && Whole(b)
    ensures Whole(a + b) && Squeezed(a + b) == Squeezed(a) + Squeezed(b)
  {
    hide Squeezed;
    forall rest: Text
      ensures Squeezed(a + b + rest) == Squeezed(a + b) + Squeezed(rest)
    {
      assert a + b + rest == a + (b + rest);
    }
  }

  lemma WholeUnit(u: Unit)
    requires u != QUOTE
    ensures Whole([u]) && Squeezed([u]) == if u == SPACE then [] else [u]
  {
    forall rest: Text
      ensures Squeezed([u] + rest) == Squeezed([u]) + Squeezed(rest)
    {
      assert ([u] + rest)[1..] == rest && [u][1..] == [];
    }
  }

  lemma WholeNothing()
    ensures Whole([]) && Squeezed([]) == []
  {
    forall rest: Text
      ensures Squeezed([] + rest) == Squeezed([]) + Squeezed(rest)
    {
      assert [] + rest == rest;
    }
  }

  lemma {:induction false} WholePad(n: nat)
    ensures Whole(seq(n, _ => SPACE)) && Squeezed(seq(n, _ => SPACE)) == []
  {
    hide Squeezed, Whole;
    if n == 0 {
      WholeNothing();
      assert seq(n, _ => SPACE) == [];
    } else {
      WholePad(n - 1);
      WholeUnit(SPACE);
      WholeConcat([SPACE], seq(n - 1, _ => SPACE));
      assert seq(n, _ => SPACE) == [SPACE] + seq(n - 1, _ => SPACE);
    }
  }

  /** Plain tokens: no quote, no blank. */
  lemma {:induction false} WholeToken(t: Text)
    requires forall i :: 0 <= i < |t| ==> t[i] != QUOTE && t[i] != SPACE
    ensures Whole(t) && Squeezed(t) == t
  {
    hide Squeezed, Whole;
    if |t| == 0 {
      WholeNothing();
      assert t == [];
    } else {
      WholeUnit(t[0]);
      WholeToken(t[1..]);
      WholeConcat([t[0]], t[1..]);
      assert [t[0]] + t[1..] == t;
    }
  }

  // ---------------------------------------------------------------- strings

  lemma PlainUnit(u: Unit, rest: Text)
    requires u != QUOTE && u != BACKSLASH
    ensures InString([u] + rest) == [u] + InString(rest)
  {
    assert ([u] + rest)[1..] == rest;
  }

  lemma {:induction false} PlainText(t: Text, rest: Text)
    requires forall i :: 0 <= i < |t| ==> t[i] != QUOTE && t[i] != BACKSLASH
    ensures InString(t + rest) == t + InString(rest)
  {
    hide InString;
    if |t| == 0 {
      assert t + rest == rest;
    } else {
      PlainUnit(t[0], t[1..] + rest);
      PlainText(t[1..], rest);
      assert t + rest == [t[0]] + (t[1..] + rest) && t == [t[0]] + t[1..];
    }
  }

  lemma EscapedPair(u: Unit, rest: Text)
    ensures InString([BACKSLASH, u] + rest) == [BACKSLASH, u] + InString(rest)
  {
    assert ([BACKSLASH, u] + rest)[2..] == rest;
  }

  lemma InStringUnit(u: Unit, rest: Text)
    ensures InString(EscapeUnit(u) + rest) == EscapeUnit(u) + InString(rest)
  {
    hide InString;
    if Short(u).Some? {
      EscapedPair(Short(u).value, rest);
    } else if u < 0x20 || IsLead(u) || IsTrail(u) {
      var h := Hex4(u);
      assert EscapeUnit(u) + rest == [BACKSLASH, 0x75] + (h + rest);
      EscapedPair(0x75, h + rest);
      PlainText(h, rest);
    } else {
      PlainUnit(u, rest);
    }
  }

  lemma StringEnds(rest: Text)
    ensures InString(Closed([], rest)) == [QUOTE] + Squeezed(rest)
  {
    assert Closed([], rest)[1..] == rest;
  }

  lemma {:induction false} InStringKept(s: Text, rest: Text)
    ensures InString(Closed(s, rest)) == Closed(s, Squeezed(rest))
    decreases |s|
  {
    hide EscapeUnit, InString, Squeezed, Closed;
    if |s| == 0 {
      assert s == [];
      StringEnds(rest);
      assert Closed([], Squeezed(rest)) == [QUOTE] + Squeezed(rest) by {
        ClosedOfNothing(Squeezed(rest));
      }
    } else if |s| >= 2 && IsLead(s[0]) && IsTrail(s[1]) {
      ClosedStep(s, rest);
      ClosedStep(s, Squeezed(rest));
      InStringKept(s[2..], rest);
      PlainUnit(s[0], [s[1]] + Closed(s[2..], rest));
      PlainUnit(s[1], Closed(s[2..], rest));
    } else {
      ClosedStep(s, rest);
      ClosedStep(s, Squeezed(rest));
      InStringKept(s[1..], rest);
      InStringUnit(s[0], Closed(s[1..], rest));
    }
  }

  lemma ClosedOfNothing(x: Text)
    ensures Closed([], x) == [QUOTE] + x
  {
  }

  lemma WholeQuoted(s: Text)
    ensures Whole(Quoted(s)) && Squeezed(Quoted(s)) == Quoted(s)
  {
    hide Escape, InString;
    forall rest: Text
      ensures Squeezed(Quoted(s) + rest) == Quoted(s) + Squeezed(rest)
    {
      InStringKept(s, rest);
      assert (Quoted(s) + rest)[1..] == Closed(s, rest);
      assert Quoted(s) + Squeezed(rest) == [QUOTE] + Closed(s, Squeezed(rest));
    }
    assert Quoted(s) + [] == Quoted(s) && Squeezed([]) == [];
  }

  // ---------------------------------------------------------------- values

  ghost predicate AllWhole(lines: seq<Text>) {
    forall i :: 0 <= i < |lines| ==> Whole(lines[i])
  }

  lemma ScalarWhole(v: Json)
    requires Printable(v) && !v.Arr? && !v.Obj?
    ensures Whole(Render(v)) && Squeezed(Render(v)) == Render(v)
  {
    hide Squeezed, Whole, Quoted;
    if v.Str? {
      WholeQuoted(v.s);
    } else {
      WholeToken(Render(v));
    }
  }

  lemma LedWhole(prefix: Text, lines: seq<Text>)
    requires |lines| > 0 && AllWhole(lines) && Whole(prefix)
    ensures var led := [prefix + lines[0]] + lines[1..];
            AllWhole(led) && SqueezedLines(led) == Squeezed(prefix) + SqueezedLines(lines)
  {
    hide Squeezed, Whole, SqueezedLines;
    WholeConcat(prefix, lines[0]);
    SqueezedConcat([prefix + lines[0]], lines[1..]);
    SqueezedConcat([lines[0]], lines[1..]);
    assert [lines[0]] + lines[1..] == lines;
    OneSqueezed(prefix + lines[0]);
    OneSqueezed(lines[0]);
  }

  lemma TrailedWhole(lines: seq<Text>, suffix: Text)
    requires |lines| > 0 && AllWhole(lines) && Whole(suffix)
    ensures var trailed := lines[|lines| - 1 := lines[|lines| - 1] + suffix];
            AllWhole(trailed) && SqueezedLines(trailed) == SqueezedLines(lines) + Squeezed(suffix)
  {
    hide Squeezed, Whole, SqueezedLines;
    var n := |lines| - 1;
    WholeConcat(lines[n], suffix);
    SqueezedConcat(lines[..n], [lines[n] + suffix]);
    SqueezedConcat(lines[..n], [lines[n]]);
    assert lines[..n] + [lines[n]] == lines && lines[..n] + [lines[n] + suffix] == lines[n := lines[n] + suffix];
    OneSqueezed(lines[n] + suffix);
    OneSqueezed(lines[n]);
  }

  lemma FramedWhole(prefix: Text, lines: seq<Text>, suffix: Text)
    requires |lines| > 0 && AllWhole(lines) && Whole(prefix) && Whole(suffix)
    ensures AllWhole(Framed(prefix, lines, suffix))
    ensures SqueezedLines(Framed(prefix, lines, suffix)) == Squeezed(prefix) + SqueezedLines(lines) + Squeezed(suffix)
  {
    hide Squeezed, Whole, SqueezedLines, AllWhole;
    LedWhole(prefix, lines);
    TrailedWhole([prefix + lines[0]] + lines[1..], suffix);
  }

  lemma OneSqueezed(line: Text)
    ensures SqueezedLines([line]) == Squeezed(line)
  {
    hide Squeezed;
    assert [line][1..] == [];
    assert SqueezedLines([]) == [];
  }

  /** Without its blanks and line breaks, the indented form is the compact one. */
  lemma {:induction false} PrettyIsCompact(v: Json, depth: nat)
    requires Printable(v)
    ensures AllWhole(Pretty(v, depth)) && SqueezedLines(Pretty(v, depth)) == Render(v)
    decreases v, 0
  {
    hide Squeezed, Whole, PrettyItems, PrettyFields, RenderItems, RenderFields, SqueezedLines, IsNumber, Quoted;
    match v
    case Arr(items) =>
      WholeToken([0x5B]);
      OneSqueezed([0x5B]);
      if |items| == 0 {
        WholeToken([0x5B, CLOSE_ARRAY]);
        OneSqueezed([0x5B, CLOSE_ARRAY]);
        NoItems(v, items);
      } else {
        PrettyItemsCompact(v, items, depth);
        SqueezedConcat([[0x5B]], PrettyItems(v, items, depth));
      }
    case Obj(fields) =>
      WholeToken([0x7B]);
      OneSqueezed([0x7B]);
      if |fields| == 0 {
        WholeToken([0x7B, CLOSE_OBJECT]);
        OneSqueezed([0x7B, CLOSE_OBJECT]);
        NoFields(v, fields);
      } else {
        PrettyFieldsCompact(v, fields, depth);
        SqueezedConcat([[0x7B]], PrettyFields(v, fields, depth));
      }
    case _ =>
      ScalarWhole(v);
      OneSqueezed(Render(v));
  }

  lemma NoItems(whole: Json, items: seq<Json>)
    requires |items| == 0
    ensures RenderItems(whole, items) == [CLOSE_ARRAY]
  {
  }

  lemma NoFields(whole: Json, fields: seq<Field>)
    requires |fields| == 0
    ensures RenderFields(whole, fields) == [CLOSE_OBJECT]
  {
  }

  lemma CloserWhole(depth: nat, u: Unit)
    requires u == CLOSE_ARRAY || u == CLOSE_OBJECT
    ensures AllWhole([Pad(depth) + [u]]) && SqueezedLines([Pad(depth) + [u]]) == [u]
  {
    hide Squeezed, Whole;
    WholePad(2 * depth);
    WholeUnit(u);
    WholeConcat(Pad(depth), [u]);
    OneSqueezed(Pad(depth) + [u]);
  }

  lemma SuffixWhole(last: bool)
    ensures var suffix: Text := if last then [] else [COMMA]; Whole(suffix) && Squeezed(suffix) == suffix
  {
    hide Squeezed, Whole;
    WholeToken(if last then [] else [COMMA]);
  }

  lemma {:induction false} PrettyItemsCompact(whole: Json, items: seq<Json>, depth: nat)
    requires forall i :: 0 <= i < |items| ==> items[i] < whole && Printable(items[i])
    requires |items| > 0
    ensures AllWhole(PrettyItems(whole, items, depth))
    ensures SqueezedLines(PrettyItems(whole, items, depth)) == RenderItems(whole, items)
    decreases whole, 0, |items|
  {
    hide Squeezed, Whole, Pretty, Render, SqueezedLines, Framed;
    var suffix: Text := if |items| == 1 then [] else [COMMA];
    PrettyIsCompact(items[0], depth + 1);
    WholePad(2 * (depth + 1));
    SuffixWhole(|items| == 1);
    FramedWhole(Pad(depth + 1), Pretty(items[0], depth + 1), suffix);
    var first := Framed(Pad(depth + 1), Pretty(items[0], depth + 1), suffix);
    SqueezedConcat(first, PrettyItems(whole, items[1..], depth));
    if |items| == 1 {
      CloserWhole(depth, CLOSE_ARRAY);
    } else {
      PrettyItemsCompact(whole, items[1..], depth);
    }
  }

  lemma {:induction false} PrettyFieldsCompact(whole: Json, fields: seq<Field>, depth: nat)
    requires forall i :: 0 <= i < |fields| ==> fields[i].value.Some? && fields[i].value.value < whole && Printable(fields[i].value.value)
    requires |fields| > 0
    ensures AllWhole(PrettyFields(whole, fields, depth))
    ensures SqueezedLines(PrettyFields(whole, fields, depth)) == RenderFields(whole, fields)
    decreases whole, 0, |fields|
  {
    hide Squeezed, Whole, Pretty, Render, SqueezedLines, Framed, Quoted;
    var suffix: Text := if |fields| == 1 then [] else [COMMA];
    var value := fields[0].value.value;
    PrettyIsCompact(value, depth + 1);
    KeyWhole(depth, fields[0].key);
    SuffixWhole(|fields| == 1);
    var prefix := Pad(depth + 1) + Quoted(fields[0].key) + [COLON, SPACE];
    FramedWhole(prefix, Pretty(value, depth + 1), suffix);
    SqueezedConcat(Framed(prefix, Pretty(value, depth + 1), suffix), PrettyFields(whole, fields[1..], depth));
    if |fields| == 1 {
      CloserWhole(depth, CLOSE_OBJECT);
    } else {
      PrettyFieldsCompact(whole, fields[1..], depth);
    }
  }

  lemma KeyWhole(depth: nat, key: Text)
    ensures var prefix := Pad(depth + 1) + Quoted(key) + [COLON, SPACE];
            Whole(prefix) && Squeezed(prefix) == Quoted(key) + [COLON]
  {
    hide Squeezed, Whole, Quoted;
    WholePad(2 * (depth + 1));
    WholeQuoted(key);
    WholeUnit(COLON);
    WholeUnit(SPACE);
    WholeConcat([COLON], [SPACE]);
    assert [COLON] + [SPACE] == [COLON, SPACE];
    WholeConcat(Pad(depth + 1), Quoted(key));
    WholeConcat(Pad(depth + 1) + Quoted(key), [COLON, SPACE]);
  }

  /** So two values with the same indented text are the same value. */
  lemma PrettyIsUnambiguous(a: Json, b: Json)
    requires Printable(a) && Printable(b) && Pretty(a, 0) == Pretty(b, 0)
    ensures a == b
  {
    hide Pretty, Render, Squeezed, SqueezedLines, Whole, AllWhole, Printable;
    PrettyIsCompact(a, 0);
    PrettyIsCompact(b, 0);
    assert Render(a) + [] == Render(a) && Render(b) + [] == Render(b);
    RenderIsPrefixFree(a, b, [], []);
  }
}
