/** A marker shows up in pretty-printed JSON exactly if a string of the value contains it. */
module WorkpadStrings {
  import opened Common
  import opened CanonicalJson
  import opened JsonText
  import opened PrettyJson
  import opened WorkpadView
  import opened WorkpadLines
  import opened WorkpadMarks

  /** Some string or key of the value contains the text. */
  ghost predicate Holds(v: Json, m: Text)
    decreases v
  {
    match v
    case Str(s) => Contains(s, m)
    case Arr(items) => exists i :: 0 <= i < |items| && Holds(items[i], m)
    case Obj(fields) => exists i :: 0 <= i < |fields| && FieldHolds(fields[i], m)
    case _ => false
  }

  ghost predicate FieldHolds(f: Field, m: Text)
    decreases f
  {
    Contains(f.key, m) || (f.value.Some? && Holds(f.value.value, m))
  }

  ghost predicate LinesHold(lines: seq<Text>, m: Text) {
    exists i :: 0 <= i < |lines| && Contains(lines[i], m)
  }

  // ---------------------------------------------------------------- occurrences in parts

  lemma ContainsInPart(a: Text, b: Text, c: Text, m: Text)
    requires Contains(b, m)
    ensures Contains(a + b + c, m)
  {
    var i :| OccursAt(b, m, i);
    assert (a + b + c)[|a| + i..|a| + i + |m|] == b[i..i + |m|];
    assert OccursAt(a + b + c, m, |a| + i);
  }

  /** No marker reaches across a unit that markers do not use. */
  lemma AcrossSeparator(a: Text, u: Unit, b: Text, m: Text)
    requires |m| > 0 && u !in m
    ensures Contains(a + [u] + b, m) <==> Contains(a, m) || Contains(b, m)
  {
    var t := a + [u] + b;
    if Contains(a, m) {
      ContainsInPart([], a, [u] + b, m);
      assert [] + a + ([u] + b) == t;
    }
    if Contains(b, m) {
      ContainsInPart(a + [u], b, [], m);
      assert a + [u] + b + [] == t;
    }
    forall i | OccursAt(t, m, i)
      ensures OccursAt(a, m, i) || OccursAt(b, m, i - |a| - 1)
    {
      if i <= |a| < i + |m| {
        SeparatorInside(t, m, i, |a|);
      } else if |a| < i {
        assert t[i..i + |m|] == b[i - |a| - 1..i - |a| - 1 + |m|];
      } else {
        assert t[i..i + |m|] == a[i..i + |m|];
      }
    }
  }

  lemma SeparatorInside(t: Text, m: Text, i: int, at: nat)
    requires OccursAt(t, m, i) && i <= at < i + |m|
    ensures t[at] in m
  {
    assert t[i..i + |m|][at - i] == t[at];
  }

  /** No marker starts where there is no tag. */
  lemma NoTagBefore(a: Text, b: Text, m: Text)
    requires IsComment(m) && LESS !in a
    ensures Contains(a + b, m) <==> Contains(b, m)
  {
    if Contains(b, m) {
      ContainsInPart(a, b, [], m);
      assert a + b + [] == a + b;
    }
    forall i | OccursAt(a + b, m, i)
      ensures OccursAt(b, m, i - |a|)
    {
      CommentInside(a + b, m, i);
      assert i >= |a|;
      assert (a + b)[i..i + |m|] == b[i - |a|..i - |a| + |m|];
    }
  }

  lemma NoTag(a: Text, m: Text)
    requires IsComment(m) && LESS !in a
    ensures !Contains(a, m)
  {
    forall i | OccursAt(a, m, i)
      ensures false
    {
      CommentInside(a, m, i);
    }
  }

  // ---------------------------------------------------------------- strings

  lemma ContainsFromHere(u: Unit, rest: Text, m: Text)
    requires |m| > 0
    ensures Contains([u] + rest, m) <==> m <= [u] + rest || Contains(rest, m)
  {
    var t := [u] + rest;
    if Contains(rest, m) {
      ContainsInPart([u], rest, [], m);
      assert [u] + rest + [] == t;
    }
    if m <= t {
      assert OccursAt(t, m, 0);
    }
    forall i | OccursAt(t, m, i)
      ensures m <= t || OccursAt(rest, m, i - 1)
    {
      if i > 0 {
        assert t[i..i + |m|] == rest[i - 1..i - 1 + |m|];
      }
    }
  }

  /** Units that JSON changes or that belong to a pair. */
  predicate IsChanged(u: Unit) {
    Short(u).Some? || u < 0x20 || IsLead(u) || IsTrail(u)
  }

  lemma EscapeStep(s: Text)
    requires |s| > 0
    ensures !IsChanged(s[0]) ==> Escape(s) == [s[0]] + Escape(s[1..])
    ensures IsChanged(s[0]) ==> |Escape(s)| > 0 && (Escape(s)[0] == BACKSLASH || Escape(s)[0] == s[0])
  {
  }

  /** Escaping neither makes nor hides a verbatim start. */
  lemma {:induction false} VerbatimPrefixKept(s: Text, t: Text)
    requires IsVerbatim(t)
    ensures t <= Escape(s) <==> t <= s
    decreases |t|
  {
    if |t| > 0 && |s| > 0 {
      EscapeStep(s);
      VerbatimHead(t);
      hide Escape, IsChanged;
      if !IsChanged(s[0]) {
        VerbatimPrefixKept(s[1..], t[1..]);
        assert t <= s <==> t[0] == s[0] && t[1..] <= s[1..];
        assert t <= [s[0]] + Escape(s[1..]) <==> t[0] == s[0] && t[1..] <= Escape(s[1..]);
      }
    }
  }

  lemma VerbatimHead(t: Text)
    requires IsVerbatim(t) && |t| > 0
    ensures IsVerbatim(t[1..]) && !IsChanged(t[0]) && t[0] != BACKSLASH
  {
  }

  /** An escaped unit contains no tag. */
  lemma ChangedHasNoTag(u: Unit)
    requires IsChanged(u)
    ensures LESS !in EscapeUnit(u)
  {
  }

  lemma {:induction false} EscapeKeepsMarks(s: Text, m: Text)
    requires IsComment(m)
    ensures Contains(Escape(s), m) <==> Contains(s, m)
    decreases |s|
  {
    if |s| == 0 {
    } else if |s| >= 2 && IsLead(s[0]) && IsTrail(s[1]) {
      EscapeKeepsMarks(s[2..], m);
      NoTagBefore([s[0], s[1]], Escape(s[2..]), m);
      NoTagBefore([s[0], s[1]], s[2..], m);
      assert s == [s[0], s[1]] + s[2..];
    } else if IsChanged(s[0]) {
      EscapeKeepsMarks(s[1..], m);
      ChangedHasNoTag(s[0]);
      NoTagBefore(EscapeUnit(s[0]), Escape(s[1..]), m);
      NoTagBefore([s[0]], s[1..], m);
      assert s == [s[0]] + s[1..];
    } else {
      EscapeKeepsMarks(s[1..], m);
      VerbatimPrefixKept(s, m);
      EscapeStep(s);
      ContainsFromHere(s[0], Escape(s[1..]), m);
      ContainsFromHere(s[0], s[1..], m);
      assert s == [s[0]] + s[1..];
    }
  }

  lemma QuotedKeepsMarks(s: Text, m: Text)
    requires IsComment(m)
    ensures Contains(Quoted(s), m) <==> Contains(s, m)
  {
    EscapeKeepsMarks(s, m);
    hide Escape, Contains;
    AcrossSeparator([], QUOTE, Escape(s) + [QUOTE], m);
    AcrossSeparator(Escape(s), QUOTE, [], m);
    NoTag([], m);
    assert [] + [QUOTE] + (Escape(s) + [QUOTE]) == Quoted(s) && Escape(s) + [QUOTE] + [] == Escape(s) + [QUOTE];
  }

  // ---------------------------------------------------------------- values

  lemma ScalarHolds(v: Json, m: Text)
    requires Printable(v) && !v.Arr? && !v.Obj? && IsComment(m)
    ensures Contains(Render(v), m) <==> Holds(v, m)
  {
    hide Contains;
    if v.Str? {
      QuotedKeepsMarks(v.s, m);
    } else {
      NoTag(Render(v), m);
    }
  }

  /** A comma after a line adds nothing. */
  lemma SuffixAddsNothing(line: Text, suffix: Text, m: Text)
    requires IsComment(m) && (suffix == [] || suffix == [COMMA])
    ensures Contains(line + suffix, m) <==> Contains(line, m)
  {
    hide Contains;
    if suffix == [] {
      assert line + suffix == line;
    } else {
      AcrossSeparator(line, COMMA, [], m);
      NoTag([], m);
      assert line + [COMMA] + [] == line + suffix;
    }
  }

  /** What the lines of a value hold once a prefix and a comma are put around them. */
  lemma FramedHolds(prefix: Text, inPrefix: bool, lines: seq<Text>, suffix: Text, m: Text)
    requires IsComment(m) && |lines| > 0 && (suffix == [] || suffix == [COMMA])
    requires Contains(prefix + lines[0], m) <==> inPrefix || Contains(lines[0], m)
    ensures LinesHold(Framed(prefix, lines, suffix), m) <==> inPrefix || LinesHold(lines, m)
  {
    hide Contains, IsComment;
    var r, n := Framed(prefix, lines, suffix), |lines| - 1;
    SuffixAddsNothing(prefix + lines[0], suffix, m);
    SuffixAddsNothing(lines[n], suffix, m);
    assert Contains(r[0], m) <==> inPrefix || Contains(lines[0], m);
    assert forall i :: 0 < i <= n ==> (Contains(r[i], m) <==> Contains(lines[i], m));
    if inPrefix || Contains(lines[0], m) {
      assert LinesHold(r, m);
    }
    if LinesHold(lines, m) {
      var i :| 0 <= i <= n && Contains(lines[i], m);
      assert Contains(r[i], m);
    }
    if LinesHold(r, m) {
      var i :| 0 <= i <= n && Contains(r[i], m);
      assert i > 0 ==> Contains(lines[i], m);
    }
  }

  /** Indentation holds no marker; a key holds those of its string. */
  lemma KeyPrefixHolds(depth: nat, key: Text, line: Text, m: Text)
    requires IsComment(m)
    ensures Contains(Pad(depth) + Quoted(key) + [COLON, SPACE] + line, m) <==> Contains(key, m) || Contains(line, m)
  {
    EscapeKeepsMarks(key, m);
    hide Escape, Contains;
    var text := Pad(depth) + Quoted(key) + [COLON, SPACE] + line;
    AcrossSeparator(Pad(depth), QUOTE, Escape(key) + [QUOTE] + ([COLON, SPACE] + line), m);
    AcrossSeparator(Escape(key), QUOTE, [COLON, SPACE] + line, m);
    NoTagBefore([COLON, SPACE], line, m);
    NoTag(Pad(depth), m);
    assert text == Pad(depth) + [QUOTE] + (Escape(key) + [QUOTE] + ([COLON, SPACE] + line));
  }

  lemma LinesHoldConcat(a: seq<Text>, b: seq<Text>, m: Text)
    ensures LinesHold(a + b, m) <==> LinesHold(a, m) || LinesHold(b, m)
  {
    hide Contains;
    if LinesHold(a, m) {
      var i :| 0 <= i < |a| && Contains(a[i], m);
      assert (a + b)[i] == a[i];
    }
    if LinesHold(b, m) {
      var i :| 0 <= i < |b| && Contains(b[i], m);
      assert (a + b)[|a| + i] == b[i];
    }
    if LinesHold(a + b, m) {
      var i :| 0 <= i < |a + b| && Contains((a + b)[i], m);
      assert if i < |a| then Contains(a[i], m) else Contains(b[i - |a|], m);
    }
  }

  lemma OneLineHolds(line: Text, m: Text)
    ensures LinesHold([line], m) <==> Contains(line, m)
  {
    hide Contains;
    assert [line][0] == line;
  }

  lemma TaglessLine(line: Text, m: Text)
    requires IsComment(m) && LESS !in line
    ensures !LinesHold([line], m)
  {
    NoTag(line, m);
    hide Contains, IsComment;
  }

  /** The printed value holds a marker exactly if one of its strings does. */
  lemma {:induction false} PrettyHolds(v: Json, depth: nat, m: Text)
    requires Printable(v) && IsComment(m)
    ensures LinesHold(Pretty(v, depth), m) <==> Holds(v, m)
    decreases v, 1
  {
    hide LinesHold, Contains, IsComment;
    match v
    case Arr(items) =>
      TaglessLine([0x5B, CLOSE_ARRAY], m);
      TaglessLine([0x5B], m);
      PrettyItemsHold(v, items, depth, m);
      LinesHoldConcat([[0x5B]], PrettyItems(v, items, depth), m);
    case Obj(fields) =>
      TaglessLine([0x7B, CLOSE_OBJECT], m);
      TaglessLine([0x7B], m);
      PrettyFieldsHold(v, fields, depth, m);
      LinesHoldConcat([[0x7B]], PrettyFields(v, fields, depth), m);
    case _ =>
      ScalarHolds(v, m);
      OneLineHolds(Render(v), m);
  }

  lemma {:induction false} PrettyItemsHold(whole: Json, items: seq<Json>, depth: nat, m: Text)
    requires IsComment(m) && forall i :: 0 <= i < |items| ==> items[i] < whole && Printable(items[i])
    ensures LinesHold(PrettyItems(whole, items, depth), m) <==> exists i :: 0 <= i < |items| && Holds(items[i], m)
    decreases whole, 0, |items|
  {
    hide LinesHold, Contains, IsComment, Pretty, Framed, Holds, Pad;
    if |items| == 0 {
      TaglessLine(Closer(depth, CLOSE_ARRAY), m);
    } else {
      var first := Pretty(items[0], depth + 1);
      PrettyHolds(items[0], depth + 1, m);
      PadHolds(depth + 1, first[0], m);
      FramedHolds(Pad(depth + 1), false, first, if |items| == 1 then [] else [COMMA], m);
      PrettyItemsHold(whole, items[1..], depth, m);
      LinesHoldConcat(Framed(Pad(depth + 1), first, if |items| == 1 then [] else [COMMA]), PrettyItems(whole, items[1..], depth), m);
      assert forall i :: 0 <= i < |items| ==> items[i] == if i == 0 then items[0] else items[1..][i - 1];
      assert forall i :: 0 <= i < |items| - 1 ==> items[1..][i] == items[i + 1];
    }
  }

  function Closer(depth: nat, u: Unit): (t: Text)
    requires u == CLOSE_ARRAY || u == CLOSE_OBJECT
    ensures t == Pad(depth) + [u] && LESS !in t
  {
    Pad(depth) + [u]
  }

  lemma PadHolds(depth: nat, line: Text, m: Text)
    requires IsComment(m)
    ensures Contains(Pad(depth) + line, m) <==> Contains(line, m)
  {
    NoTagBefore(Pad(depth), line, m);
  }

  lemma {:induction false} PrettyFieldsHold(whole: Json, fields: seq<Field>, depth: nat, m: Text)
    requires IsComment(m)
    requires forall i :: 0 <= i < |fields| ==> fields[i].value.Some? && fields[i].value.value < whole && Printable(fields[i].value.value)
    ensures LinesHold(PrettyFields(whole, fields, depth), m) <==> exists i :: 0 <= i < |fields| && FieldHolds(fields[i], m)
    decreases whole, 0, |fields|
  {
    hide LinesHold, Contains, IsComment, Pretty, Framed, Holds, Pad, Quoted;
    if |fields| == 0 {
      TaglessLine(Closer(depth, CLOSE_OBJECT), m);
    } else {
      var first := Pretty(fields[0].value.value, depth + 1);
      var prefix := Pad(depth + 1) + Quoted(fields[0].key) + [COLON, SPACE];
      PrettyHolds(fields[0].value.value, depth + 1, m);
      KeyPrefixHolds(depth + 1, fields[0].key, first[0], m);
      FramedHolds(prefix, Contains(fields[0].key, m), first, if |fields| == 1 then [] else [COMMA], m);
      PrettyFieldsHold(whole, fields[1..], depth, m);
      LinesHoldConcat(Framed(prefix, first, if |fields| == 1 then [] else [COMMA]), PrettyFields(whole, fields[1..], depth), m);
      assert FieldHolds(fields[0], m) <==> LinesHold(Framed(prefix, first, if |fields| == 1 then [] else [COMMA]), m);
      assert forall i :: 0 <= i < |fields| ==> fields[i] == if i == 0 then fields[0] else fields[1..][i - 1];
      assert forall i :: 0 <= i < |fields| - 1 ==> fields[1..][i] == fields[i + 1];
    }
  }
}
