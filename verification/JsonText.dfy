/** `JSON.stringify` of canonical values, and why different canonical values get different texts. */
module JsonText {
  import opened Common
  import opened Sorting
  import opened CanonicalJson

  const QUOTE: Unit := 0x22
  const COMMA: Unit := 0x2C
  const COLON: Unit := 0x3A
  const BACKSLASH: Unit := 0x5C
  const CLOSE_ARRAY: Unit := 0x5D
  const CLOSE_OBJECT: Unit := 0x7D

  // ---------------------------------------------------------------- strings

  function HexUnit(v: int): Unit
    requires 0 <= v < 16
  {
    if v < 10 then 0x30 + v else 0x61 + (v - 10)
  }

  function HexValue(u: Unit): Option<int> {
    if 0x30 <= u <= 0x39 then Some(u - 0x30) else if 0x61 <= u <= 0x66 then Some(u - 0x61 + 10) else None
  }

  function Hex4(u: Unit): Text {
    [HexUnit(u / 0x1000), HexUnit(u / 0x100 % 16), HexUnit(u / 16 % 16), HexUnit(u % 16)]
  }

  function ReadHex4(t: Text): Option<Unit> {
    if |t| < 4 then None
    else
      match (HexValue(t[0]), HexValue(t[1]), HexValue(t[2]), HexValue(t[3]))
      case (Some(a), Some(b), Some(c), Some(d)) => ToUnit(a, b, c, d)
      case (_, _, _, _) => None
  }

  function ToUnit(a: int, b: int, c: int, d: int): Option<Unit> {
    var v := ((a * 16 + b) * 16 + c) * 16 + d;
    if 0 <= v < 0x1_0000 then Some(v) else None
  }

  lemma DigitsOfUnit(u: Unit)
    ensures ((u / 0x1000 * 16 + u / 0x100 % 16) * 16 + u / 16 % 16) * 16 + u % 16 == u
  {
    assert u / 0x100 == u / 0x1000 * 16 + u / 0x100 % 16;
    assert u / 16 == u / 0x100 * 16 + u / 16 % 16;
  }

  lemma HexUnitValue(v: int)
    requires 0 <= v < 16
    ensures HexValue(HexUnit(v)) == Some(v)
  {
  }

  lemma HexRoundTrip(u: Unit, rest: Text)
    ensures ReadHex4(Hex4(u) + rest) == Some(u)
  {
    hide HexValue, HexUnit;
    HexUnitValue(u / 0x1000);
    HexUnitValue(u / 0x100 % 16);
    HexUnitValue(u / 16 % 16);
    HexUnitValue(u % 16);
    DigitsOfUnit(u);
    assert (Hex4(u) + rest)[..4] == Hex4(u);
  }

  predicate IsLead(u: Unit) {
    0xD800 <= u < 0xDC00
  }

  predicate IsTrail(u: Unit) {
    0xDC00 <= u < 0xE000
  }

  /** The letter of a two-unit escape, if the unit has one. */
  function Short(u: Unit): Option<Unit> {
    if u == QUOTE || u == BACKSLASH then Some(u)
    else if u == 0x08 then Some(0x62) else if u == 0x0C then Some(0x66) else if u == 0x0A then Some(0x6E)
    else if u == 0x0D then Some(0x72) else if u == 0x09 then Some(0x74) else None
  }

  function Unshort(letter: Unit): Option<Unit> {
    if letter == QUOTE || letter == BACKSLASH then Some(letter)
    else if letter == 0x62 then Some(0x08) else if letter == 0x66 then Some(0x0C) else if letter == 0x6E then Some(0x0A)
    else if letter == 0x72 then Some(0x0D) else if letter == 0x74 then Some(0x09) else None
  }

  function EscapeUnit(u: Unit): Text {
    if Short(u).Some? then [BACKSLASH, Short(u).value]
    else if u < 0x20 || IsLead(u) || IsTrail(u) then [BACKSLASH, 0x75] + Hex4(u)
    else [u]
  }

  /** Surrogate pairs are kept, lone surrogates escaped. */
  function Escape(s: Text): Text {
    if |s| == 0 then []
    else if |s| >= 2 && IsLead(s[0]) && IsTrail(s[1]) then [s[0], s[1]] + Escape(s[2..])
    else EscapeUnit(s[0]) + Escape(s[1..])
  }

  function Quoted(s: Text): Text {
    [QUOTE] + Escape(s) + [QUOTE]
  }

  /** Reading up to the closing quote; the inverse of escaping. */
  function Unquote(t: Text): Option<(Text, Text)>
    decreases |t|
  {
    if |t| == 0 then None
    else if t[0] == QUOTE then Some(([], t[1..]))
    else if t[0] != BACKSLASH then Prepend(t[0], Unquote(t[1..]))
    else if |t| < 2 then None
    else if t[1] == 0x75 then
      match ReadHex4(t[2..])
      case Some(u) => if |t| >= 6 then Prepend(u, Unquote(t[6..])) else None
      case None => None
    else
      match Unshort(t[1])
      case Some(u) => Prepend(u, Unquote(t[2..]))
      case None => None
  }

  function Prepend(u: Unit, r: Option<(Text, Text)>): Option<(Text, Text)> {
    match r
    case Some((s, rest)) => Some(([u] + s, rest))
    case None => None
  }

  lemma UnquoteUnit(u: Unit, rest: Text)
    ensures Unquote(EscapeUnit(u) + rest) == Prepend(u, Unquote(rest))
  {
    var t := EscapeUnit(u) + rest;
    if Short(u).Some? {
      assert t[2..] == rest;
    } else if u < 0x20 || IsLead(u) || IsTrail(u) {
      HexRoundTrip(u, rest);
      assert t[2..] == Hex4(u) + rest && t[6..] == rest;
    } else {
      assert t[1..] == rest;
    }
  }

  lemma UnquoteRaw(u: Unit, rest: Text)
    requires u != QUOTE && u != BACKSLASH
    ensures Unquote([u] + rest) == Prepend(u, Unquote(rest))
  {
    assert ([u] + rest)[1..] == rest;
  }

  /** An escaped string with its closing quote. */
  function Closed(s: Text, rest: Text): Text {
    Escape(s) + [QUOTE] + rest
  }

  lemma ClosedStep(s: Text, rest: Text)
    requires |s| > 0
    ensures if |s| >= 2 && IsLead(s[0]) && IsTrail(s[1]) then Closed(s, rest) == [s[0]] + ([s[1]] + Closed(s[2..], rest))
            else Closed(s, rest) == EscapeUnit(s[0]) + Closed(s[1..], rest)
  {
    hide EscapeUnit;
  }

  lemma ClosedEnd(rest: Text)
    ensures Unquote(Closed([], rest)) == Some(([], rest))
  {
    assert Closed([], rest)[1..] == rest;
  }

  lemma {:induction false} UnquoteEscaped(s: Text, rest: Text)
    ensures Unquote(Closed(s, rest)) == Some((s, rest))
    decreases |s|
  {
    hide EscapeUnit, Unquote, Closed;
    if |s| == 0 {
      assert s == [];
      ClosedEnd(rest);
    } else if |s| >= 2 && IsLead(s[0]) && IsTrail(s[1]) {
      ClosedStep(s, rest);
      UnquoteEscaped(s[2..], rest);
      UnquoteRaw(s[0], [s[1]] + Closed(s[2..], rest));
      UnquoteRaw(s[1], Closed(s[2..], rest));
      assert [s[0]] + ([s[1]] + s[2..]) == s;
    } else {
      ClosedStep(s, rest);
      UnquoteEscaped(s[1..], rest);
      UnquoteUnit(s[0], Closed(s[1..], rest));
      assert [s[0]] + s[1..] == s;
    }
  }

  lemma QuotedIsPrefixFree(s: Text, t: Text, x: Text, y: Text)
    requires Quoted(s) + x == Quoted(t) + y
    ensures s == t && x == y
  {
    hide Escape, Unquote;
    UnquoteEscaped(s, x);
    UnquoteEscaped(t, y);
    assert (Quoted(s) + x)[1..] == Closed(s, x);
    assert (Quoted(t) + y)[1..] == Closed(t, y);
  }

  // ---------------------------------------------------------------- numbers

  predicate IsNumberUnit(u: Unit) {
    0x30 <= u <= 0x39 || u == 0x2B || u == 0x2D || u == 0x2E || u == 0x45 || u == 0x65
  }

  predicate IsNumber(token: Text) {
    && |token| > 0 && (0x30 <= token[0] <= 0x39 || token[0] == 0x2D)
    && forall i :: 0 <= i < |token| ==> IsNumberUnit(token[i])
  }

  /** What may follow a value: nothing, a comma or a closing bracket. */
  predicate Delimited(x: Text) {
    |x| == 0 || x[0] == COMMA || x[0] == CLOSE_ARRAY || x[0] == CLOSE_OBJECT
  }

  lemma UnitAfter(s: Text, x: Text)
    ensures |x| > 0 ==> (s + x)[|s|] == x[0]
  {
  }

  lemma NumberIsPrefixFree(s: Text, t: Text, x: Text, y: Text)
    requires (forall i :: 0 <= i < |s| ==> IsNumberUnit(s[i])) && forall i :: 0 <= i < |t| ==> IsNumberUnit(t[i])
    requires Delimited(x) && Delimited(y) && s + x == t + y
    ensures s == t && x == y
  {
    UnitAfter(s, x);
    UnitAfter(t, y);
    assert |s| < |t| ==> IsNumberUnit(t[|s|]);
    assert |t| < |s| ==> IsNumberUnit(s[|t|]);
    assert |s| == |t|;
    assert s == (s + x)[..|s|] && t == (t + y)[..|t|];
    assert x == (s + x)[|s|..] && y == (t + y)[|t|..];
  }

  // ---------------------------------------------------------------- values

  /** Nothing undefined anywhere, and numbers as `JSON.stringify` writes them. */
  ghost predicate Printable(v: Json) {
    match v
    case Num(token) => IsNumber(token)
    case Arr(items) => forall i :: 0 <= i < |items| ==> Printable(items[i])
    case Obj(fields) => forall i :: 0 <= i < |fields| ==> fields[i].value.Some? && Printable(fields[i].value.value)
    case _ => true
  }

  ghost function Render(v: Json): Text
    requires Printable(v)
    decreases v, 0
  {
    match v
    case Null => [0x6E, 0x75, 0x6C, 0x6C]
    case Bool(b) => if b then [0x74, 0x72, 0x75, 0x65] else [0x66, 0x61, 0x6C, 0x73, 0x65]
    case Num(token) => token
    case Str(s) => Quoted(s)
    case Arr(items) => [0x5B] + RenderItems(v, items)
    case Obj(fields) => [0x7B] + RenderFields(v, fields)
  }

  /** The items and the closing bracket. */
  ghost function RenderItems(whole: Json, items: seq<Json>): Text
    requires forall i :: 0 <= i < |items| ==> items[i] < whole && Printable(items[i])
    decreases whole, 0, |items|
  {
    if |items| == 0 then [CLOSE_ARRAY]
    else Render(items[0]) + if |items| == 1 then [CLOSE_ARRAY] else [COMMA] + RenderItems(whole, items[1..])
  }

  ghost function RenderFields(whole: Json, fields: seq<Field>): Text
    requires forall i :: 0 <= i < |fields| ==> fields[i].value.Some? && fields[i].value.value < whole && Printable(fields[i].value.value)
    decreases whole, 0, |fields|
  {
    if |fields| == 0 then [CLOSE_OBJECT]
    else
      Quoted(fields[0].key) + [COLON] + Render(fields[0].value.value)
      + if |fields| == 1 then [CLOSE_OBJECT] else [COMMA] + RenderFields(whole, fields[1..])
  }

  /** The first unit tells what kind of value follows. */
  lemma FirstUnit(v: Json)
    requires Printable(v)
    ensures |Render(v)| > 0
    ensures var u := Render(v)[0];
            && u != CLOSE_ARRAY && u != CLOSE_OBJECT && u != COMMA
            && (u == 0x6E <==> v.Null?) && (u == 0x74 <==> v == Bool(true)) && (u == 0x66 <==> v == Bool(false))
            && (u == QUOTE <==> v.Str?) && (u == 0x5B <==> v.Arr?) && (u == 0x7B <==> v.Obj?)
  {
  }

  /** Canonical values have nothing undefined left. */
  lemma {:induction false} CanonicalIsPrintable(v: Json)
    requires NumbersOk(v)
    ensures Printable(Canonicalize(v))
    decreases v
  {
    match v
    case Arr(items) =>
      forall i | 0 <= i < |items|
        ensures Printable(CanonicalItems(items)[i])
      {
        CanonicalItemAt(items, i);
        CanonicalIsPrintable(items[i]);
      }
    case Obj(fields) =>
      var sorted := Sort(FieldOrder(), CanonicalFields(fields));
      MultisetMembers(sorted, CanonicalFields(fields));
      forall i | 0 <= i < |sorted|
        ensures sorted[i].value.Some? && Printable(sorted[i].value.value)
      {
        assert sorted[i] in sorted;
        var k := CanonicalFieldMember(fields, sorted[i]);
        CanonicalIsPrintable(fields[k].value.value);
      }
    case _ =>
  }

  /** Every number is one that `JSON.stringify` writes. */
  ghost predicate NumbersOk(v: Json) {
    match v
    case Num(token) => IsNumber(token)
    case Arr(items) => forall i :: 0 <= i < |items| ==> NumbersOk(items[i])
    case Obj(fields) => forall i :: 0 <= i < |fields| && fields[i].value.Some? ==> NumbersOk(fields[i].value.value)
    case _ => true
  }

  // ---------------------------------------------------------------- injectivity

  lemma SameTail(head: Text, a: Text, b: Text)
    requires head + a == head + b
    ensures a == b
  {
    assert a == (head + a)[|head|..] && b == (head + b)[|head|..];
  }

  /** A rendered value followed by a delimiter can be read in one way only. */
  lemma {:induction false} RenderIsPrefixFree(a: Json, b: Json, x: Text, y: Text)
    requires Printable(a) && Printable(b) && Delimited(x) && Delimited(y) && Render(a) + x == Render(b) + y
    ensures a == b && x == y
    decreases a, 1
  {
    FirstUnit(a);
    FirstUnit(b);
    assert (Render(a) + x)[0] == Render(a)[0] && (Render(b) + y)[0] == Render(b)[0];
    match a
    case Null => SameTail(Render(a), x, y);
    case Bool(_) => SameTail(Render(a), x, y);
    case Num(token) => NumberIsPrefixFree(token, b.token, x, y);
    case Str(s) => QuotedIsPrefixFree(s, b.s, x, y);
    case Arr(items) =>
      hide Render;
      ArrayOpens(a, x);
      ArrayOpens(b, y);
      ItemsArePrefixFree(a, items, b, b.items, x, y);
    case Obj(fields) =>
      hide Render;
      ObjectOpens(a, x);
      ObjectOpens(b, y);
      FieldsArePrefixFree(a, fields, b, b.fields, x, y);
  }

  lemma ArrayOpens(v: Json, x: Text)
    requires v.Arr? && Printable(v)
    ensures (Render(v) + x)[1..] == RenderItems(v, v.items) + x
  {
  }

  lemma ObjectOpens(v: Json, x: Text)
    requires v.Obj? && Printable(v)
    ensures (Render(v) + x)[1..] == RenderFields(v, v.fields) + x
  {
  }

  /** What follows the first item. */
  ghost function AfterItem(whole: Json, items: seq<Json>): Text
    requires |items| > 0 && forall i :: 0 <= i < |items| ==> items[i] < whole && Printable(items[i])
  {
    if |items| == 1 then [CLOSE_ARRAY] else [COMMA] + RenderItems(whole, items[1..])
  }

  lemma FirstItem(whole: Json, items: seq<Json>, x: Text)
    requires |items| > 0 && forall i :: 0 <= i < |items| ==> items[i] < whole && Printable(items[i])
    ensures RenderItems(whole, items) + x == Render(items[0]) + (AfterItem(whole, items) + x)
    ensures Delimited(AfterItem(whole, items) + x)
  {
    hide Render;
  }

  lemma {:induction false} ItemsArePrefixFree(wa: Json, a: seq<Json>, wb: Json, b: seq<Json>, x: Text, y: Text)
    requires forall i :: 0 <= i < |a| ==> a[i] < wa && Printable(a[i])
    requires forall i :: 0 <= i < |b| ==> b[i] < wb && Printable(b[i])
    requires RenderItems(wa, a) + x == RenderItems(wb, b) + y
    ensures a == b && x == y
    decreases wa, 0, |a|, 1
  {
    ItemsStart(wa, a, x);
    ItemsStart(wb, b, y);
    if |a| == 0 {
      SameTail([CLOSE_ARRAY], x, y);
    } else {
      hide Render, RenderItems, AfterItem;
      FirstItem(wa, a, x);
      FirstItem(wb, b, y);
      RenderIsPrefixFree(a[0], b[0], AfterItem(wa, a) + x, AfterItem(wb, b) + y);
      RestOfItems(wa, a, wb, b, x, y);
    }
  }

  lemma {:induction false} RestOfItems(wa: Json, a: seq<Json>, wb: Json, b: seq<Json>, x: Text, y: Text)
    requires |a| > 0 && |b| > 0 && a[0] == b[0]
    requires forall i :: 0 <= i < |a| ==> a[i] < wa && Printable(a[i])
    requires forall i :: 0 <= i < |b| ==> b[i] < wb && Printable(b[i])
    requires AfterItem(wa, a) + x == AfterItem(wb, b) + y
    ensures a == b && x == y
    decreases wa, 0, |a|, 0
  {
    hide RenderItems, Printable;
    assert (AfterItem(wa, a) + x)[0] == if |a| == 1 then CLOSE_ARRAY else COMMA;
    assert (AfterItem(wb, b) + y)[0] == if |b| == 1 then CLOSE_ARRAY else COMMA;
    if |a| == 1 {
      SameTail([CLOSE_ARRAY], x, y);
      assert a == [a[0]] && b == [b[0]];
    } else {
      assert (AfterItem(wa, a) + x)[1..] == RenderItems(wa, a[1..]) + x;
      assert (AfterItem(wb, b) + y)[1..] == RenderItems(wb, b[1..]) + y;
      ItemsArePrefixFree(wa, a[1..], wb, b[1..], x, y);
      assert a == [a[0]] + a[1..] && b == [b[0]] + b[1..];
    }
  }

  lemma ItemsStart(whole: Json, items: seq<Json>, x: Text)
    requires forall i :: 0 <= i < |items| ==> items[i] < whole && Printable(items[i])
    ensures |RenderItems(whole, items)| > 0
    ensures (RenderItems(whole, items) + x)[0] == CLOSE_ARRAY <==> |items| == 0
  {
    if |items| > 0 {
      FirstUnit(items[0]);
    }
  }

  ghost function AfterField(whole: Json, fields: seq<Field>): Text
    requires |fields| > 0
    requires forall i :: 0 <= i < |fields| ==> fields[i].value.Some? && fields[i].value.value < whole && Printable(fields[i].value.value)
  {
    if |fields| == 1 then [CLOSE_OBJECT] else [COMMA] + RenderFields(whole, fields[1..])
  }

  lemma FirstField(whole: Json, fields: seq<Field>, x: Text)
    requires |fields| > 0
    requires forall i :: 0 <= i < |fields| ==> fields[i].value.Some? && fields[i].value.value < whole && Printable(fields[i].value.value)
    ensures RenderFields(whole, fields) + x
            == Quoted(fields[0].key) + ([COLON] + (Render(fields[0].value.value) + (AfterField(whole, fields) + x)))
    ensures (RenderFields(whole, fields) + x)[0] == QUOTE
  {
  }

  lemma {:induction false} FieldsArePrefixFree(wa: Json, a: seq<Field>, wb: Json, b: seq<Field>, x: Text, y: Text)
    requires forall i :: 0 <= i < |a| ==> a[i].value.Some? && a[i].value.value < wa && Printable(a[i].value.value)
    requires forall i :: 0 <= i < |b| ==> b[i].value.Some? && b[i].value.value < wb && Printable(b[i].value.value)
    requires RenderFields(wa, a) + x == RenderFields(wb, b) + y
    ensures a == b && x == y
    decreases wa, 0, |a|, 1
  {
    hide Quoted;
    if |a| > 0 {
      FirstField(wa, a, x);
    }
    if |b| > 0 {
      FirstField(wb, b, y);
    }
    if |a| == 0 || |b| == 0 {
      EmptyFieldsStart(wa, a, x);
      EmptyFieldsStart(wb, b, y);
      SameTail([CLOSE_OBJECT], x, y);
    } else {
      hide Render, RenderFields, AfterField;
      var p, q := AfterField(wa, a), AfterField(wb, b);
      FirstFieldsAgree(a[0], b[0], p + x, q + y);
      RenderIsPrefixFree(a[0].value.value, b[0].value.value, p + x, q + y);
      RestOfFields(wa, a, wb, b, x, y);
    }
  }

  lemma EmptyFieldsStart(whole: Json, fields: seq<Field>, x: Text)
    requires forall i :: 0 <= i < |fields| ==> fields[i].value.Some? && fields[i].value.value < whole && Printable(fields[i].value.value)
    ensures |RenderFields(whole, fields)| > 0
    ensures (RenderFields(whole, fields) + x)[0] == CLOSE_OBJECT <==> |fields| == 0
  {
    if |fields| > 0 {
      FirstField(whole, fields, x);
    }
  }

  lemma FirstFieldsAgree(f: Field, g: Field, p: Text, q: Text)
    requires f.value.Some? && g.value.Some? && Printable(f.value.value) && Printable(g.value.value)
    requires Quoted(f.key) + ([COLON] + (Render(f.value.value) + p)) == Quoted(g.key) + ([COLON] + (Render(g.value.value) + q))
    ensures f.key == g.key && Render(f.value.value) + p == Render(g.value.value) + q
  {
    hide Quoted, Render;
    QuotedIsPrefixFree(f.key, g.key, [COLON] + (Render(f.value.value) + p), [COLON] + (Render(g.value.value) + q));
    SameTail([COLON], Render(f.value.value) + p, Render(g.value.value) + q);
  }

  lemma {:induction false} RestOfFields(wa: Json, a: seq<Field>, wb: Json, b: seq<Field>, x: Text, y: Text)
    requires |a| > 0 && |b| > 0 && a[0] == b[0]
    requires forall i :: 0 <= i < |a| ==> a[i].value.Some? && a[i].value.value < wa && Printable(a[i].value.value)
    requires forall i :: 0 <= i < |b| ==> b[i].value.Some? && b[i].value.value < wb && Printable(b[i].value.value)
    requires AfterField(wa, a) + x == AfterField(wb, b) + y
    ensures a == b && x == y
    decreases wa, 0, |a|, 0
  {
    hide RenderFields, Printable;
    assert (AfterField(wa, a) + x)[0] == if |a| == 1 then CLOSE_OBJECT else COMMA;
    assert (AfterField(wb, b) + y)[0] == if |b| == 1 then CLOSE_OBJECT else COMMA;
    if |a| == 1 {
      SameTail([CLOSE_OBJECT], x, y);
      assert a == [a[0]] && b == [b[0]];
    } else {
      assert (AfterField(wa, a) + x)[1..] == RenderFields(wa, a[1..]) + x;
      assert (AfterField(wb, b) + y)[1..] == RenderFields(wb, b[1..]) + y;
      FieldsArePrefixFree(wa, a[1..], wb, b[1..], x, y);
      assert a == [a[0]] + a[1..] && b == [b[0]] + b[1..];
    }
  }

  // ---------------------------------------------------------------- canonical text

  /** `canonicalJson`. */
  ghost function CanonicalText(v: Json): Text
    requires NumbersOk(v)
  {
    CanonicalIsPrintable(v);
    Render(Canonicalize(v))
  }

  /** Two values have the same canonical text exactly when they mean the same. */
  lemma CanonicalTextIsMeaning(a: Json, b: Json)
    requires WellFormed(a) && WellFormed(b) && NumbersOk(a) && NumbersOk(b)
    ensures CanonicalText(a) == CanonicalText(b) <==> MeaningOf(a) == MeaningOf(b)
  {
    CanonicalIsPrintable(a);
    CanonicalIsPrintable(b);
    if MeaningOf(a) == MeaningOf(b) {
      SameMeaningSameForm(a, b);
    }
    if CanonicalText(a) == CanonicalText(b) {
      assert Render(Canonicalize(a)) + [] == Render(Canonicalize(b)) + [];
      RenderIsPrefixFree(Canonicalize(a), Canonicalize(b), [], []);
      SameFormSameMeaning(a, b);
    }
  }
}
