/** Splitting a comment into lines and finding the blocks between two marker lines. */
module WorkpadLines {
  import opened CanonicalJson
  import opened PrettyJson
  import opened WorkpadView

  // ---------------------------------------------------------------- lines

  function SplitAtNewlines(text: Text): (lines: seq<Text>)
    ensures |lines| > 0
  {
    if |text| == 0 then [[]]
    else Push(text[0], SplitAtNewlines(text[1..]))
  }

  function Push(u: Unit, lines: seq<Text>): (r: seq<Text>)
    requires |lines| > 0
    ensures |r| > 0
  {
    if u == NEWLINE then [[]] + lines else [[u] + lines[0]] + lines[1..]
  }

  function WithoutReturn(line: Text): Text {
    if |line| > 0 && line[|line| - 1] == RETURN then line[..|line| - 1] else line
  }

  function WithoutReturns(lines: seq<Text>): (r: seq<Text>)
    ensures |r| == |lines|
  {
    seq(|lines|, i requires 0 <= i < |lines| => WithoutReturn(lines[i]))
  }

  /** `text.split(/\r?\n/)` */
  function Lines(text: Text): (lines: seq<Text>)
    ensures |lines| > 0
  {
    var all := SplitAtNewlines(text);
    WithoutReturns(all[..|all| - 1]) + [all[|all| - 1]]
  }

  /** `lines.join("\n")` */
  function Join(lines: seq<Text>): Text
    requires |lines| > 0
  {
    if |lines| == 1 then lines[0] else lines[0] + [NEWLINE] + Join(lines[1..])
  }

  lemma PushConcat(u: Unit, a: seq<Text>, b: seq<Text>)
    requires |a| > 0
    ensures Push(u, a + b) == Push(u, a) + b
  {
  }

  lemma {:induction false} SplitConcat(a: Text, b: Text)
    ensures SplitAtNewlines(a + [NEWLINE] + b) == SplitAtNewlines(a) + SplitAtNewlines(b)
  {
    var t := a + [NEWLINE] + b;
    if |a| == 0 {
      assert t[1..] == b;
    } else {
      hide Push;
      SplitConcat(a[1..], b);
      assert t[1..] == a[1..] + [NEWLINE] + b;
      PushConcat(a[0], SplitAtNewlines(a[1..]), SplitAtNewlines(b));
    }
  }

  lemma {:induction false} SplitLine(line: Text)
    requires NEWLINE !in line
    ensures SplitAtNewlines(line) == [line]
  {
    if |line| > 0 {
      SplitLine(line[1..]);
      assert line == [line[0]] + line[1..];
    }
  }

  /** Joined lines split again, whatever follows them. */
  lemma {:induction false} SplitJoin(lines: seq<Text>)
    requires |lines| > 0 && forall i :: 0 <= i < |lines| ==> NEWLINE !in lines[i]
    ensures SplitAtNewlines(Join(lines)) == lines
  {
    SplitLine(lines[0]);
    if |lines| > 1 {
      SplitJoin(lines[1..]);
      SplitConcat(lines[0], Join(lines[1..]));
      assert lines == [lines[0]] + lines[1..];
    } else {
      assert lines == [lines[0]];
    }
  }

  // ---------------------------------------------------------------- marker lines

  /** The white space that `trim` removes. */
  predicate IsSpace(u: Unit) {
    0x09 <= u <= 0x0D || u == SPACE || u == 0xA0 || u == 0x1680 || 0x2000 <= u <= 0x200A || u == 0x2028 || u == 0x2029
    || u == 0x202F || u == 0x205F || u == 0x3000 || u == 0xFEFF
  }

  /** A text with visible ends that fits on one line. */
  predicate IsMark(m: Text) {
    |m| > 0 && OneLine(m) && !IsSpace(m[0]) && !IsSpace(m[|m| - 1])
  }

  ghost predicate OccursAt(text: Text, m: Text, i: int) {
    0 <= i && i + |m| <= |text| && text[i..i + |m|] == m
  }

  /** `[ \t]*m[ \t]*` */
  ghost predicate Stands(line: Text, m: Text) {
    exists i :: OccursAt(line, m, i) && forall k :: 0 <= k < i || i + |m| <= k < |line| ==> IsBlank(line[k])
  }

  /** `line.trim() === m` */
  ghost predicate StandsTrimmed(line: Text, m: Text) {
    exists i :: OccursAt(line, m, i) && forall k :: 0 <= k < i || i + |m| <= k < |line| ==> IsSpace(line[k])
  }

  ghost function Count(lines: seq<Text>, m: Text): nat {
    if |lines| == 0 then 0 else (if Stands(lines[0], m) then 1 else 0) + Count(lines[1..], m)
  }

  /** `countStandaloneMarkers` */
  ghost function CountTrimmed(lines: seq<Text>, m: Text): nat {
    if |lines| == 0 then 0 else (if StandsTrimmed(lines[0], m) then 1 else 0) + CountTrimmed(lines[1..], m)
  }

  lemma StandsIsTrimmed(line: Text, m: Text)
    requires Stands(line, m)
    ensures StandsTrimmed(line, m)
  {
    var i :| OccursAt(line, m, i) && forall k :: 0 <= k < i || i + |m| <= k < |line| ==> IsBlank(line[k]);
    assert forall k :: 0 <= k < i || i + |m| <= k < |line| ==> IsSpace(line[k]);
  }

  lemma {:induction false} CountConcat(a: seq<Text>, b: seq<Text>, m: Text)
    ensures Count(a + b, m) == Count(a, m) + Count(b, m)
    ensures CountTrimmed(a + b, m) == CountTrimmed(a, m) + CountTrimmed(b, m)
  {
    hide Stands, StandsTrimmed;
    if |a| == 0 {
      assert a + b == b;
    } else {
      CountConcat(a[1..], b, m);
      assert (a + b)[1..] == a[1..] + b;
    }
  }

  lemma {:induction false} CountAtMostTrimmed(lines: seq<Text>, m: Text)
    ensures Count(lines, m) <= CountTrimmed(lines, m)
  {
    hide Stands, StandsTrimmed;
    if |lines| > 0 {
      CountAtMostTrimmed(lines[1..], m);
      if Stands(lines[0], m) {
        StandsIsTrimmed(lines[0], m);
      }
    }
  }

  lemma {:induction false} CountNone(lines: seq<Text>, m: Text)
    requires forall i :: 0 <= i < |lines| ==> !StandsTrimmed(lines[i], m)
    ensures CountTrimmed(lines, m) == 0
  {
    hide StandsTrimmed;
    if |lines| > 0 {
      CountNone(lines[1..], m);
    }
  }

  /** A carriage return at the end of a line does not change which mark it is after trimming. */
  lemma TrimmedWithReturn(line: Text, m: Text)
    requires IsMark(m)
    ensures StandsTrimmed(line + [RETURN], m) <==> StandsTrimmed(line, m)
    ensures !Stands(line + [RETURN], m)
  {
    var r := line + [RETURN];
    if StandsTrimmed(line, m) {
      var i :| OccursAt(line, m, i) && forall k :: 0 <= k < i || i + |m| <= k < |line| ==> IsSpace(line[k]);
      assert OccursAt(r, m, i) && forall k :: 0 <= k < i || i + |m| <= k < |r| ==> IsSpace(r[k]);
    }
    forall i | OccursAt(r, m, i)
      ensures i + |m| <= |line| && OccursAt(line, m, i)
    {
      assert r[i..i + |m|][|m| - 1] == r[i + |m| - 1];
    }
    if StandsTrimmed(r, m) {
      var i :| OccursAt(r, m, i) && forall k :: 0 <= k < i || i + |m| <= k < |r| ==> IsSpace(r[k]);
      assert forall k :: 0 <= k < |line| ==> line[k] == r[k];
      assert OccursAt(line, m, i);
    }
    assert !IsBlank(r[|line|]);
  }

  /** The mark itself is a marker line. */
  lemma MarkStands(m: Text)
    ensures Stands(m, m) && StandsTrimmed(m, m)
  {
    assert OccursAt(m, m, 0);
  }

  // ---------------------------------------------------------------- blocks

  /** The first closing line at least two lines on, or the length. */
  ghost function Closing(lines: seq<Text>, m: Text, from: nat := 2): (k: nat)
    requires 2 <= from
    ensures k < |lines| ==> k >= from && Stands(lines[k], m)
    ensures forall i :: from <= i < k && i < |lines| ==> !Stands(lines[i], m)
    decreases |lines| - from
  {
    if from >= |lines| then |lines| else if Stands(lines[from], m) then from else Closing(lines, m, from + 1)
  }

  lemma ClosingIs(lines: seq<Text>, m: Text, k: nat)
    requires 2 <= k < |lines| && Stands(lines[k], m) && forall i :: 2 <= i < k ==> !Stands(lines[i], m)
    ensures Closing(lines, m) == k
  {
    hide Stands;
    var c := Closing(lines, m);
    ClosingBound(lines, m, 2);
    assert c <= |lines|;
  }

  lemma {:induction false} ClosingBound(lines: seq<Text>, m: Text, from: nat)
    requires 2 <= from
    ensures Closing(lines, m, from) <= |lines|
    decreases |lines| - from
  {
    if from < |lines| && !Stands(lines[from], m) {
      ClosingBound(lines, m, from + 1);
    }
  }

  /**
   * What a global match of `(?:^|\r?\n)[ \t]*a[ \t]*\r?\n([\s\S]*?)\r?\n[ \t]*b[ \t]*(?=\r?\n|$)`
   * captures, as lines: from an opening line to the first closing line at least two lines on.
   */
  ghost function Blocks(lines: seq<Text>, a: Text, b: Text): (blocks: seq<seq<Text>>)
    ensures |blocks| <= |lines| && forall i :: 0 <= i < |blocks| ==> |blocks[i]| > 0
    decreases |lines|
  {
    if |lines| == 0 then []
    else
      var k := Closing(lines, b);
      if Stands(lines[0], a) && k < |lines| then [lines[1..k]] + Blocks(lines[k + 1..], a, b)
      else Blocks(lines[1..], a, b)
  }

  lemma BlocksOpen(lines: seq<Text>, a: Text, b: Text, k: nat)
    requires 2 <= k < |lines| && Stands(lines[0], a) && Stands(lines[k], b)
    requires forall i :: 2 <= i < k ==> !Stands(lines[i], b)
    ensures Blocks(lines, a, b) == [lines[1..k]] + Blocks(lines[k + 1..], a, b)
  {
    hide Stands, Closing;
    ClosingIs(lines, b, k);
  }

  lemma BlocksShut(lines: seq<Text>, a: Text, b: Text)
    requires |lines| > 0
    requires !Stands(lines[0], a) || forall i :: 2 <= i < |lines| ==> !Stands(lines[i], b)
    ensures Blocks(lines, a, b) == Blocks(lines[1..], a, b)
  {
    hide Stands, Closing;
  }

  /** Every block uses up one opening and one closing line. */
  lemma {:induction false} BlocksBound(lines: seq<Text>, a: Text, b: Text)
    ensures |Blocks(lines, a, b)| <= Count(lines, a) && |Blocks(lines, a, b)| <= Count(lines, b)
    decreases |lines|
  {
    hide Stands, Closing;
    if |lines| > 0 {
      var k := Closing(lines, b);
      if Stands(lines[0], a) && k < |lines| {
        BlocksBound(lines[k + 1..], a, b);
        CountAround(lines, k, a);
        CountAround(lines, k, b);
      } else {
        BlocksBound(lines[1..], a, b);
      }
    }
  }

  /** Both ends of a stretch are counted beside what follows it. */
  lemma CountAround(lines: seq<Text>, k: nat, m: Text)
    requires 1 <= k < |lines|
    ensures Count(lines, m) >= (if Stands(lines[0], m) then 1 else 0) + Count(lines[k + 1..], m)
    ensures Count(lines, m) >= (if Stands(lines[k], m) then 1 else 0) + Count(lines[k + 1..], m)
  {
    hide Stands;
    assert lines == lines[..k] + ([lines[k]] + lines[k + 1..]);
    CountConcat(lines[..k], [lines[k]] + lines[k + 1..], m);
    assert ([lines[k]] + lines[k + 1..])[1..] == lines[k + 1..];
    assert Count(lines[..k], m) >= if Stands(lines[0], m) then 1 else 0;
  }

  /** When every opening line belongs to a block, what follows is scanned on its own. */
  lemma {:induction false} BlocksAppend(x: seq<Text>, y: seq<Text>, a: Text, b: Text)
    requires Count(x, a) == |Blocks(x, a, b)|
    ensures Blocks(x + y, a, b) == Blocks(x, a, b) + Blocks(y, a, b)
    decreases |x|
  {
    hide Stands, Closing, Count, Blocks;
    if |x| == 0 {
      assert x + y == y;
    } else if Stands(x[0], a) && Closing(x, b) < |x| {
      var k := Closing(x, b);
      NoOpeningLeftAfter(x, k, a, b);
      BlocksAppend(x[k + 1..], y, a, b);
      assert (x + y)[k + 1..] == x[k + 1..] + y && (x + y)[1..k] == x[1..k];
      BlocksOpen(x + y, a, b, k);
    } else {
      NoOpeningLeft(x, a, b);
      BlocksAppend(x[1..], y, a, b);
      assert (x + y)[1..] == x[1..] + y;
      BlocksShut(x + y, a, b);
    }
  }

  lemma NoOpeningLeftAfter(x: seq<Text>, k: nat, a: Text, b: Text)
    requires 0 < k < |x| && Stands(x[0], a) && Closing(x, b) == k && Count(x, a) == |Blocks(x, a, b)|
    ensures Count(x[k + 1..], a) == |Blocks(x[k + 1..], a, b)| && Blocks(x, a, b) == [x[1..k]] + Blocks(x[k + 1..], a, b)
  {
    hide Stands, Closing, Count;
    CountAround(x, k, a);
    BlocksBound(x[k + 1..], a, b);
  }

  lemma NoOpeningLeft(x: seq<Text>, a: Text, b: Text)
    requires |x| > 0 && Count(x, a) == |Blocks(x, a, b)| && !(Stands(x[0], a) && Closing(x, b) < |x|)
    ensures !Stands(x[0], a) && Count(x[1..], a) == |Blocks(x[1..], a, b)| && Blocks(x, a, b) == Blocks(x[1..], a, b)
  {
    hide Stands, Closing;
    BlocksBound(x[1..], a, b);
  }

  /** A last line that closes nothing does not matter. */
  lemma {:induction false} BlocksLastLine(x: seq<Text>, u: Text, a: Text, b: Text)
    requires !Stands(u, b)
    ensures Blocks(x + [u], a, b) == Blocks(x, a, b)
    decreases |x|
  {
    hide Stands, Closing, Blocks;
    var xu := x + [u];
    if |x| == 0 {
      assert xu[1..] == [] == x;
      BlocksShut(xu, a, b);
    } else if Stands(x[0], a) && Closing(x, b) < |x| {
      var k := Closing(x, b);
      assert xu[k + 1..] == x[k + 1..] + [u] && xu[1..k] == x[1..k];
      BlocksLastLine(x[k + 1..], u, a, b);
      BlocksOpen(x, a, b, k);
      BlocksOpen(xu, a, b, k);
    } else {
      assert xu[1..] == x[1..] + [u];
      BlocksLastLine(x[1..], u, a, b);
      NothingCloses(x, b);
      BlocksShut(x, a, b);
      BlocksShut(xu, a, b);
    }
  }

  lemma NothingCloses(x: seq<Text>, b: Text)
    ensures Closing(x, b) >= |x| ==> forall i :: 2 <= i < |x| ==> !Stands(x[i], b)
  {
    hide Stands, Closing;
  }

  /** One block and whatever follows it. */
  lemma BlocksOfOne(opening: Text, inner: seq<Text>, closing: Text, after: seq<Text>, a: Text, b: Text)
    requires |inner| > 0 && Stands(opening, a) && Stands(closing, b)
    requires forall i :: 0 <= i < |inner| ==> !Stands(inner[i], b)
    ensures Blocks([opening] + inner + [closing] + after, a, b) == [inner] + Blocks(after, a, b)
  {
    hide Stands, Blocks;
    var lines := [opening] + inner + [closing] + after;
    var k := |inner| + 1;
    assert forall i :: 2 <= i < k ==> lines[i] == inner[i - 1];
    BlocksOpen(lines, a, b, k);
    assert lines[1..k] == inner && lines[k + 1..] == after;
  }

  /** Lines that open nothing are passed over. */
  lemma {:induction false} BlocksSkip(before: seq<Text>, rest: seq<Text>, a: Text, b: Text)
    requires forall i :: 0 <= i < |before| ==> !Stands(before[i], a)
    ensures Blocks(before + rest, a, b) == Blocks(rest, a, b)
  {
    hide Stands, Blocks;
    if |before| == 0 {
      assert before + rest == rest;
    } else {
      BlocksSkip(before[1..], rest, a, b);
      assert (before + rest)[1..] == before[1..] + rest;
      BlocksShut(before + rest, a, b);
    }
  }
}
