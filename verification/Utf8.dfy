/**
 * UTF-8 as `Buffer.toString("utf8")` decodes it: each longest acceptable piece that is no complete
 * character becomes one U+FFFD (the UTF-8 decoder of the WHATWG Encoding Standard; Table 3-7 of the
 * Unicode Standard lists the acceptable second bytes).
 */
module Utf8 {
  import opened Common

  const REPLACEMENT := 0xFFFD as char

  predicate Continuation(x: Byte) {
    0x80 <= x < 0xC0
  }

  /** How many bytes a lead byte announces, 0 if it is none. */
  function Announced(x: Byte): nat {
    if x < 0x80 then 1
    else if 0xC2 <= x < 0xE0 then 2
    else if 0xE0 <= x < 0xF0 then 3
    else if 0xF0 <= x < 0xF5 then 4
    else 0
  }

  predicate SecondOk(lead: Byte, x: Byte) {
    && Continuation(x)
    && (lead == 0xE0 ==> 0xA0 <= x) && (lead == 0xED ==> x < 0xA0)
    && (lead == 0xF0 ==> 0x90 <= x) && (lead == 0xF4 ==> x < 0x90)
  }

  /** The length of the piece at the front that decodes to one character. */
  function Piece(b: seq<Byte>): (n: nat)
    requires |b| > 0
    ensures 1 <= n <= |b| && forall i :: 1 <= i < n ==> Continuation(b[i])
  {
    var k := Announced(b[0]);
    if k < 2 || |b| < 2 || !SecondOk(b[0], b[1]) then 1
    else if k == 2 || |b| < 3 || !Continuation(b[2]) then 2
    else if k == 3 || |b| < 4 || !Continuation(b[3]) then 3
    else 4
  }

  function First(b: seq<Byte>): char
    requires |b| > 0
  {
    if Announced(b[0]) != Piece(b) then REPLACEMENT
    else if Piece(b) == 1 then b[0] as char
    else if Piece(b) == 2 then WithSixBits(Low(b[0], 0xC0), Low(b[1], 0x80)) as char
    else if Piece(b) == 3 then WithSixBits(WithSixBits(Low(b[0], 0xE0), Low(b[1], 0x80)), Low(b[2], 0x80)) as char
    else WithSixBits(WithSixBits(WithSixBits(Low(b[0], 0xF0), Low(b[1], 0x80)), Low(b[2], 0x80)), Low(b[3], 0x80)) as char
  }

  /** What a byte carries beside its prefix bits. */
  function Low(x: Byte, prefix: Byte): int {
    x - prefix
  }

  function WithSixBits(high: int, low: int): int {
    high * 64 + low
  }

  function Decode(b: seq<Byte>): string {
    if |b| == 0 then "" else [First(b)] + Decode(b[Piece(b)..])
  }

  // ---------------------------------------------------------------- cutting a byte string

  /** Position `n` lies between two pieces, or at an end. */
  predicate BetweenPieces(b: seq<Byte>, n: nat) {
    n == 0 || (|b| > 0 && Piece(b) <= n && BetweenPieces(b[Piece(b)..], n - Piece(b)))
  }

  lemma PieceOfPrefix(b: seq<Byte>, n: nat)
    requires 0 < |b| && Piece(b) <= n <= |b|
    ensures Piece(b[..n]) == Piece(b) && First(b[..n]) == First(b)
  {
  }

  lemma DecodeNothing()
    ensures Decode([]) == ""
  {
  }

  lemma DecodeFront(b: seq<Byte>, n: nat)
    requires 0 < |b| && Piece(b) <= n <= |b|
    ensures Decode(b[..n]) == [First(b)] + Decode(b[Piece(b)..][..n - Piece(b)])
  {
    hide Piece, First;
    PieceOfPrefix(b, n);
    assert b[..n][Piece(b)..] == b[Piece(b)..][..n - Piece(b)];
  }

  /** Cutting between two pieces changes nothing. */
  lemma {:induction false} DecodeBetween(b: seq<Byte>, n: nat)
    requires n <= |b| && BetweenPieces(b, n)
    ensures Decode(b) == Decode(b[..n]) + Decode(b[n..])
    decreases n
  {
    hide Piece, First, Decode;
    if n == 0 {
      DecodeNothing();
      assert b[..0] == [] && b[0..] == b;
    } else {
      var rest, m := b[Piece(b)..], n - Piece(b);
      DecodeFront(b, n);
      DecodeFront(b, |b|);
      DecodeBetween(rest, m);
      assert b[n..] == rest[m..] && b[..|b|] == b && rest[..|rest|] == rest;
      assert [First(b)] + (Decode(rest[..m]) + Decode(rest[m..])) == ([First(b)] + Decode(rest[..m])) + Decode(rest[m..]);
    }
  }

  /** The bytes of a piece after its first one are replaced one by one. */
  lemma {:induction false} RestOfPiece(b: seq<Byte>, n: nat)
    requires 0 < |b| && 1 <= n <= Piece(b)
    ensures |Decode(b[n..])| == Piece(b) - n + |Decode(b[Piece(b)..])|
    decreases Piece(b) - n
  {
    if n < Piece(b) {
      RestOfPiece(b, n + 1);
      assert Continuation(b[n..][0]) && b[n..][1..] == b[n + 1..];
    }
  }

  /** Cutting through a piece makes the decoded text longer. */
  lemma {:induction false} DecodeThrough(b: seq<Byte>, n: nat)
    requires n <= |b| && !BetweenPieces(b, n)
    ensures |Decode(b[..n])| + |Decode(b[n..])| > |Decode(b)|
    decreases n
  {
    hide Piece, First;
    var k := Piece(b);
    if n < k {
      RestOfPiece(b, n);
      assert |Decode(b[..n])| >= 1;
    } else {
      DecodeFront(b, n);
      DecodeThrough(b[k..], n - k);
      assert b[n..] == b[k..][n - k..];
    }
  }

  lemma {:induction false} PiecesOfPrefix(b: seq<Byte>, n: nat, m: nat)
    requires m <= n <= |b| && BetweenPieces(b, n)
    ensures BetweenPieces(b[..n], m) <==> BetweenPieces(b, m)
    decreases m
  {
    hide Piece, First;
    if m > 0 {
      var k := Piece(b);
      PieceOfPrefix(b, n);
      if k <= m {
        PiecesOfPrefix(b[k..], n - k, m - k);
        assert b[..n][k..] == b[k..][..n - k];
      }
    }
  }

  // ---------------------------------------------------------------- reads

  function Stream<T>(buffers: seq<seq<T>>): seq<T> {
    if |buffers| == 0 then [] else Stream(buffers[..|buffers| - 1]) + buffers[|buffers| - 1]
  }

  /** Each read decoded by itself. */
  function DecodeEach(buffers: seq<seq<Byte>>): (r: seq<string>)
    ensures |r| == |buffers|
  {
    if |buffers| == 0 then [] else DecodeEach(buffers[..|buffers| - 1]) + [Decode(buffers[|buffers| - 1])]
  }

  lemma {:induction false} StreamGrows<T>(buffers: seq<seq<T>>, i: nat)
    requires i <= |buffers|
    ensures |Stream(buffers[..i])| <= |Stream(buffers)|
  {
    if i < |buffers| {
      StreamGrows(buffers[..|buffers| - 1], i);
      assert buffers[..|buffers| - 1][..i] == buffers[..i];
    } else {
      assert buffers[..i] == buffers;
    }
  }

  /** No read ends inside a piece of the stream. */
  ghost predicate CutsBetweenPieces(buffers: seq<seq<Byte>>) {
    forall i :: 0 <= i <= |buffers| ==> CutAt(buffers, i)
  }

  ghost predicate CutAt(buffers: seq<seq<Byte>>, i: nat)
    requires i <= |buffers|
  {
    BetweenPieces(Stream(buffers), |Stream(buffers[..i])|)
  }

  lemma CutsOfInit(buffers: seq<seq<Byte>>)
    requires |buffers| > 0
    ensures var n := |buffers| - 1; CutsBetweenPieces(buffers) <==> CutAt(buffers, n) && CutsBetweenPieces(buffers[..n])
  {
    hide BetweenPieces, Stream;
    var n := |buffers| - 1;
    LastCut(buffers);
    if CutAt(buffers, n) {
      forall i | 0 <= i <= n
        ensures CutAt(buffers, i) <==> CutAt(buffers[..n], i)
      {
        EarlierCut(buffers, i);
      }
    }
  }

  lemma LastCut(buffers: seq<seq<Byte>>)
    ensures CutAt(buffers, |buffers|)
  {
    hide BetweenPieces, Stream;
    assert buffers[..|buffers|] == buffers;
    AtEnd(Stream(buffers));
  }

  lemma EarlierCut(buffers: seq<seq<Byte>>, i: nat)
    requires i < |buffers| && CutAt(buffers, |buffers| - 1)
    ensures CutAt(buffers, i) <==> CutAt(buffers[..|buffers| - 1], i)
  {
    hide BetweenPieces;
    var init := buffers[..|buffers| - 1];
    assert init[..i] == buffers[..i] && Stream(buffers)[..|Stream(init)|] == Stream(init);
    StreamGrows(init, i);
    PiecesOfPrefix(Stream(buffers), |Stream(init)|, |Stream(init[..i])|);
  }

  lemma {:induction false} AtEnd(b: seq<Byte>)
    ensures BetweenPieces(b, |b|)
    decreases |b|
  {
    hide Piece;
    if |b| > 0 {
      AtEnd(b[Piece(b)..]);
    }
  }

  lemma {:induction false} ReadsDecode(buffers: seq<seq<Byte>>)
    ensures |Stream(DecodeEach(buffers))| >= |Decode(Stream(buffers))|
    ensures CutsBetweenPieces(buffers) ==> Stream(DecodeEach(buffers)) == Decode(Stream(buffers))
    ensures !CutsBetweenPieces(buffers) ==> |Stream(DecodeEach(buffers))| > |Decode(Stream(buffers))|
  {
    hide Decode, BetweenPieces, CutsBetweenPieces;
    if |buffers| == 0 {
      NoReads(buffers);
    } else {
      var n := |buffers| - 1;
      var b, at := Stream(buffers), |Stream(buffers[..n])|;
      ReadsDecode(buffers[..n]);
      CutsOfInit(buffers);
      assert b[..at] == Stream(buffers[..n]) && b[at..] == buffers[n];
      assert DecodeEach(buffers)[..n] == DecodeEach(buffers[..n]);
      if CutAt(buffers, n) {
        DecodeBetween(b, at);
      } else {
        DecodeThrough(b, at);
      }
    }
  }

  lemma NoReads(buffers: seq<seq<Byte>>)
    requires |buffers| == 0
    ensures CutsBetweenPieces(buffers) && Stream(DecodeEach(buffers)) == "" == Decode(Stream(buffers))
  {
  }

  /** Decoding read by read gives the text of the whole stream if and only if no read ends inside a piece. */
  lemma ReadsAreHarmlessIff(buffers: seq<seq<Byte>>)
    ensures Stream(DecodeEach(buffers)) == Decode(Stream(buffers)) <==> CutsBetweenPieces(buffers)
  {
    ReadsDecode(buffers);
  }

  // ---------------------------------------------------------------- well-formed streams

  function EncodeChar(c: char): (b: seq<Byte>)
    ensures 1 <= |b| <= 4
  {
    var n := c as int;
    if n < 0x80 then [n]
    else if n < 0x800 then [0xC0 + n / 64, 0x80 + n % 64]
    else if n < 0x10000 then [0xE0 + n / 64 / 64, 0x80 + n / 64 % 64, 0x80 + n % 64]
    else [0xF0 + n / 64 / 64 / 64, 0x80 + n / 64 / 64 % 64, 0x80 + n / 64 % 64, 0x80 + n % 64]
  }

  function Encode(text: string): seq<Byte> {
    if |text| == 0 then [] else EncodeChar(text[0]) + Encode(text[1..])
  }

  /** An encoded character is one piece, and decodes to itself. */
  lemma EncodedPiece(c: char, rest: seq<Byte>)
    ensures Piece(EncodeChar(c) + rest) == |EncodeChar(c)| && First(EncodeChar(c) + rest) == c
  {
  }

  /** Encoded text decodes to itself. */
  lemma {:induction false} DecodeEncode(text: string)
    ensures Decode(Encode(text)) == text
  {
    hide EncodeChar, Piece, First;
    if |text| > 0 {
      EncodedPiece(text[0], Encode(text[1..]));
      DecodeEncode(text[1..]);
      assert Encode(text)[|EncodeChar(text[0])|..] == Encode(text[1..]);
    }
  }

  /** In encoded text the places between pieces are those between characters. */
  lemma {:induction false} CutsOfText(text: string, n: nat)
    requires n <= |Encode(text)|
    ensures BetweenPieces(Encode(text), n) <==> exists k :: 0 <= k <= |text| && n == |Encode(text[..k])|
  {
    hide EncodeChar, Piece, First;
    if n == 0 {
      assert text[..0] == "" && n == |Encode(text[..0])|;
    } else {
      var k := |EncodeChar(text[0])|;
      EncodedPiece(text[0], Encode(text[1..]));
      assert Encode(text)[k..] == Encode(text[1..]);
      forall i | 1 <= i <= |text|
        ensures |Encode(text[..i])| == k + |Encode(text[1..][..i - 1])|
      {
        assert text[..i][1..] == text[1..][..i - 1];
      }
      if k <= n {
        CutsOfText(text[1..], n - k);
      }
      assert forall i :: 0 <= i <= |text| && n == |Encode(text[..i])| ==> k <= n;
      if BetweenPieces(Encode(text), n) {
        var i :| 0 <= i <= |text[1..]| && n - k == |Encode(text[1..][..i])|;
        assert text[1..][..i + 1 - 1] == text[1..][..i];
        assert n == |Encode(text[..i + 1])|;
      }
    }
  }

  /** Every buffer ends between two characters of the text, or at an end of it. */
  ghost predicate CutsBetweenCharacters(text: string, buffers: seq<seq<Byte>>) {
    forall i :: 0 <= i <= |buffers| ==> CharactersEndAt(text, |Stream(buffers[..i])|)
  }

  ghost predicate CharactersEndAt(text: string, n: nat) {
    exists k :: 0 <= k <= |text| && n == |Encode(text[..k])|
  }

  /** Encoded text survives being read in buffers if and only if no character is split. */
  lemma EncodedBuffersIff(text: string, buffers: seq<seq<Byte>>)
    requires Stream(buffers) == Encode(text)
    ensures CutsBetweenPieces(buffers) <==> CutsBetweenCharacters(text, buffers)
    ensures Stream(DecodeEach(buffers)) == text <==> CutsBetweenCharacters(text, buffers)
  {
    hide Decode, BetweenPieces, CharactersEndAt, Encode, Stream, CutsBetweenPieces;
    forall i | 0 <= i <= |buffers|
      ensures CutAt(buffers, i) <==> CharactersEndAt(text, |Stream(buffers[..i])|)
    {
      CutsOfEncoded(text, buffers, i);
    }
    assert CutsBetweenPieces(buffers) <==> CutsBetweenCharacters(text, buffers) by {
      SameCuts(text, buffers);
    }
    ReadsAreHarmlessIff(buffers);
    DecodeEncode(text);
  }

  lemma CutsOfEncoded(text: string, buffers: seq<seq<Byte>>, i: nat)
    requires Stream(buffers) == Encode(text) && i <= |buffers|
    ensures CutAt(buffers, i) <==> CharactersEndAt(text, |Stream(buffers[..i])|)
  {
    hide Encode, BetweenPieces;
    StreamGrows(buffers, i);
    CutsOfText(text, |Stream(buffers[..i])|);
  }

  lemma SameCuts(text: string, buffers: seq<seq<Byte>>)
    requires forall i :: 0 <= i <= |buffers| ==> (CutAt(buffers, i) <==> CharactersEndAt(text, |Stream(buffers[..i])|))
    ensures CutsBetweenPieces(buffers) <==> CutsBetweenCharacters(text, buffers)
  {
    hide CutAt, CharactersEndAt;
  }
}
