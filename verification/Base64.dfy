/** Node's base64 conversions and the canonical-form check of `decodeCanonicalBase64`. */
module Base64 {
  import opened Common

  type Six = x: int | 0 <= x < 64

  function Letter(v: Six): char {
    if v < 26 then ('A' as int + v) as char
    else if v < 52 then ('a' as int + (v - 26)) as char
    else if v < 62 then ('0' as int + (v - 52)) as char
    else if v == 62 then '+'
    else '/'
  }

  /** The six bits of a base64 letter; the URL-safe letters are accepted as Node accepts them. */
  function Sextet(c: char): Option<Six> {
    if 'A' <= c <= 'Z' then Some(c as int - 'A' as int)
    else if 'a' <= c <= 'z' then Some(c as int - 'a' as int + 26)
    else if '0' <= c <= '9' then Some(c as int - '0' as int + 52)
    else if c == '+' || c == '-' then Some(62)
    else if c == '/' || c == '_' then Some(63)
    else None
  }

  /** Groups of three bytes as four six-bit values; a short last group gives two or three. */
  function Split(b: seq<Byte>): seq<Six> {
    if |b| == 0 then []
    else if |b| == 1 then [b[0] / 4, b[0] % 4 * 16]
    else if |b| == 2 then [b[0] / 4, b[0] % 4 * 16 + b[1] / 16, b[1] % 16 * 4]
    else [b[0] / 4, b[0] % 4 * 16 + b[1] / 16, b[1] % 16 * 4 + b[2] / 64, b[2] % 64] + Split(b[3..])
  }

  function Assemble(v: seq<Six>): seq<Byte> {
    if |v| < 2 then []
    else if |v| == 2 then [Join(v[0], 4, v[1], 16)]
    else if |v| == 3 then [Join(v[0], 4, v[1], 16), Join(v[1] % 16, 16, v[2], 4)]
    else
      [Join(v[0], 4, v[1], 16), Join(v[1] % 16, 16, v[2], 4), Join(v[2] % 4, 64, v[3], 1)] + Assemble(v[4..])
  }

  /** The low bits `hi` above the top bits of `lo`. */
  function Join(hi: Six, shift: int, lo: Six, drop: int): Byte
    requires (shift, drop) in {(4, 16), (16, 4), (64, 1)}
    requires shift * hi < 256
  {
    if shift == 4 then hi * 4 + lo / 16 else if shift == 16 then hi * 16 + lo / 4 else hi * 64 + lo
  }

  function Letters(v: seq<Six>): string {
    if v == [] then "" else [Letter(v[0])] + Letters(v[1..])
  }

  function Padding(length: nat): string {
    if length % 3 == 1 then "==" else if length % 3 == 2 then "=" else ""
  }

  /** `buffer.toString("base64")`. */
  function Encode(b: seq<Byte>): string {
    Letters(Split(b)) + Padding(|b|)
  }

  /** Lenient reading: foreign characters are skipped and padding ends the text. */
  function Sextets(s: string): seq<Six> {
    if s == "" || s[0] == '=' then []
    else match Sextet(s[0])
      case Some(v) => [v] + Sextets(s[1..])
      case None => Sextets(s[1..])
  }

  /** `Buffer.from(text, "base64")`. */
  function Decode(s: string): seq<Byte> {
    Assemble(Sextets(s))
  }

  lemma LetterRoundTrip(v: Six)
    ensures Sextet(Letter(v)) == Some(v) && Letter(v) != '='
  {
  }

  lemma SextetsUnfold(v: Six, rest: string)
    ensures Sextets([Letter(v)] + rest) == [v] + Sextets(rest)
  {
    LetterRoundTrip(v);
    hide Letter, Sextet;
    var s := [Letter(v)] + rest;
    assert s[1..] == rest;
  }

  lemma SextetsEnd(pad: string)
    requires pad == "" || pad[0] == '='
    ensures Sextets(pad) == []
  {
  }

  lemma {:induction false} SextetsOfLetters(v: seq<Six>, pad: string)
    requires pad == "" || pad[0] == '='
    ensures Sextets(Letters(v) + pad) == v
  {
    hide Sextets, Letter, Sextet;
    SextetsEnd(pad);
    if v == [] {
      assert Letters(v) + pad == pad;
    } else {
      SextetsOfLetters(v[1..], pad);
      SextetsUnfold(v[0], Letters(v[1..]) + pad);
      assert Letters(v) + pad == [Letter(v[0])] + (Letters(v[1..]) + pad);
    }
  }

  lemma {:induction false} AssembleSplit(b: seq<Byte>)
    ensures Assemble(Split(b)) == b
  {
    if |b| >= 3 {
      var quad := [b[0] / 4, b[0] % 4 * 16 + b[1] / 16, b[1] % 16 * 4 + b[2] / 64, b[2] % 64];
      AssembleSplit(b[3..]);
      assert Split(b)[4..] == Split(b[3..]);
      assert b == [b[0], b[1], b[2]] + b[3..];
    }
  }

  lemma DecodeEncode(b: seq<Byte>)
    ensures Decode(Encode(b)) == b
  {
    SextetsOfLetters(Split(b), Padding(|b|));
    AssembleSplit(b);
  }

  /** The strict reader of provisional chunks: re-encoding must reproduce the text. */
  function DecodeCanonical(s: string): Option<seq<Byte>> {
    var decoded := Decode(s);
    if Encode(decoded) == s then Some(decoded) else None
  }

  /** Exactly the encodings are accepted, and each is read back as the bytes it came from. */
  lemma DecodeCanonicalIsInverse(s: string, b: seq<Byte>)
    ensures DecodeCanonical(s) == Some(b) <==> s == Encode(b)
  {
    DecodeEncode(b);
  }

  // ---------------------------------------------------------------- as RFC 4648 describes it

  /** Section 4 of RFC 4648: four letters carry the 24 bits of three bytes, the highest first. */
  lemma {:induction false} FourCarryThree(b: seq<Byte>, i: nat)
    requires 3 * i + 3 <= |b|
    ensures |Split(b)| >= 4 * i + 4
    ensures var v := Split(b)[4 * i..4 * i + 4];
            0x4_0000 * (v[0] as int) + 0x1000 * (v[1] as int) + 0x40 * (v[2] as int) + v[3]
            == 0x1_0000 * (b[3 * i] as int) + 0x100 * (b[3 * i + 1] as int) + b[3 * i + 2]
  {
    if i > 0 {
      FourCarryThree(b[3..], i - 1);
      assert Split(b)[4..] == Split(b[3..]);
      assert Split(b)[4 * i..4 * i + 4] == Split(b[3..])[4 * (i - 1)..4 * (i - 1) + 4];
    }
  }

  lemma {:induction false} LettersLength(v: seq<Six>)
    ensures |Letters(v)| == |v|
  {
    if v != [] {
      LettersLength(v[1..]);
    }
  }

  lemma {:induction false} SplitLength(b: seq<Byte>)
    ensures |Split(b)| + |Padding(|b|)| == (|b| + 2) / 3 * 4
  {
    if |b| >= 3 {
      SplitLength(b[3..]);
    }
  }

  /** Every encoding fills whole groups of four letters. */
  lemma EncodingFillsGroups(b: seq<Byte>)
    ensures |Encode(b)| == (|b| + 2) / 3 * 4
  {
    LettersLength(Split(b));
    SplitLength(b);
  }
}
