/**
 * The Bloom filter in which a session ledger remembers the request ids whose records it
 * dropped. It is kept as a base64 string; its meaning is a set of bit positions.
 */
module RetiredFilter {
  import opened Common
  import opened Base64

  const FILTER_BYTES := 8192
  const FILTER_BITS := 65536

  function ReadUInt32BE(d: Digest, offset: nat): nat
    requires offset + 4 <= 32
  {
    0x100_0000 * (d[offset] as int) + 0x1_0000 * (d[offset + 1] as int) + 0x100 * (d[offset + 2] as int)
    + d[offset + 3] as int
  }

  function RetiredFilterBits(d: Digest): (bits: seq<nat>)
    ensures |bits| == 4 && forall k :: 0 <= k < 4 ==> bits[k] < FILTER_BITS
  {
    [ReadUInt32BE(d, 0) % FILTER_BITS, ReadUInt32BE(d, 4) % FILTER_BITS,
     ReadUInt32BE(d, 8) % FILTER_BITS, ReadUInt32BE(d, 12) % FILTER_BITS]
  }

  /** Bit `k` of a number, as `x & (1 << k)` tests it. */
  predicate HasBit(x: nat, k: nat) {
    if k == 0 then x % 2 == 1 else HasBit(x / 2, k - 1)
  }

  /** `x | 1 << k`, carried down to the tested bit. */
  function WithBit(x: nat, k: nat): nat {
    if k == 0 then x / 2 * 2 + 1 else WithBit(x / 2, k - 1) * 2 + x % 2
  }

  function Pow2(n: nat): nat {
    if n == 0 then 1 else 2 * Pow2(n - 1)
  }

  lemma {:induction false} WithBitStaysInWidth(x: nat, k: nat, n: nat)
    requires k < n && x < Pow2(n)
    ensures WithBit(x, k) < Pow2(n)
  {
    if k > 0 {
      WithBitStaysInWidth(x / 2, k - 1, n - 1);
    }
  }

  lemma {:induction false} WithBitSets(x: nat, k: nat, j: nat)
    ensures HasBit(WithBit(x, k), j) <==> HasBit(x, j) || j == k
  {
    if k > 0 && j > 0 {
      WithBitSets(x / 2, k - 1, j - 1);
    }
  }

  lemma {:induction false} ZeroHasNoBit(k: nat)
    ensures !HasBit(0, k)
  {
    if k > 0 {
      ZeroHasNoBit(k - 1);
    }
  }

  function OrBit(x: Byte, k: nat): Byte
    requires k < 8
  {
    WithBitStaysInWidth(x, k, 8);
    WithBit(x, k)
  }

  predicate TestBit(bytes: seq<Byte>, bit: nat)
    requires |bytes| == FILTER_BYTES && bit < FILTER_BITS
  {
    HasBit(bytes[bit / 8], bit % 8)
  }

  function SetBit(bytes: seq<Byte>, bit: nat): seq<Byte>
    requires |bytes| == FILTER_BYTES && bit < FILTER_BITS
  {
    bytes[bit / 8 := OrBit(bytes[bit / 8], bit % 8)]
  }

  lemma SetBitTest(bytes: seq<Byte>, bit: nat, other: nat)
    requires |bytes| == FILTER_BYTES && bit < FILTER_BITS && other < FILTER_BITS
    ensures TestBit(SetBit(bytes, bit), other) <==> TestBit(bytes, other) || other == bit
  {
    if bit / 8 == other / 8 {
      WithBitSets(bytes[bit / 8], bit % 8, other % 8);
      assert bit == 8 * (bit / 8) + bit % 8 && other == 8 * (other / 8) + other % 8;
    }
  }

  /** What `isRetiredRequestFilter` accepts: canonical base64 of exactly 8192 bytes. */
  predicate IsRetiredRequestFilter(encoded: string) {
    |Decode(encoded)| == FILTER_BYTES && Encode(Decode(encoded)) == encoded
  }

  predicate FilterOk(filter: Option<string>) {
    filter.Some? ==> IsRetiredRequestFilter(filter.value)
  }

  /** The bit positions a stored filter has set; no filter sets none. */
  ghost function SetPositions(filter: Option<string>): set<nat>
    requires FilterOk(filter)
  {
    if filter.None? then {} else
    set bit: nat | bit < FILTER_BITS && TestBit(Decode(filter.value), bit)
  }

  /** `retiredFilterHas`: every bit of the id is set. */
  predicate RetiredFilterHas(filter: Option<string>, d: Digest)
    requires FilterOk(filter)
  {
    filter.Some? &&
    forall bit | bit in RetiredFilterBits(d) :: TestBit(Decode(filter.value), bit)
  }

  lemma HasMeansAllPositionsSet(filter: Option<string>, d: Digest)
    requires FilterOk(filter)
    ensures RetiredFilterHas(filter, d) <==>
            filter.Some? && Elements(RetiredFilterBits(d)) <= SetPositions(filter)
  {
    if filter.Some? {
      var bits, bytes := RetiredFilterBits(d), Decode(filter.value);
      assert forall bit :: bit in bits <==> bit in Elements(bits);
      assert forall bit: nat :: bit in SetPositions(filter) <==> bit < FILTER_BITS && TestBit(bytes, bit);
    }
  }

  lemma ZeroBytesTestNothing(bytes: seq<Byte>, bit: nat)
    requires |bytes| == FILTER_BYTES && bit < FILTER_BITS
    requires forall k :: 0 <= k < FILTER_BYTES ==> bytes[k] == 0
    ensures !TestBit(bytes, bit)
  {
    ZeroHasNoBit(bit % 8);
  }

  function StartBytes(encoded: Option<string>): (bytes: seq<Byte>)
    requires FilterOk(encoded)
    ensures |bytes| == FILTER_BYTES
  {
    if encoded.Some? then Decode(encoded.value) else seq(FILTER_BYTES, _ => 0)
  }

  function SetBits(bytes: seq<Byte>, bits: seq<nat>): (r: seq<Byte>)
    requires |bytes| == FILTER_BYTES && forall k :: 0 <= k < |bits| ==> bits[k] < FILTER_BITS
    ensures |r| == FILTER_BYTES
    decreases |bits|
  {
    if |bits| == 0 then bytes else SetBits(SetBit(bytes, bits[0]), bits[1..])
  }

  lemma {:induction false} SetBitsTest(bytes: seq<Byte>, bits: seq<nat>, other: nat)
    requires |bytes| == FILTER_BYTES && other < FILTER_BITS
    requires forall k :: 0 <= k < |bits| ==> bits[k] < FILTER_BITS
    ensures TestBit(SetBits(bytes, bits), other) <==> TestBit(bytes, other) || other in bits
    decreases |bits|
  {
    if |bits| > 0 {
      SetBitTest(bytes, bits[0], other);
      SetBitsTest(SetBit(bytes, bits[0]), bits[1..], other);
      assert bits == [bits[0]] + bits[1..];
    }
  }

  function Added(encoded: Option<string>, d: Digest): string
    requires FilterOk(encoded)
  {
    Encode(SetBits(StartBytes(encoded), RetiredFilterBits(d)))
  }

  /** `retiredFilterAdd`: sets the four bits in a decoded copy of the filter. */
  method RetiredFilterAdd(encoded: Option<string>, d: Digest) returns (result: string)
    requires FilterOk(encoded)
    ensures result == Added(encoded, d)
  {
    var start := StartBytes(encoded);
    var filter := new Byte[FILTER_BYTES](i requires 0 <= i < FILTER_BYTES => start[i]);
    assert filter[..] == start;
    var bits := RetiredFilterBits(d);
    var next := 0;
    while next < |bits|
      invariant 0 <= next <= |bits|
      invariant SetBits(filter[..], bits[next..]) == SetBits(start, bits)
    {
      var bit := bits[next];
      assert bits[next..][1..] == bits[next + 1..];
      ghost var before := filter[..];
      filter[bit / 8] := OrBit(filter[bit / 8], bit % 8);
      assert filter[..] == SetBit(before, bit);
      next := next + 1;
    }
    result := Encode(filter[..]);
  }

  /**
   * The new filter is accepted by the store, sets the four bits of the id, and loses no bit
   * that was set before.
   */
  lemma AddedPositions(encoded: Option<string>, d: Digest)
    requires FilterOk(encoded)
    ensures IsRetiredRequestFilter(Added(encoded, d))
    ensures SetPositions(Some(Added(encoded, d))) == SetPositions(encoded) + Elements(RetiredFilterBits(d))
  {
    var bytes := SetBits(StartBytes(encoded), RetiredFilterBits(d));
    DecodeEncode(bytes);
    forall bit: nat | bit < FILTER_BITS
      ensures TestBit(bytes, bit) <==> bit in SetPositions(encoded) || bit in RetiredFilterBits(d)
    {
      SetBitsTest(StartBytes(encoded), RetiredFilterBits(d), bit);
      if encoded.None? {
        ZeroBytesTestNothing(StartBytes(encoded), bit);
      }
    }
  }

  /** Once set, the bits of an id stay set by every later filter, so the id stays recognised. */
  lemma SupersetStillHas(older: Option<string>, newer: Option<string>, d: Digest)
    requires FilterOk(older) && FilterOk(newer)
    requires RetiredFilterHas(older, d) && SetPositions(older) <= SetPositions(newer)
    ensures RetiredFilterHas(newer, d)
  {
    HasMeansAllPositionsSet(older, d);
    HasMeansAllPositionsSet(newer, d);
    assert RetiredFilterBits(d)[0] in Elements(RetiredFilterBits(d));
  }
}
