/** The bit-level CRC-16 of the IDT-85 adapter (src/mvd_edge/adapters/idt85.py). */
module Crc16 {

  const POLYNOMIAL: bv16 := 0x8408
  const INITIAL: bv16 := 0xFFFF

  // The register operations have names so that proofs can treat them as wholes.

  function Xor(x: bv16, y: bv16): bv16 {
    x ^ y
  }

  function Half(x: bv16): bv16 {
    x >> 1
  }

  function Low(x: bv16): bool {
    x & 1 == 1
  }

  function Bit(b: bool): bv16 {
    if b then 1 else 0
  }

  function Fold(b: bool): bv16 {
    if b then POLYNOMIAL else 0
  }

  /** One turn of the inner loop: shift right, and fold in the polynomial when a one drops out. */
  function BitStep(crc: bv16): bv16 {
    Xor(Half(crc), Fold(Low(crc)))
  }

  function BitSteps(crc: bv16, n: nat): bv16
    decreases n
  {
    if n == 0 then crc else BitSteps(BitStep(crc), n - 1)
  }

  // ----- the message as bits, least significant bit of each byte first -----

  /** The n low bits of w. */
  function Unpack(w: bv16, n: nat): (bits: seq<bool>)
    ensures |bits| == n
    decreases n
  {
    if n == 0 then [] else [Low(w)] + Unpack(Half(w), n - 1)
  }

  function ByteBits(b: bv8): (bits: seq<bool>)
    ensures |bits| == 8
  {
    Unpack(b as bv16, 8)
  }

  function MessageBits(data: seq<bv8>): (bits: seq<bool>)
    ensures |bits| == 8 * |data|
  {
    if data == [] then [] else ByteBits(data[0]) + MessageBits(data[1..])
  }

  /** The reference: a bit-serial register that takes in one message bit a step. */
  function BitFeed(crc: bv16, bits: seq<bool>): bv16
    decreases |bits|
  {
    if bits == [] then crc else BitFeed(BitStep(Xor(crc, Bit(bits[0]))), bits[1..])
  }

  /** The value of crc16, by the bit-serial reference. */
  function Checksum(data: seq<bv8>): bv16 {
    BitFeed(INITIAL, MessageBits(data))
  }

  /** crc16: byte by byte, eight shifts after each byte is folded into the low half. */
  method Crc(data: seq<bv8>) returns (crc: bv16)
    ensures crc == Checksum(data)
  {
    crc := INITIAL;
    for i := 0 to |data|
      invariant crc == BitFeed(INITIAL, MessageBits(data[..i]))
    {
      ghost var before := crc;
      crc := crc ^ (data[i] as bv16);
      for j := 0 to 8
        invariant BitSteps(crc, 8 - j) == BitSteps(Xor(before, data[i] as bv16), 8)
      {
        LoopBody(crc);
        if crc & 1 == 1 {
          crc := (crc >> 1) ^ POLYNOMIAL;
        } else {
          crc := crc >> 1;
        }
      }
      ByteAtOnce(before, data[i]);
      OneMoreByte(data, i);
    }
    assert data[..|data|] == data;
  }

  lemma OneMoreByte(data: seq<bv8>, i: nat)
    requires i < |data|
    ensures BitFeed(INITIAL, MessageBits(data[..i + 1]))
         == BitFeed(BitFeed(INITIAL, MessageBits(data[..i])), ByteBits(data[i]))
  {
    assert data[..i + 1] == data[..i] + [data[i]];
    MessageBitsSnoc(data[..i], data[i]);
    BitFeedAppend(INITIAL, MessageBits(data[..i]), ByteBits(data[i]));
  }

  lemma {:induction false} MessageBitsSnoc(a: seq<bv8>, b: bv8)
    ensures MessageBits(a + [b]) == MessageBits(a) + ByteBits(b)
  {
    if a == [] {
      assert [] + [b] == [b] && [b][1..] == [];
    } else {
      assert (a + [b])[1..] == a[1..] + [b];
      MessageBitsSnoc(a[1..], b);
    }
  }

  /** has_valid_crc: the last two bytes, low byte first, equal the CRC of the rest. */
  predicate HasValidCrc(frame: seq<bv8>) {
    |frame| >= 3 &&
    Checksum(frame[..|frame| - 2]) == Word(frame[|frame| - 2], frame[|frame| - 1])
  }

  function Word(lo: bv8, hi: bv8): bv16 {
    (lo as bv16) | ((hi as bv16) << 8)
  }

  lemma LoopBody(crc: bv16)
    ensures BitStep(crc) == if crc & 1 == 1 then (crc >> 1) ^ POLYNOMIAL else crc >> 1
  {
    if crc & 1 == 1 {
      assert Low(crc) && BitStep(crc) == Xor(Half(crc), POLYNOMIAL);
    } else {
      assert !Low(crc) && BitStep(crc) == Xor(Half(crc), 0);
      XorZero(Half(crc));
    }
  }

  lemma XorZero(x: bv16)
    ensures Xor(x, 0) == x
  {
  }

  lemma {:induction false} BitFeedAppend(crc: bv16, a: seq<bool>, b: seq<bool>)
    ensures BitFeed(crc, a + b) == BitFeed(BitFeed(crc, a), b)
    decreases |a|
  {
    if a == [] {
      assert a + b == b;
    } else {
      assert (a + b)[1..] == a[1..] + b;
      BitFeedAppend(BitStep(Xor(crc, Bit(a[0]))), a[1..], b);
    }
  }

  // ----- a block of bits may be folded in all at once -----

  /** w holds exactly these bits, least significant first. */
  predicate Holds(w: bv16, bits: seq<bool>)
    decreases |bits|
  {
    if bits == [] then w == 0 else bits[0] == Low(w) && Holds(Half(w), bits[1..])
  }

  lemma HalfIsLinear(x: bv16, y: bv16)
    ensures Half(Xor(x, y)) == Xor(Half(x), Half(y))
  {
  }

  lemma LowIsLinear(x: bv16, b: bool)
    ensures Low(Xor(x, Bit(b))) == (Low(x) != b)
    ensures Half(Xor(x, Bit(b))) == Half(x)
  {
  }

  lemma XorIsCommutative(x: bv16, y: bv16)
    ensures Xor(x, y) == Xor(y, x)
  {
  }

  lemma XorIsAssociative(x: bv16, y: bv16, z: bv16)
    ensures Xor(Xor(x, y), z) == Xor(x, Xor(y, z))
  {
  }

  lemma XorSwap(x: bv16, y: bv16, z: bv16)
    ensures Xor(Xor(x, y), z) == Xor(Xor(x, z), y)
  {
    XorIsAssociative(x, y, z);
    XorIsAssociative(x, z, y);
    XorIsCommutative(y, z);
  }

  lemma LowOfXor(x: bv16, y: bv16)
    ensures Low(Xor(x, y)) == (Low(x) != Low(y))
  {
  }

  /** A step on crc ^ w spends the low bit of w and leaves the rest of w, shifted, on top. */
  lemma Absorb(crc: bv16, w: bv16)
    ensures BitStep(Xor(crc, w)) == Xor(BitStep(Xor(crc, Bit(Low(w)))), Half(w))
  {
    HalfIsLinear(crc, w);
    LowOfXor(crc, w);
    LowIsLinear(crc, Low(w));
    var fold := Fold(Low(Xor(crc, w)));
    calc {
      BitStep(Xor(crc, w));
      Xor(Xor(Half(crc), Half(w)), fold);
      { XorSwap(Half(crc), Half(w), fold); }
      Xor(Xor(Half(crc), fold), Half(w));
      Xor(BitStep(Xor(crc, Bit(Low(w)))), Half(w));
    }
  }

  lemma {:induction false} BlockAtOnce(crc: bv16, w: bv16, bits: seq<bool>)
    requires Holds(w, bits)
    ensures BitSteps(Xor(crc, w), |bits|) == BitFeed(crc, bits)
    decreases |bits|
  {
    if bits == [] {
      assert Xor(crc, 0) == crc;
    } else {
      Absorb(crc, w);
      BlockAtOnce(BitStep(Xor(crc, Bit(bits[0]))), Half(w), bits[1..]);
    }
  }

  lemma ByteAtOnce(crc: bv16, b: bv8)
    ensures BitFeed(crc, ByteBits(b)) == BitSteps(Xor(crc, b as bv16), 8)
  {
    ByteHolds(b);
    BlockAtOnce(crc, b as bv16, ByteBits(b));
  }

  function HalfTimes(w: bv16, n: nat): bv16
    decreases n
  {
    if n == 0 then w else HalfTimes(Half(w), n - 1)
  }

  lemma {:induction false} UnpackHolds(w: bv16, n: nat)
    requires HalfTimes(w, n) == 0
    ensures Holds(w, Unpack(w, n))
    decreases n
  {
    if n > 0 {
      UnpackHolds(Half(w), n - 1);
    }
  }

  lemma ByteHolds(b: bv8)
    ensures Holds(b as bv16, ByteBits(b))
  {
    HalfTimesEight(b as bv16);
    assert (b as bv16) >> 8 == 0;
    UnpackHolds(b as bv16, 8);
  }

  lemma HalfTimesEight(w: bv16)
    ensures HalfTimes(w, 8) == w >> 8
  {
    var h := Half(Half(w));
    assert HalfTimes(w, 8) == HalfTimes(h, 6) == HalfTimes(Half(Half(h)), 4);
  }
}
