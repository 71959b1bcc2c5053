/** What the CRC-16 of the IDT-85 frames detects, for frames of any length. */
module CrcTheorems {
  import opened Crc16
  import Seqs

  // ----- the register can be run backwards -----

  lemma StepIsInjective(x: bv16, y: bv16)
    requires BitStep(x) == BitStep(y)
    ensures x == y
  {
  }

  lemma XorCancels(x: bv16, y: bv16, z: bv16)
    ensures Xor(x, z) == Xor(y, z) ==> x == y
    ensures Xor(z, x) == Xor(z, y) ==> x == y
  {
  }

  lemma {:induction false} StepsAreInjective(x: bv16, y: bv16, n: nat)
    requires BitSteps(x, n) == BitSteps(y, n)
    ensures x == y
    decreases n
  {
    if n > 0 {
      StepsAreInjective(BitStep(x), BitStep(y), n - 1);
      StepIsInjective(x, y);
    }
  }

  lemma {:induction false} FeedIsInjective(x: bv16, y: bv16, bits: seq<bool>)
    requires BitFeed(x, bits) == BitFeed(y, bits)
    ensures x == y
    decreases |bits|
  {
    if bits != [] {
      var b := Bit(bits[0]);
      FeedIsInjective(BitStep(Xor(x, b)), BitStep(Xor(y, b)), bits[1..]);
      StepIsInjective(Xor(x, b), Xor(y, b));
      XorCancels(x, y, b);
    }
  }

  // ----- the residue of an accepted frame is zero -----

  lemma {:induction false} StepsAreLinear(x: bv16, y: bv16, n: nat)
    ensures BitSteps(Xor(x, y), n) == Xor(BitSteps(x, n), BitSteps(y, n))
    decreases n
  {
    if n > 0 {
      StepIsLinear(x, y);
      StepsAreLinear(BitStep(x), BitStep(y), n - 1);
    }
  }

  lemma StepIsLinear(x: bv16, y: bv16)
    ensures BitStep(Xor(x, y)) == Xor(BitStep(x), BitStep(y))
  {
    HalfIsLinear(x, y);
    LowOfXor(x, y);
    FoldOfXor(Low(x), Low(y));
    XorExchange(Half(x), Half(y), Fold(Low(x)), Fold(Low(y)));
  }

  lemma FoldOfXor(b: bool, c: bool)
    ensures Fold(b != c) == Xor(Fold(b), Fold(c))
  {
  }

  lemma XorExchange(a: bv16, b: bv16, c: bv16, d: bv16)
    ensures Xor(Xor(a, b), Xor(c, d)) == Xor(Xor(a, c), Xor(b, d))
  {
    XorIsAssociative(Xor(a, b), c, d);
    XorSwap(a, b, c);
    XorIsAssociative(Xor(a, c), b, d);
  }

  function Double(x: bv16): bv16 {
    x << 1
  }

  lemma EvenStep(x: bv16)
    requires x <= 0x7FFF
    ensures BitStep(Double(x)) == x
  {
  }

  function DoubleTimes(x: bv16, n: nat): bv16 {
    if n == 0 then x else Double(DoubleTimes(x, n - 1))
  }

  lemma {:induction false} ComesDown(x: bv16, n: nat)
    requires forall k :: 0 <= k < n ==> DoubleTimes(x, k) <= 0x7FFF
    ensures BitSteps(DoubleTimes(x, n), n) == x
  {
    if n > 0 {
      EvenStep(DoubleTimes(x, n - 1));
      ComesDown(x, n - 1);
    }
  }

  lemma DoubleOfByte(x: bv16)
    requires x <= 0xFF
    ensures DoubleTimes(x, 0) <= 0x7FFF && DoubleTimes(x, 1) <= 0x7FFF
    ensures DoubleTimes(x, 2) <= 0x7FFF && DoubleTimes(x, 3) <= 0x7FFF
    ensures DoubleTimes(x, 4) <= 0x7FFF && DoubleTimes(x, 5) <= 0x7FFF
    ensures DoubleTimes(x, 6) <= 0x7FFF && DoubleTimes(x, 7) <= 0x7FFF
    ensures DoubleTimes(x, 8) == x << 8
  {
  }

  /** Eight steps bring a byte from the high half to the low half unchanged. */
  lemma HighByteComesDown(b: bv8)
    ensures BitSteps((b as bv16) << 8, 8) == b as bv16
  {
    DoubleOfByte(b as bv16);
    ComesDown(b as bv16, 8);
  }

  lemma {:induction false} StepsAdd(x: bv16, m: nat, n: nat)
    ensures BitSteps(x, m + n) == BitSteps(BitSteps(x, m), n)
    decreases m
  {
    if m > 0 {
      StepsAdd(BitStep(x), m - 1, n);
    }
  }

  lemma {:induction false} MessageBitsAppend(a: seq<bv8>, b: seq<bv8>)
    ensures MessageBits(a + b) == MessageBits(a) + MessageBits(b)
  {
    if a == [] {
      assert a + b == b;
    } else {
      assert (a + b)[1..] == a[1..] + b;
      MessageBitsAppend(a[1..], b);
    }
  }

  lemma {:induction false} StepsOfZero(n: nat)
    ensures BitSteps(0, n) == 0
  {
    if n > 0 {
      assert BitStep(0) == 0;
      StepsOfZero(n - 1);
    }
  }

  lemma WordIsXor(lo: bv8, hi: bv8, c: bv16)
    ensures Xor(c, Word(lo, hi)) == Xor(Xor(c, lo as bv16), (hi as bv16) << 8)
  {
  }

  /** Feeding two bytes is the same as XORing them in as one word first. */
  lemma TwoBytesAtOnce(c: bv16, lo: bv8, hi: bv8)
    ensures BitFeed(BitFeed(c, ByteBits(lo)), ByteBits(hi)) == BitSteps(Xor(c, Word(lo, hi)), 16)
  {
    ByteAtOnce(c, lo);
    ByteAtOnce(BitFeed(c, ByteBits(lo)), hi);
    WordIsXor(lo, hi, c);
    StepsAdd(Xor(c, Word(lo, hi)), 8, 8);
    StepsAreLinear(Xor(c, lo as bv16), (hi as bv16) << 8, 8);
    HighByteComesDown(hi);
  }

  lemma ChecksumOfTrailer(body: seq<bv8>, lo: bv8, hi: bv8)
    ensures Checksum(body + [lo, hi]) == BitSteps(Xor(Checksum(body), Word(lo, hi)), 16)
  {
    MessageBitsAppend(body, [lo, hi]);
    assert MessageBits([lo, hi]) == ByteBits(lo) + ByteBits(hi) by {
      assert [lo, hi][1..] == [hi];
      assert MessageBits([hi]) == ByteBits(hi) + MessageBits([]);
    }
    BitFeedAppend(INITIAL, MessageBits(body), MessageBits([lo, hi]));
    BitFeedAppend(Checksum(body), ByteBits(lo), ByteBits(hi));
    TwoBytesAtOnce(Checksum(body), lo, hi);
  }

  lemma XorIsZero(x: bv16, y: bv16)
    ensures Xor(x, y) == 0 <==> x == y
  {
    assert Xor(y, y) == 0;
    XorCancels(x, y, y);
  }

  /** The good residue is zero: a frame is accepted exactly when its own CRC is 0. */
  lemma ResidueIsZero(frame: seq<bv8>)
    requires |frame| >= 3
    ensures HasValidCrc(frame) <==> Checksum(frame) == 0
  {
    var body, lo, hi := frame[..|frame| - 2], frame[|frame| - 2], frame[|frame| - 1];
    assert frame == body + [lo, hi];
    ChecksumOfTrailer(body, lo, hi);
    StepsOfZero(16);
    XorIsZero(Checksum(body), Word(lo, hi));
    if Checksum(frame) == 0 {
      StepsAreInjective(Xor(Checksum(body), Word(lo, hi)), 0, 16);
    }
  }

  // ----- bursts -----

  lemma {:induction false} MessageBitsInjective(a: seq<bv8>, b: seq<bv8>)
    requires |a| == |b| && MessageBits(a) == MessageBits(b)
    ensures a == b
  {
    if a != [] {
      assert ByteBits(a[0]) == MessageBits(a)[..8] == MessageBits(b)[..8] == ByteBits(b[0]);
      assert MessageBits(a[1..]) == MessageBits(a)[8..] == MessageBits(b)[8..] == MessageBits(b[1..]);
      ByteBitsInjective(a[0], b[0]);
      MessageBitsInjective(a[1..], b[1..]);
    }
  }

  lemma ByteBitsInjective(a: bv8, b: bv8)
    requires ByteBits(a) == ByteBits(b)
    ensures a == b
  {
    ByteHolds(a);
    ByteHolds(b);
    HoldsDetermines(a as bv16, b as bv16, ByteBits(a));
  }

  lemma {:induction false} HoldsDetermines(x: bv16, y: bv16, bits: seq<bool>)
    requires Holds(x, bits) && Holds(y, bits)
    ensures x == y
    decreases |bits|
  {
    if bits != [] {
      HoldsDetermines(Half(x), Half(y), bits[1..]);
    }
  }

  /** A word that holds up to 16 given bits. */
  lemma {:induction false} Pack(bits: seq<bool>) returns (w: bv16)
    requires |bits| <= 16
    ensures Holds(w, bits)
    decreases |bits|
  {
    if bits == [] {
      w := 0;
    } else {
      var rest := Pack(bits[1..]);
      HoldsFits(rest, bits[1..]);
      w := Push(rest, bits[0]);
      PushIsCons(rest, bits[0]);
    }
  }

  function Push(rest: bv16, b: bool): bv16 {
    if b then (rest << 1) | 1 else rest << 1
  }

  lemma PushIsCons(rest: bv16, b: bool)
    requires rest & 0x8000 == 0
    ensures Low(Push(rest, b)) == b && Half(Push(rest, b)) == rest
  {
  }

  lemma {:induction false} HoldsFits(w: bv16, bits: seq<bool>)
    requires Holds(w, bits) && |bits| <= 15
    ensures w & 0x8000 == 0
  {
    HoldsHalves(w, bits, 15);
    HalfTimesFifteen(w);
  }

  lemma {:induction false} HoldsHalves(w: bv16, bits: seq<bool>, n: nat)
    requires Holds(w, bits) && |bits| <= n
    ensures HalfTimes(w, n) == 0
    decreases n
  {
    if n > 0 {
      if bits == [] {
        assert Half(w) == 0;
        HoldsHalves(0, [], n - 1);
      } else {
        HoldsHalves(Half(w), bits[1..], n - 1);
      }
    }
  }

  lemma HalfTimesFifteen(w: bv16)
    ensures HalfTimes(w, 15) == w >> 15
  {
    HalfTimesEight(Half(Half(Half(Half(Half(Half(Half(w))))))));
    assert HalfTimes(w, 15) == HalfTimes(Half(Half(w)), 13);
  }

  lemma {:induction false} BlocksDetermined(c: bv16, u: seq<bool>, v: seq<bool>)
    requires |u| == |v| <= 16
    requires BitFeed(c, u) == BitFeed(c, v)
    ensures u == v
  {
    var x := Pack(u);
    var y := Pack(v);
    BlockAtOnce(c, x, u);
    BlockAtOnce(c, y, v);
    StepsAreInjective(Xor(c, x), Xor(c, y), |u|);
    XorCancels(x, y, c);
    HeldBits(x, u, v);
  }

  lemma {:induction false} HeldBits(w: bv16, u: seq<bool>, v: seq<bool>)
    requires |u| == |v| && Holds(w, u) && Holds(w, v)
    ensures u == v
    decreases |u|
  {
    if u != [] {
      HeldBits(Half(w), u[1..], v[1..]);
      assert u == [u[0]] + u[1..] && v == [v[0]] + v[1..];
    }
  }

  lemma BitBursts(x: seq<bool>, y: seq<bool>, lo: nat, hi: nat)
    requires |x| == |y| && lo <= hi <= |x| && hi <= lo + 16
    requires x[..lo] == y[..lo] && x[hi..] == y[hi..]
    requires BitFeed(INITIAL, x) == BitFeed(INITIAL, y)
    ensures x == y
  {
    Seqs.ThreeParts(x, lo, hi);
    Seqs.ThreeParts(y, lo, hi);
    BlocksBetween(x[..lo], x[lo..hi], y[lo..hi], x[hi..]);
  }

  lemma BlocksBetween(head: seq<bool>, u: seq<bool>, v: seq<bool>, tail: seq<bool>)
    requires |u| == |v| <= 16
    requires BitFeed(INITIAL, head + (u + tail)) == BitFeed(INITIAL, head + (v + tail))
    ensures u == v
  {
    var c := BitFeed(INITIAL, head);
    BitFeedAppend(INITIAL, head, u + tail);
    BitFeedAppend(INITIAL, head, v + tail);
    BitFeedAppend(c, u, tail);
    BitFeedAppend(c, v, tail);
    FeedIsInjective(BitFeed(c, u), BitFeed(c, v), tail);
    BlocksDetermined(c, u, v);
  }

  /** Two accepted frames of one length that differ only inside 16 consecutive bits are the same frame. */
  lemma BurstsAreDetected(a: seq<bv8>, b: seq<bv8>, k: nat)
    requires |a| == |b|
    requires HasValidCrc(a) && HasValidCrc(b)
    requires forall i :: 0 <= i < 8 * |a| && !(k <= i < k + 16) ==> MessageBits(a)[i] == MessageBits(b)[i]
    ensures a == b
  {
    ResidueIsZero(a);
    ResidueIsZero(b);
    var x, y := MessageBits(a), MessageBits(b);
    BitBursts(x, y, if k <= |x| then k else |x|, if k + 16 <= |x| then k + 16 else |x|);
    MessageBitsInjective(a, b);
  }

  // ----- parity -----

  /** How many bits are set. */
  function Ones(bits: seq<bool>): nat {
    if bits == [] then 0 else (if bits[0] then 1 else 0) + Ones(bits[1..])
  }

  predicate Odd(bits: seq<bool>) {
    bits != [] && bits[0] != Odd(bits[1..])
  }

  lemma {:induction false} OddCounts(bits: seq<bool>)
    ensures Odd(bits) <==> Ones(bits) % 2 == 1
  {
    if bits != [] {
      OddCounts(bits[1..]);
    }
  }

  /** The parity of the n low bits of a word. */
  predicate OddLow(w: bv16, n: nat)
    decreases n
  {
    n > 0 && Low(w) != OddLow(Half(w), n - 1)
  }

  lemma {:induction false} OddLowIsOdd(w: bv16, n: nat)
    ensures OddLow(w, n) == Odd(Unpack(w, n))
    decreases n
  {
    if n > 0 {
      assert Unpack(w, n)[1..] == Unpack(Half(w), n - 1);
      OddLowIsOdd(Half(w), n - 1);
    }
  }

  /** The n low bits of z are those of x and y, XORed. */
  predicate IsXor(x: bv16, y: bv16, z: bv16, n: nat)
    decreases n
  {
    n > 0 ==> Low(z) == (Low(x) != Low(y)) && IsXor(Half(x), Half(y), Half(z), n - 1)
  }

  lemma {:induction false} XorIsXor(x: bv16, y: bv16, n: nat)
    ensures IsXor(x, y, Xor(x, y), n)
    decreases n
  {
    if n > 0 {
      HalfIsLinear(x, y);
      LowOfXor(x, y);
      XorIsXor(Half(x), Half(y), n - 1);
    }
  }

  lemma {:induction false} OddOfTriple(x: bv16, y: bv16, z: bv16, n: nat)
    requires IsXor(x, y, z, n)
    ensures OddLow(z, n) == (OddLow(x, n) != OddLow(y, n))
    decreases n
  {
    if n > 0 {
      OddOfTriple(Half(x), Half(y), Half(z), n - 1);
    }
  }

  lemma OddIsLinear(x: bv16, y: bv16, n: nat)
    ensures OddLow(Xor(x, y), n) == (OddLow(x, n) != OddLow(y, n))
  {
    XorIsXor(x, y, n);
    OddOfTriple(x, y, Xor(x, y), n);
  }

  lemma {:induction false} OddLowTop(w: bv16, n: nat)
    ensures OddLow(w, n + 1) == (OddLow(w, n) != Low(HalfTimes(w, n)))
    decreases n
  {
    if n > 0 {
      OddLowTop(Half(w), n - 1);
    }
  }

  lemma TopIsZero(w: bv16)
    ensures !Low(HalfTimes(Half(w), 15))
  {
    HalfTimesFifteen(Half(w));
    assert (w >> 1) >> 15 == 0;
  }

  /** Shifting loses just the low bit. */
  lemma OddOfHalf(w: bv16, n: nat)
    requires n == 16
    ensures OddLow(w, n) == (Low(w) != OddLow(Half(w), n))
  {
    OddLowTop(Half(w), n - 1);
    TopIsZero(w);
  }

  lemma OddPair(w: bv16, b: bool, c: bool, rest: bv16, n: nat)
    requires Low(w) == b && Low(Half(w)) == c && Half(Half(w)) == rest
    ensures OddLow(w, n + 2) == ((b != c) != OddLow(rest, n))
  {
  }

  /** The polynomial has three bits set: the two it adds to the shift make up for the one lost. */
  lemma OddOfFold(b: bool)
    ensures OddLow(Fold(b), 16) == b
  {
    if b {
      OddPair(0x8408, false, false, 0x2102, 14);
      OddPair(0x2102, false, true, 0x0840, 12);
      OddPair(0x0840, false, false, 0x0210, 10);
      OddPair(0x0210, false, false, 0x0084, 8);
      OddPair(0x0084, false, false, 0x0021, 6);
      OddPair(0x0021, true, false, 0x0008, 4);
      OddPair(0x0008, false, false, 0x0002, 2);
      OddPair(0x0002, false, true, 0x0000, 0);
    } else {
      OddOfZero(16);
    }
  }

  lemma {:induction false} OddOfZero(n: nat)
    ensures !OddLow(0, n)
  {
    if n > 0 {
      OddOfZero(n - 1);
      assert !Low(0) && Half(0) == 0;
    }
  }

  lemma OddOfBit(b: bool, n: nat)
    requires n == 16
    ensures OddLow(Bit(b), n) == b
  {
    OddOfZero(n - 1);
    assert Half(Bit(b)) == 0 && Low(Bit(b)) == b;
  }

  lemma AllOnesIsEven()
    ensures !OddLow(INITIAL, 16)
  {
    OddPair(0xFFFF, true, true, 0x3FFF, 14);
    OddPair(0x3FFF, true, true, 0x0FFF, 12);
    OddPair(0x0FFF, true, true, 0x03FF, 10);
    OddPair(0x03FF, true, true, 0x00FF, 8);
    OddPair(0x00FF, true, true, 0x003F, 6);
    OddPair(0x003F, true, true, 0x000F, 4);
    OddPair(0x000F, true, true, 0x0003, 2);
    OddPair(0x0003, true, true, 0x0000, 0);
  }

  lemma StepKeepsParity(crc: bv16, n: nat)
    requires n == 16
    ensures OddLow(BitStep(crc), n) == OddLow(crc, n)
  {
    OddIsLinear(Half(crc), Fold(Low(crc)), n);
    OddOfHalf(crc, n);
    OddOfFold(Low(crc));
  }

  lemma TakeInParity(crc: bv16, b: bool, n: nat)
    requires n == 16
    ensures OddLow(BitStep(Xor(crc, Bit(b))), n) == (OddLow(crc, n) != b)
  {
    StepKeepsParity(Xor(crc, Bit(b)), n);
    OddIsLinear(crc, Bit(b), n);
    OddOfBit(b, n);
  }

  lemma {:induction false} FeedParity(crc: bv16, bits: seq<bool>, n: nat)
    requires n == 16
    ensures OddLow(BitFeed(crc, bits), n) == (OddLow(crc, n) != Odd(bits))
    decreases |bits|
  {
    if bits != [] {
      TakeInParity(crc, bits[0], n);
      FeedParity(BitStep(Xor(crc, Bit(bits[0]))), bits[1..], n);
    }
  }

  /** The CRC of any byte string has as many ones as the string has, modulo 2. */
  lemma CrcKeepsParity(data: seq<bv8>)
    ensures Ones(Unpack(Checksum(data), 16)) % 2 == Ones(MessageBits(data)) % 2
  {
    FeedParity(INITIAL, MessageBits(data), 16);
    AllOnesIsEven();
    OddLowIsOdd(Checksum(data), 16);
    OddCounts(Unpack(Checksum(data), 16));
    OddCounts(MessageBits(data));
  }

  /** Where two bit strings of one length differ. */
  function Flips(x: seq<bool>, y: seq<bool>): (flips: seq<bool>)
    requires |x| == |y|
    ensures |flips| == |x|
  {
    seq(|x|, i requires 0 <= i < |x| => x[i] != y[i])
  }

  lemma {:induction false} FlipsParity(x: seq<bool>, y: seq<bool>)
    requires |x| == |y|
    ensures Odd(Flips(x, y)) == (Odd(x) != Odd(y))
  {
    if x != [] {
      assert Flips(x, y)[1..] == Flips(x[1..], y[1..]);
      FlipsParity(x[1..], y[1..]);
    }
  }

  /** An odd number of bit flips turns every accepted frame into a rejected one. */
  lemma OddErrorsAreDetected(a: seq<bv8>, b: seq<bv8>)
    requires |a| == |b|
    requires HasValidCrc(a)
    requires Ones(Flips(MessageBits(a), MessageBits(b))) % 2 == 1
    ensures !HasValidCrc(b)
  {
    ResidueIsZero(a);
    ResidueIsZero(b);
    CrcKeepsParity(a);
    CrcKeepsParity(b);
    OddCounts(MessageBits(a));
    OddCounts(MessageBits(b));
    OddCounts(Flips(MessageBits(a), MessageBits(b)));
    FlipsParity(MessageBits(a), MessageBits(b));
  }
}
