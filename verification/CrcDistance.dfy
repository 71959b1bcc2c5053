/** The register step has order 32767. So two flipped bits go unnoticed exactly when they are a multiple of so
    many places apart, and any one, two or three are found in a frame of up to 4095 bytes, which is far more
    than a length byte can announce. */
module CrcDistance {
  import opened Crc16
  import opened CrcTheorems

  // ----- powers of the step, as seen from one bit -----

  /** The register that held its top bit alone, n steps on. */
  function Power(n: nat): bv16 {
    BitSteps(0x8000, n)
  }

  lemma OneMoreStep(n: nat)
    ensures Power(n + 1) == BitStep(Power(n))
  {
    StepsAdd(0x8000, n, 1);
    assert BitSteps(BitSteps(0x8000, n), 1) == BitSteps(BitStep(BitSteps(0x8000, n)), 0);
  }

  function Term(b: bool, image: bv16): bv16 {
    if b then image else 0
  }

  /** The low n bits of w, each turned into a power: e for the lowest, two less for each place above. */
  function Spread(w: bv16, n: nat, e: nat): bv16
    decreases n
  {
    if n == 0 then 0 else Xor(Term(Low(w), Power(e)), Spread(Half(w), n - 1, Lower(e)))
  }

  function Lower(e: nat): nat {
    if e >= 2 then e - 2 else 0
  }

  lemma XorUnits(x: bv16)
    ensures Xor(x, 0) == x && Xor(0, x) == x && Xor(x, x) == 0
  {
  }

  lemma TermOfXor(b: bool, c: bool, image: bv16)
    ensures Term(b != c, image) == Xor(Term(b, image), Term(c, image))
  {
    XorUnits(image);
    XorUnits(0);
  }

  lemma LowTermOfXor(x: bv16, y: bv16, e: nat)
    ensures Term(Low(Xor(x, y)), Power(e)) == Xor(Term(Low(x), Power(e)), Term(Low(y), Power(e)))
  {
    LowOfXor(x, y);
    TermOfXor(Low(x), Low(y), Power(e));
  }

  lemma {:induction false} SpreadIsLinear(x: bv16, y: bv16, n: nat, e: nat)
    ensures Spread(Xor(x, y), n, e) == Xor(Spread(x, n, e), Spread(y, n, e))
    decreases n
  {
    if n == 0 {
      XorUnits(0);
    } else {
      LowTermOfXor(x, y, e);
      HalfIsLinear(x, y);
      SpreadIsLinear(Half(x), Half(y), n - 1, Lower(e));
      XorExchange(Term(Low(x), Power(e)), Term(Low(y), Power(e)),
                  Spread(Half(x), n - 1, Lower(e)), Spread(Half(y), n - 1, Lower(e)));
    }
  }

  function TwoSteps(w: bv16): bv16 {
    BitStep(BitStep(w))
  }

  lemma TwoStepsAreLinear(x: bv16, y: bv16)
    ensures TwoSteps(Xor(x, y)) == Xor(TwoSteps(x), TwoSteps(y))
  {
    StepIsLinear(x, y);
    StepIsLinear(BitStep(x), BitStep(y));
  }

  lemma TwoStepsOfTerm(b: bool, e: nat)
    ensures TwoSteps(Term(b, Power(e))) == Term(b, Power(e + 2))
  {
    OneMoreStep(e);
    OneMoreStep(e + 1);
    assert TwoSteps(0) == 0;
  }

  /** Two steps raise every power by two. */
  lemma {:induction false} SpreadGoesOn(w: bv16, n: nat, e: nat)
    requires n > 0 ==> e >= 2 * (n - 1)
    ensures TwoSteps(Spread(w, n, e)) == Spread(w, n, e + 2)
    decreases n
  {
    if n == 0 {
      assert TwoSteps(0) == 0;
    } else {
      TwoStepsOfTerm(Low(w), e);
      TwoStepsAreLinear(Term(Low(w), Power(e)), Spread(Half(w), n - 1, Lower(e)));
      SpreadGoesOn(Half(w), n - 1, Lower(e));
      SameBelow(Half(w), n - 1, Lower(e) + 2, Lower(e + 2));
    }
  }

  lemma SameBelow(w: bv16, n: nat, e: nat, e': nat)
    requires n > 0 ==> e == e'
    ensures Spread(w, n, e) == Spread(w, n, e')
  {
  }

  lemma {:induction false} DropTop(w: bv16, n: nat, e: nat)
    requires !Low(HalfTimes(w, n))
    ensures Spread(w, n + 1, e) == Spread(w, n, e)
    decreases n
  {
    XorUnits(0);
    if n > 0 {
      DropTop(Half(w), n - 1, Lower(e));
    }
  }

  // ----- squaring -----

  /** Each bit of the register turned into the power of twice its place. */
  function Squared(w: bv16): bv16 {
    Spread(w, 16, 30)
  }

  /** One step, worked out. */
  lemma StepOf(w: bv16)
    ensures BitStep(w) == if w & 1 == 1 then (w >> 1) ^ 0x8408 else w >> 1
  {
    LoopBody(w);
  }

  lemma TwoMore(n: nat, w: bv16, u: bv16, v: bv16)
    requires Power(n) == w && BitStep(w) == u && BitStep(u) == v
    ensures Power(n + 2) == v
  {
    OneMoreStep(n);
    OneMoreStep(n + 1);
  }

  lemma EvenPowers()
    ensures Power(0) == 0x8000 && Power(2) == 0x2000 && Power(4) == 0x0800 && Power(6) == 0x0200
    ensures Power(8) == 0x0080 && Power(10) == 0x0020
    ensures Power(12) == 0x0008 && Power(14) == 0x0002 && Power(16) == 0x8408 && Power(18) == 0x2102
    ensures Power(20) == 0x8C48 && Power(22) == 0x2312
    ensures Power(24) == 0x8CCC && Power(26) == 0x2333 && Power(28) == 0xCEC0
    ensures Power(30) == 0x33B0 && Power(32) == 0x0CEC
  {
    StepOf(0x8000);
    StepOf(0x4000);
    TwoMore(0, 0x8000, 0x4000, 0x2000);
    StepOf(0x2000);
    StepOf(0x1000);
    TwoMore(2, 0x2000, 0x1000, 0x0800);
    StepOf(0x0800);
    StepOf(0x0400);
    TwoMore(4, 0x0800, 0x0400, 0x0200);
    StepOf(0x0200);
    StepOf(0x0100);
    TwoMore(6, 0x0200, 0x0100, 0x0080);
    StepOf(0x0080);
    StepOf(0x0040);
    TwoMore(8, 0x0080, 0x0040, 0x0020);
    StepOf(0x0020);
    StepOf(0x0010);
    TwoMore(10, 0x0020, 0x0010, 0x0008);
    StepOf(0x0008);
    StepOf(0x0004);
    TwoMore(12, 0x0008, 0x0004, 0x0002);
    StepOf(0x0002);
    StepOf(0x0001);
    TwoMore(14, 0x0002, 0x0001, 0x8408);
    StepOf(0x8408);
    StepOf(0x4204);
    TwoMore(16, 0x8408, 0x4204, 0x2102);
    StepOf(0x2102);
    StepOf(0x1081);
    TwoMore(18, 0x2102, 0x1081, 0x8C48);
    StepOf(0x8C48);
    StepOf(0x4624);
    TwoMore(20, 0x8C48, 0x4624, 0x2312);
    StepOf(0x2312);
    StepOf(0x1189);
    TwoMore(22, 0x2312, 0x1189, 0x8CCC);
    StepOf(0x8CCC);
    StepOf(0x4666);
    TwoMore(24, 0x8CCC, 0x4666, 0x2333);
    StepOf(0x2333);
    StepOf(0x9591);
    TwoMore(26, 0x2333, 0x9591, 0xCEC0);
    StepOf(0xCEC0);
    StepOf(0x6760);
    TwoMore(28, 0xCEC0, 0x6760, 0x33B0);
    StepOf(0x33B0);
    StepOf(0x19D8);
    TwoMore(30, 0x33B0, 0x19D8, 0x0CEC);
  }

  // The same with the powers filled in, four places at a time, so that it can be worked out.

  function Worked0(w: bv16): bv16 {
    (if w & 0x0001 != 0 then 0x33B0 else 0) ^ (if w & 0x0002 != 0 then 0xCEC0 else 0)
    ^ (if w & 0x0004 != 0 then 0x2333 else 0) ^ (if w & 0x0008 != 0 then 0x8CCC else 0)
  }

  function Worked1(w: bv16): bv16 {
    (if w & 0x0010 != 0 then 0x2312 else 0) ^ (if w & 0x0020 != 0 then 0x8C48 else 0)
    ^ (if w & 0x0040 != 0 then 0x2102 else 0) ^ (if w & 0x0080 != 0 then 0x8408 else 0)
  }

  function Worked2(w: bv16): bv16 {
    (if w & 0x0100 != 0 then 0x0002 else 0) ^ (if w & 0x0200 != 0 then 0x0008 else 0)
    ^ (if w & 0x0400 != 0 then 0x0020 else 0) ^ (if w & 0x0800 != 0 then 0x0080 else 0)
  }

  function Worked3(w: bv16): bv16 {
    (if w & 0x1000 != 0 then 0x0200 else 0) ^ (if w & 0x2000 != 0 then 0x0800 else 0)
    ^ (if w & 0x4000 != 0 then 0x2000 else 0) ^ (if w & 0x8000 != 0 then 0x8000 else 0)
  }

  function Worked(w: bv16): bv16 {
    Xor4(Worked0(w), Worked1(w), Worked2(w), Worked3(w))
  }

  function Xor4(a: bv16, b: bv16, c: bv16, d: bv16): bv16 {
    Xor(a, Xor(b, Xor(c, d)))
  }

  lemma Peel(h: bv16, n: nat, e: nat)
    requires n > 0
    ensures Spread(h, n, e) == Xor(Term(Low(h), Power(e)), Spread(Half(h), n - 1, Lower(e)))
  {
  }

  function Half4(h: bv16): bv16 {
    Half(Half(Half(Half(h))))
  }

  /** Four places. */
  function Four(h: bv16, e: nat): bv16
    requires e >= 6
  {
    Xor4(Term(Low(h), Power(e)), Term(Low(Half(h)), Power(e - 2)),
         Term(Low(Half(Half(h))), Power(e - 4)), Term(Low(Half(Half(Half(h)))), Power(e - 6)))
  }

  /** And those above them. */
  lemma PeelFour(h: bv16, n: nat, e: nat)
    requires n >= 4 && e >= 6
    ensures Spread(h, n, e) == Xor(Four(h, e), Spread(Half4(h), n - 4, Lower(e - 6)))
  {
    Peel(h, n, e);
    Peel(Half(h), n - 1, e - 2);
    Peel(Half(Half(h)), n - 2, e - 4);
    Peel(Half(Half(Half(h))), n - 3, e - 6);
    FourTerms(Term(Low(h), Power(e)), Term(Low(Half(h)), Power(e - 2)), Term(Low(Half(Half(h))), Power(e - 4)),
              Term(Low(Half(Half(Half(h)))), Power(e - 6)), Spread(Half4(h), n - 4, Lower(e - 6)));
  }

  lemma FourTerms(t0: bv16, t1: bv16, t2: bv16, t3: bv16, above: bv16)
    ensures Xor(t0, Xor(t1, Xor(t2, Xor(t3, above)))) == Xor(Xor4(t0, t1, t2, t3), above)
  {
    XorIsAssociative(t2, t3, above);
    XorIsAssociative(t1, Xor(t2, t3), above);
    XorIsAssociative(t0, Xor(t1, Xor(t2, t3)), above);
  }

  lemma Quarters(w: bv16)
    ensures Half4(w) == w >> 4 && Half4(w >> 4) == w >> 8 && Half4(w >> 8) == w >> 12
  {
  }

  lemma Works0(w: bv16)
    ensures Four(w, 30) == Worked0(w)
  {
    EvenPowers();
    var h := w;
    assert Low(h) == (w & 0x0001 != 0) && Low(Half(h)) == (w & 0x0002 != 0);
    assert Low(Half(Half(h))) == (w & 0x0004 != 0) && Low(Half(Half(Half(h)))) == (w & 0x0008 != 0);
  }

  lemma Works1(w: bv16)
    ensures Four(w >> 4, 22) == Worked1(w)
  {
    EvenPowers();
    var h := w >> 4;
    assert Low(h) == (w & 0x0010 != 0) && Low(Half(h)) == (w & 0x0020 != 0);
    assert Low(Half(Half(h))) == (w & 0x0040 != 0) && Low(Half(Half(Half(h)))) == (w & 0x0080 != 0);
  }

  lemma Works2(w: bv16)
    ensures Four(w >> 8, 14) == Worked2(w)
  {
    EvenPowers();
    var h := w >> 8;
    assert Low(h) == (w & 0x0100 != 0) && Low(Half(h)) == (w & 0x0200 != 0);
    assert Low(Half(Half(h))) == (w & 0x0400 != 0) && Low(Half(Half(Half(h)))) == (w & 0x0800 != 0);
  }

  lemma Works3(w: bv16)
    ensures Four(w >> 12, 6) == Worked3(w)
  {
    EvenPowers();
    var h := w >> 12;
    assert Low(h) == (w & 0x1000 != 0) && Low(Half(h)) == (w & 0x2000 != 0);
    assert Low(Half(Half(h))) == (w & 0x4000 != 0) && Low(Half(Half(Half(h)))) == (w & 0x8000 != 0);
  }

  lemma SquaredIsWorked(w: bv16)
    ensures Squared(w) == Worked(w)
  {
    InQuarters(w, 16, 30);
    Works0(w);
    Works1(w);
    Works2(w);
    Works3(w);
  }

  lemma InQuarters(w: bv16, n: nat, e: nat)
    requires n == 16 && e == 30
    ensures Spread(w, n, e)
         == Xor(Four(w, e), Xor(Four(w >> 4, e - 8), Xor(Four(w >> 8, e - 16), Four(w >> 12, e - 24))))
  {
    Quarters(w);
    PeelFour(w, n, e);
    PeelFour(w >> 4, n - 4, e - 8);
    PeelFour(w >> 8, n - 8, e - 16);
    PeelFour(w >> 12, n - 12, e - 24);
    XorUnits(Four(w >> 12, e - 24));
  }

  lemma WorkedValues()
    ensures Worked(0x8408) == 0x0CEC && Worked(0) == 0 && Worked(0x8000) == 0x8000
  {
  }

  /** What makes spreading n places from power e on a squaring: a step leaves the top place empty, and the
      polynomial, which it may fold in, is the power that the lowest place would have next. */
  ghost predicate Squares(n: nat, e: nat) {
    && n > 0 && e == 2 * (n - 1) && TopIsFree(n - 1)
    && Spread(POLYNOMIAL, n, e) == Power(e + 2) && Spread(0, n, e) == 0 && Spread(0x8000, n, e) == 0x8000
  }

  ghost predicate TopIsFree(m: nat) {
    forall w: bv16 :: !Low(HalfTimes(Half(w), m))
  }

  lemma FifteenIsFree()
    ensures TopIsFree(15)
  {
    forall w: bv16
      ensures !Low(HalfTimes(Half(w), 15))
    {
      TopIsZero(w);
    }
  }

  lemma SpecialSquares()
    ensures Squared(POLYNOMIAL) == Power(32) && Squared(0) == 0 && Squared(0x8000) == 0x8000
  {
    SquaredIsWorked(POLYNOMIAL);
    SquaredIsWorked(0);
    SquaredIsWorked(0x8000);
    WorkedValues();
    EvenPowers();
  }

  lemma SquareOfStep(w: bv16, n: nat, e: nat)
    requires Squares(n, e)
    ensures Spread(BitStep(w), n, e) == Xor(Spread(Half(w), n - 1, e), Term(Low(w), Power(e + 2)))
  {
    SpreadIsLinear(Half(w), Fold(Low(w)), n, e);
    DropTop(Half(w), n - 1, e);
  }

  lemma TwoStepsOfSquare(w: bv16, n: nat, e: nat)
    requires n > 0 && e == 2 * (n - 1)
    ensures TwoSteps(Spread(w, n, e)) == Xor(Term(Low(w), Power(e + 2)), Spread(Half(w), n - 1, e))
  {
    SpreadGoesOn(w, n, e);
    Peel(w, n, e + 2);
  }

  /** Squaring turns one step into two. */
  lemma SquaredStep(w: bv16, n: nat, e: nat)
    requires Squares(n, e)
    ensures Spread(BitStep(w), n, e) == TwoSteps(Spread(w, n, e))
  {
    SquareOfStep(w, n, e);
    TwoStepsOfSquare(w, n, e);
    XorIsCommutative(Term(Low(w), Power(e + 2)), Spread(Half(w), n - 1, e));
  }

  lemma {:induction false} SquaredPower(k: nat, n: nat, e: nat)
    requires Squares(n, e)
    ensures Power(k + k) == Spread(Power(k), n, e)
  {
    if k > 0 {
      SquaredPower(k - 1, n, e);
      SquaredStep(Power(k - 1), n, e);
      OneMoreStep(k - 1);
      OneMoreStep(k - 1 + k - 1);
      OneMoreStep(k - 1 + k);
    }
  }

  /** Sixteen places do; their number is not given away, for proofs that need no more than this. */
  lemma SomePlacesSquare() returns (n: nat, e: nat)
    ensures Squares(n, e) && forall w: bv16 :: Spread(w, n, e) == Worked(w)
  {
    n, e := 16, 30;
    FifteenIsFree();
    SpecialSquares();
    forall w: bv16
      ensures Spread(w, 16, 30) == Worked(w)
    {
      SquaredIsWorked(w);
    }
  }

  /** From a power to that of twice the steps, worked out, and to one step more. */
  lemma Doubled(k: nat, w: bv16, v: bv16)
    requires Power(k) == w && Worked(w) == v
    ensures Power(k + k) == v && Power(k + k + 1) == BitStep(v)
  {
    var n, e := SomePlacesSquare();
    SquaredPower(k, n, e);
    OneMoreStep(k + k);
  }

  // ----- the order of the step -----

  lemma LastPlaces()
    ensures Power(8) == 0x0080 && Power(9) == 0x0040 && Power(13) == 0x0004 && Power(15) == 0x0001
  {
    EvenPowers();
    OneMoreStep(8);
    OneMoreStep(12);
    OneMoreStep(14);
    StepOf(0x0080);
    StepOf(0x0008);
    StepOf(0x0002);
  }

  lemma Power32767()
    ensures Power(32767) == 0x8000
  {
    LastPlaces();
    Doubled(15, 0x0001, 0x33B0);
    StepOf(0x33B0);
    Doubled(31, 0x19D8, 0x0856);
    StepOf(0x0856);
    Doubled(63, 0x042B, 0xFDD4);
    StepOf(0xFDD4);
    Doubled(127, 0x7EEA, 0x41E6);
    StepOf(0x41E6);
    Doubled(255, 0x20F3, 0xFF20);
    StepOf(0xFF20);
    Doubled(511, 0x7F90, 0x8DB0);
    StepOf(0x8DB0);
    Doubled(1023, 0x46D8, 0x2AFC);
    StepOf(0x2AFC);
    Doubled(2047, 0x157E, 0xED45);
    StepOf(0xED45);
    Doubled(4095, 0xF2AA, 0xE044);
    StepOf(0xE044);
    Doubled(8191, 0x7022, 0x6888);
    StepOf(0x6888);
    Doubled(16383, 0x3444, 0x0811);
    StepOf(0x0811);
  }

  lemma Power4681()
    ensures Power(4681) == 0x4234
  {
    LastPlaces();
    Doubled(9, 0x0040, 0x2102);
    Doubled(18, 0x2102, 0xC6C2);
    Doubled(36, 0xC6C2, 0xCBE2);
    StepOf(0xCBE2);
    Doubled(73, 0x65F1, 0x11C2);
    Doubled(146, 0x11C2, 0x69C8);
    Doubled(292, 0x69C8, 0x0144);
    StepOf(0x0144);
    Doubled(585, 0x00A2, 0xC680);
    Doubled(1170, 0xC680, 0x2420);
    Doubled(2340, 0x2420, 0x8468);
    StepOf(0x8468);
  }

  lemma Power1057()
    ensures Power(1057) == 0xF54F
  {
    LastPlaces();
    Doubled(8, 0x0080, 0x8408);
    Doubled(16, 0x8408, 0x0CEC);
    StepOf(0x0CEC);
    Doubled(33, 0x0676, 0x6383);
    Doubled(66, 0x6383, 0x5172);
    Doubled(132, 0x5172, 0x629A);
    Doubled(264, 0x629A, 0xCD1E);
    Doubled(528, 0xCD1E, 0xE28F);
    StepOf(0xE28F);
  }

  lemma Power217()
    ensures Power(217) == 0xC712
  {
    LastPlaces();
    Doubled(13, 0x0004, 0x2333);
    StepOf(0x2333);
    Doubled(27, 0x9591, 0x1688);
    Doubled(54, 0x1688, 0x0AEC);
    Doubled(108, 0x0AEC, 0x8635);
    StepOf(0x8635);
  }

  lemma {:induction false} PowersRepeat(m: nat, q: nat, d: nat)
    requires Power(d) == 0x8000
    ensures Power(m + q * d) == Power(m)
    decreases q
  {
    if q > 0 {
      var before := m + (q - 1) * d;
      assert m + q * d == d + before;
      StepsAdd(0x8000, d, before);
      PowersRepeat(m, q - 1, d);
    }
  }

  lemma PowerOfRemainder(n: nat, d: nat)
    requires d > 0 && Power(d) == 0x8000
    ensures Power(n) == Power(n % d)
  {
    assert n == n % d + (n / d) * d;
    PowersRepeat(n % d, n / d, d);
  }

  /** A period that divides 32767, if there is any shorter one. */
  lemma {:induction false} SomePeriodDivides(d: nat) returns (e: nat)
    requires 0 < d < 32767 && Power(d) == 0x8000
    ensures 0 < e < 32767 && Power(e) == 0x8000 && 32767 % e == 0
    decreases d
  {
    var r := 32767 % d;
    if r == 0 {
      e := d;
    } else {
      Power32767();
      PowerOfRemainder(32767, d);
      e := SomePeriodDivides(r);
    }
  }

  lemma SmallFactor(e: nat, f: nat)
    requires 0 < f <= 181 && e * f == 32767
    ensures f == 1 || f == 7 || f == 31 || f == 151
  {
  }

  lemma OneIsSmall(e: nat, f: nat)
    requires e * f == 32767 && e > 181
    ensures 0 < f <= 181
  {
  }

  lemma ProperDivisors(e: nat)
    requires 0 < e < 32767 && 32767 % e == 0
    ensures 4681 % e == 0 || 1057 % e == 0 || 217 % e == 0
  {
    var f := 32767 / e;
    assert e * f == 32767;
    if e <= 181 {
      SmallFactor(f, e);
    } else {
      OneIsSmall(e, f);
      SmallFactor(e, f);
      assert e == 4681 || e == 1057 || e == 217;
    }
  }

  /** No fewer than 32767 steps bring the register back. */
  lemma PowersDiffer(d: nat)
    requires 0 < d < 32767
    ensures Power(d) != 0x8000
  {
    if Power(d) == 0x8000 {
      var e := SomePeriodDivides(d);
      ProperDivisors(e);
      PowerOfRemainder(4681, e);
      PowerOfRemainder(1057, e);
      PowerOfRemainder(217, e);
      Power4681();
      Power1057();
      Power217();
      assert false;
    }
  }

  // ----- two errors, in a frame of any length -----

  lemma {:induction false} FeedsAreLinear(c: bv16, c': bv16, x: seq<bool>, y: seq<bool>)
    requires |x| == |y|
    ensures BitFeed(Xor(c, c'), Flips(x, y)) == Xor(BitFeed(c, x), BitFeed(c', y))
    decreases |x|
  {
    if x != [] {
      var b, b' := Bit(x[0]), Bit(y[0]);
      assert Flips(x, y)[1..] == Flips(x[1..], y[1..]);
      BitOfFlip(x[0], y[0]);
      XorExchange(c, c', b, b');
      StepIsLinear(Xor(c, b), Xor(c', b'));
      FeedsAreLinear(BitStep(Xor(c, b)), BitStep(Xor(c', b')), x[1..], y[1..]);
    }
  }

  lemma BitOfFlip(b: bool, b': bool)
    ensures Bit(b != b') == Xor(Bit(b), Bit(b'))
  {
  }

  lemma {:induction false} FeedNothing(c: bv16, bits: seq<bool>)
    requires forall k :: 0 <= k < |bits| ==> !bits[k]
    ensures BitFeed(c, bits) == BitSteps(c, |bits|)
    decreases |bits|
  {
    if bits != [] {
      XorUnits(c);
      FeedNothing(BitStep(c), bits[1..]);
    }
  }

  predicate OnlyAt(bits: seq<bool>, p: nat) {
    p < |bits| && forall k :: 0 <= k < |bits| ==> (bits[k] <==> k == p)
  }

  predicate OnlyAtBoth(bits: seq<bool>, i: nat, j: nat) {
    i < j < |bits| && forall k :: 0 <= k < |bits| ==> (bits[k] <==> k == i || k == j)
  }

  lemma {:induction false} FeedOne(c: bv16, bits: seq<bool>, p: nat)
    requires OnlyAt(bits, p)
    ensures BitFeed(c, bits) == 0 <==> BitSteps(c, p) == 1
    decreases p
  {
    if p == 0 {
      FeedNothing(BitStep(Xor(c, 1)), bits[1..]);
      StepsOfZero(|bits|);
      if BitSteps(Xor(c, 1), |bits|) == 0 {
        StepsAreInjective(Xor(c, 1), 0, |bits|);
      }
      XorIsZero(c, 1);
    } else {
      XorUnits(c);
      FeedOne(BitStep(c), bits[1..], p - 1);
    }
  }

  lemma {:induction false} FeedTwo(bits: seq<bool>, i: nat, j: nat)
    requires OnlyAtBoth(bits, i, j)
    ensures BitFeed(0, bits) == 0 <==> BitSteps(1, j - i) == 1
    decreases i
  {
    XorUnits(0);
    XorUnits(1);
    if i == 0 {
      FeedOne(BitStep(1), bits[1..], j - 1);
    } else {
      StepsOfZero(1);
      FeedTwo(bits[1..], i - 1, j - 1);
    }
  }

  /** The register returns after multiples of 32767 steps only. */
  lemma OneReturns(d: nat)
    ensures BitSteps(1, d) == 1 <==> d % 32767 == 0
  {
    Power32767();
    PowerOfRemainder(d, 32767);
    LastPlaces();
    StepsAdd(0x8000, 15, d);
    StepsAdd(0x8000, d, 15);
    if BitSteps(1, d) == 1 {
      StepsAreInjective(Power(d), 0x8000, 15);
    }
    if d % 32767 != 0 {
      PowersDiffer(d % 32767);
    }
  }

  lemma FeedTwoReturns(bits: seq<bool>, i: nat, j: nat)
    requires OnlyAtBoth(bits, i, j)
    ensures BitFeed(0, bits) == 0 <==> (j - i) % 32767 == 0
  {
    FeedTwo(bits, i, j);
    OneReturns(j - i);
  }

  lemma TwoFlips(x: seq<bool>, y: seq<bool>, i: nat, j: nat)
    requires |x| == |y| && BitFeed(INITIAL, x) == 0 && OnlyAtBoth(Flips(x, y), i, j)
    ensures BitFeed(INITIAL, y) == 0 <==> (j - i) % 32767 == 0
  {
    WhatIsLeft(x, y);
    FeedTwoReturns(Flips(x, y), i, j);
  }

  /** Exactly when two flipped bits go unnoticed, in a frame of any length: when they are a multiple of 32767
      places apart. */
  lemma TwoErrorsGoUnnoticedExactlyWhen(a: seq<bv8>, b: seq<bv8>, i: nat, j: nat)
    requires |a| == |b| && HasValidCrc(a) && OnlyAtBoth(Flips(MessageBits(a), MessageBits(b)), i, j)
    ensures HasValidCrc(b) <==> (j - i) % 32767 == 0
  {
    ResidueIsZero(a);
    ResidueIsZero(b);
    TwoFlips(MessageBits(a), MessageBits(b), i, j);
  }

  lemma WhatIsLeft(x: seq<bool>, y: seq<bool>)
    requires |x| == |y| && BitFeed(INITIAL, x) == 0
    ensures BitFeed(INITIAL, y) == 0 <==> BitFeed(0, Flips(x, y)) == 0
  {
    FeedsAreLinear(INITIAL, INITIAL, x, y);
    XorUnits(INITIAL);
    XorUnits(BitFeed(INITIAL, y));
  }

  // ----- few errors, in a frame of up to 4095 bytes -----

  lemma {:induction false} WhereNone(bits: seq<bool>)
    requires Ones(bits) == 0
    ensures forall k :: 0 <= k < |bits| ==> !bits[k]
  {
    if bits != [] {
      WhereNone(bits[1..]);
      assert forall k :: 0 < k < |bits| ==> bits[k] == bits[1..][k - 1];
    }
  }

  lemma {:induction false} WhereOne(bits: seq<bool>) returns (p: nat)
    requires Ones(bits) == 1
    ensures OnlyAt(bits, p)
  {
    assert forall k :: 0 < k < |bits| ==> bits[k] == bits[1..][k - 1];
    if bits[0] {
      WhereNone(bits[1..]);
      p := 0;
    } else {
      var later := WhereOne(bits[1..]);
      p := later + 1;
    }
  }

  lemma {:induction false} WhereTwo(bits: seq<bool>) returns (i: nat, j: nat)
    requires Ones(bits) == 2
    ensures OnlyAtBoth(bits, i, j)
  {
    assert forall k :: 0 < k < |bits| ==> bits[k] == bits[1..][k - 1];
    if bits[0] {
      var later := WhereOne(bits[1..]);
      i, j := 0, later + 1;
    } else {
      i, j := WhereTwo(bits[1..]);
      i, j := i + 1, j + 1;
    }
  }

  lemma TwoErrorsAreDetected(a: seq<bv8>, b: seq<bv8>)
    requires |a| == |b| <= 4095 && HasValidCrc(a) && HasValidCrc(b)
    ensures Ones(Flips(MessageBits(a), MessageBits(b))) != 2
  {
    if Ones(Flips(MessageBits(a), MessageBits(b))) == 2 {
      var i, j := WhereTwo(Flips(MessageBits(a), MessageBits(b)));
      TwoErrorsGoUnnoticedExactlyWhen(a, b, i, j);
      assert false;
    }
  }

  lemma AcceptedDifferEvenly(a: seq<bv8>, b: seq<bv8>, ones: nat)
    requires |a| == |b| && HasValidCrc(a) && HasValidCrc(b)
    requires ones == Ones(Flips(MessageBits(a), MessageBits(b)))
    ensures ones % 2 == 0
  {
    if ones % 2 == 1 {
      OddErrorsAreDetected(a, b);
    }
  }

  /** Two accepted frames of one length are equal or differ in four bits or more. */
  lemma AcceptedDifferMuch(a: seq<bv8>, b: seq<bv8>) returns (ones: nat)
    requires |a| == |b| <= 4095 && HasValidCrc(a) && HasValidCrc(b)
    ensures ones == Ones(Flips(MessageBits(a), MessageBits(b))) && (ones == 0 || ones >= 4)
  {
    ones := Ones(Flips(MessageBits(a), MessageBits(b)));
    TwoErrorsAreDetected(a, b);
    AcceptedDifferEvenly(a, b, ones);
  }

  /** Any one, two or three flipped bits turn an accepted frame into a rejected one. */
  lemma FewErrorsAreDetected(a: seq<bv8>, b: seq<bv8>)
    requires |a| == |b| <= 4095 && HasValidCrc(a)
    requires 1 <= Ones(Flips(MessageBits(a), MessageBits(b))) <= 3
    ensures !HasValidCrc(b)
  {
    if HasValidCrc(b) {
      var ones := AcceptedDifferMuch(a, b);
      assert false;
    }
  }
}
