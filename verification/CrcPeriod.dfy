/** The period of the CRC register, and which pairs of flipped bits CRC-16/ARC detects. */
module CrcPeriod {
  import opened Bytes
  import opened Crc
  import opened CrcDetect

  const PERIOD: nat := 32767

  /** The register that stands for the polynomial 1; each shift multiplies by x. */
  function Unit(): Reg { Falses(15) + [true] }

  lemma ShiftsLast(c: Reg, n: nat)
    ensures Shifts(c, n + 1) == Shift(Shifts(c, n))
  {
    hide Shift;
    ShiftsAdd(c, n, 1);
  }

  lemma {:induction false} UnitBits(n: nat)
    requires n < 16
    ensures forall i :: 0 <= i < 16 ==> (Shifts(Unit(), n)[i] <==> i == 15 - n)
  {
    hide Shift, Shifts;
    if n == 0 {
      ShiftsNone(Unit());
    } else {
      UnitBits(n - 1);
      ShiftsLast(Unit(), n - 1);
      ShiftBits(Shifts(Unit(), n - 1));
    }
  }

  lemma ShiftsNone(c: Reg)
    ensures Shifts(c, 0) == c
  {
  }

  // ── the factor x^15 + x + 1 of the polynomial ────────────────────────

  /** Multiplied by x^15 + x + 1 this register vanishes. */
  predicate Even(w: Reg) { Shifts(w, 15) == XorReg(Shift(w), w) }

  lemma EvenShifts(w: Reg, n: nat)
    requires Even(w)
    ensures Even(Shifts(w, n))
  {
    hide Shift, Shifts, XorReg;
    ShiftsAdd(w, n, 15);
    ShiftsAdd(w, 15, n);
    ShiftsLinear(Shift(w), w, n);
    ShiftsLast(w, n);
    ShiftFirst(w, n);
    assert 15 + n == n + 15;
  }

  lemma ShiftFirst(c: Reg, n: nat)
    ensures Shifts(c, n + 1) == Shifts(Shift(c), n)
  {
    hide Shift;
  }

  /** In characteristic 2, squaring x^16 = x^2 + x squares every term. */
  lemma {:induction false} Squared(w: Reg, k: nat)
    requires Even(w)
    ensures Shifts(w, 16 * Pow2(k)) == XorReg(Shifts(w, 2 * Pow2(k)), Shifts(w, Pow2(k)))
    decreases k
  {
    hide Shift, Shifts, Even, XorReg;
    if k == 0 {
      SixteenShifts(w);
    } else {
      var m := Pow2(k - 1);
      var a, b := Shifts(w, 2 * m), Shifts(w, m);
      Squared(w, k - 1);
      EvenShifts(w, 2 * m);
      EvenShifts(w, m);
      Squared(a, k - 1);
      Squared(b, k - 1);
      ShiftsAdd(w, 16 * m, 16 * m);
      ShiftsLinear(a, b, 16 * m);
      ShiftsAdd(w, 2 * m, 2 * m);
      ShiftsAdd(w, 2 * m, m);
      ShiftsAdd(w, m, 2 * m);
      ShiftsAdd(w, m, m);
      assert 2 * m + m == m + 2 * m && 2 * m + 2 * m == 2 * Pow2(k) && m + m == Pow2(k);
      Cancels(Shifts(a, 2 * m), Shifts(a, m), Shifts(b, m));
    }
  }

  lemma SixteenShifts(w: Reg)
    requires Even(w)
    ensures Shifts(w, 16) == XorReg(Shifts(w, 2), Shifts(w, 1))
  {
    hide Shift, Shifts;
    ShiftsLast(w, 15);
    ShiftLinear(Shift(w), w);
    ShiftsLast(w, 1);
    ShiftsLast(w, 0);
    ShiftsNone(w);
  }

  lemma Cancels(a: Reg, b: Reg, c: Reg)
    ensures XorReg(XorReg(a, b), XorReg(b, c)) == XorReg(a, c)
  {
  }

  // ── one bit of the register over time ────────────────────────────────

  predicate Out(w: Reg, i: nat, n: nat)
    requires i < 16
  {
    Shifts(w, n)[i]
  }

  lemma OutSquared(w: Reg, i: nat, n: nat, k: nat)
    requires Even(w) && i < 16
    ensures Out(w, i, n + 16 * Pow2(k)) == (Out(w, i, n + 2 * Pow2(k)) != Out(w, i, n + Pow2(k)))
  {
    hide Shifts, Even;
    EvenShifts(w, n);
    Squared(Shifts(w, n), k);
    ShiftsAdd(w, n, 16 * Pow2(k));
    ShiftsAdd(w, n, 2 * Pow2(k));
    ShiftsAdd(w, n, Pow2(k));
  }

  /** The bit 2^k steps later, in terms of the next eight steps. */
  lemma OutPowers(w: Reg, i: nat, n: nat)
    requires Even(w) && i < 16
    ensures
      var a, b, c, d := Out(w, i, n + 1), Out(w, i, n + 2), Out(w, i, n + 4), Out(w, i, n + 8);
      && Out(w, i, n + 16) == (b != a) && Out(w, i, n + 32) == (c != b) && Out(w, i, n + 64) == (d != c)
      && Out(w, i, n + 256) == (c != a) && Out(w, i, n + 512) == (d != b) && Out(w, i, n + 1024) == (c != (b != a))
      && Out(w, i, n + 4096) == (d != (c != (b != a))) && Out(w, i, n + 32768) == a
  {
    hide Out, Even, Pow2;
    Powers();
    forall k: nat | k < 12
      ensures Out(w, i, n + 16 * Pow2(k)) == (Out(w, i, n + 2 * Pow2(k)) != Out(w, i, n + Pow2(k)))
    {
      OutSquared(w, i, n, k);
    }
  }

  lemma Powers()
    ensures Pow2(0) == 1 && Pow2(1) == 2 && Pow2(2) == 4 && Pow2(3) == 8 && Pow2(4) == 16 && Pow2(5) == 32
    ensures Pow2(6) == 64 && Pow2(7) == 128 && Pow2(8) == 256 && Pow2(9) == 512 && Pow2(10) == 1024 && Pow2(11) == 2048
  {
    assert Pow2(3) == 8;
    assert Pow2(6) == 64;
    assert Pow2(9) == 512;
  }

  // ── the order of x ───────────────────────────────────────────────────

  /** The register that stands for x + 1. */
  function Seed(): Reg { XorReg(Unit(), Shift(Unit())) }

  lemma SeedShifts(n: nat)
    ensures Shifts(Seed(), n) == XorReg(Shifts(Unit(), n), Shifts(Unit(), n + 1))
  {
    hide Shift, Unit, XorReg;
    ShiftsLinear(Unit(), Shift(Unit()), n);
    ShiftFirst(Unit(), n);
  }

  lemma SeedEven()
    ensures Even(Seed())
  {
    hide Shifts, Unit, Shift;
    SeedShifts(15);
    SeedShifts(1);
    SeedShifts(0);
    UnitBits(0);
    UnitBits(1);
    UnitBits(2);
    UnitBits(15);
    ShiftsLast(Unit(), 15);
    ShiftsNone(Seed());
    ShiftsLast(Seed(), 0);
    ShiftBits(Shifts(Unit(), 15));
  }

  /** The top bit of the seed comes back first after 15 steps. */
  lemma SeedOut(n: nat)
    requires n < 15
    ensures Out(Seed(), 15, n) <==> n == 0
  {
    hide Shifts, Unit, Shift, Seed;
    SeedShifts(n);
    UnitBits(n);
    UnitBits(n + 1);
  }

  predicate Returns(d: nat) { Shifts(Seed(), d) == Seed() }

  lemma ReturnsOut(d: nat, n: nat)
    requires Returns(d)
    ensures Out(Seed(), 15, d + n) == Out(Seed(), 15, n)
  {
    hide Seed, Shifts;
    ShiftsAdd(Seed(), d, n);
  }

  lemma SeedOut15()
    ensures Out(Seed(), 15, 15)
  {
    hide Shifts, Unit, Shift;
    SeedShifts(15);
    UnitBits(15);
    ShiftsLast(Unit(), 15);
    ShiftBits(Shifts(Unit(), 15));
  }

  lemma Out16(n: nat)
    requires n >= 16
    ensures Out(Seed(), 15, n) == (Out(Seed(), 15, n - 14) != Out(Seed(), 15, n - 15))
  {
    hide Out, Seed;
    SeedEven();
    OutPowers(Seed(), 15, n - 16);
  }

  lemma Out64(n: nat)
    requires n >= 64
    ensures Out(Seed(), 15, n) == (Out(Seed(), 15, n - 56) != Out(Seed(), 15, n - 60))
  {
    hide Out, Seed;
    SeedEven();
    OutPowers(Seed(), 15, n - 64);
  }

  lemma Out512(n: nat)
    requires n >= 512
    ensures Out(Seed(), 15, n) == (Out(Seed(), 15, n - 504) != Out(Seed(), 15, n - 510))
  {
    hide Out, Seed;
    SeedEven();
    OutPowers(Seed(), 15, n - 512);
  }

  lemma {:induction false} Early(n: nat)
    requires n < 44
    ensures Out(Seed(), 15, n) <==> n == 0 || n == 15 || n == 29 || n == 30 || n == 43
  {
    hide Out, Seed;
    if n < 15 {
      SeedOut(n);
    } else if n == 15 {
      SeedOut15();
    } else {
      Out16(n);
      Early(n - 14);
      Early(n - 15);
    }
  }

  /** The order does not divide 217: x^260 is x^8 + x^5, and x^43 has the term 1. */
  lemma NotAt217()
    ensures !Returns(217)
  {
    hide Returns, Out, Seed;
    SeedEven();
    OutPowers(Seed(), 15, 4);
    Early(5);
    Early(8);
    Early(43);
    if Returns(217) {
      ReturnsOut(217, 43);
      assert false;
    }
  }

  /** x^1057 is x^9 + x^6 + x^5 + x^4. */
  lemma NotAt1057()
    ensures !Returns(1057)
  {
    hide Returns, Out, Seed;
    SeedEven();
    OutPowers(Seed(), 15, 33);
    Early(34);
    Early(35);
    Early(37);
    Early(0);
    if Returns(1057) {
      ReturnsOut(1057, 0);
      assert false;
    }
  }

  lemma Late(n: nat)
    requires 64 <= n < 90
    ensures Out(Seed(), 15, n) <==> n == 71 || n == 75 || n == 85 || n == 86 || n == 89
  {
    hide Out, Seed;
    Out64(n);
    Early(n - 56);
    Early(n - 60);
  }

  lemma Later(n: nat)
    requires n == 586 || n == 587 || n == 589 || n == 593
    ensures Out(Seed(), 15, n) <==> n == 589 || n == 593
  {
    hide Out, Seed;
    Out512(n);
    Late(n - 504);
    Late(n - 510);
  }

  /** x^4681 is x^12 + x^10 + x^9 + x^5 + x^4 + x. */
  lemma NotAt4681()
    ensures !Returns(4681)
  {
    hide Returns, Out, Seed;
    SeedEven();
    OutPowers(Seed(), 15, 585);
    Later(586);
    Later(587);
    Later(589);
    Later(593);
    Early(0);
    if Returns(4681) {
      ReturnsOut(4681, 0);
      assert false;
    }
  }

  // ── the returns are the multiples of the period ──────────────────────

  lemma AtPeriod()
    ensures Returns(PERIOD)
  {
    hide Seed;
    SeedEven();
    var w := Seed();
    var r := Shifts(w, PERIOD);
    forall i | 0 <= i < 16
      ensures Shifts(w, 32768)[i] == Shifts(w, 1)[i]
    {
      OutPowers(w, i, 0);
    }
    ShiftsLast(w, PERIOD);
    ShiftsLast(w, 0);
    ShiftsNone(w);
    ShiftInjective(r, w);
  }

  lemma ShiftInjective(a: Reg, b: Reg)
    requires Shift(a) == Shift(b)
    ensures a == b
  {
    hide Shift;
    ShiftLinear(a, b);
    ShiftKernel(XorReg(a, b));
    assert XorReg(Shift(a), Shift(b)) == Zero();
    assert forall i :: 0 <= i < 16 ==> !XorReg(a, b)[i];
  }

  lemma {:induction false} ShiftsInjective(a: Reg, b: Reg, n: nat)
    requires Shifts(a, n) == Shifts(b, n)
    ensures a == b
    decreases n
  {
    hide Shift;
    if n > 0 {
      ShiftsInjective(Shift(a), Shift(b), n - 1);
      ShiftInjective(a, b);
    }
  }

  lemma ReturnsSum(a: nat, b: nat)
    requires Returns(a)
    ensures Returns(a + b) <==> Returns(b)
  {
    hide Seed, Shifts;
    ShiftsAdd(Seed(), a, b);
  }

  lemma {:induction false} ReturnsMultiple(a: nat, k: nat)
    requires Returns(a)
    ensures Returns(k * a)
    decreases k
  {
    hide Returns;
    if k == 0 {
      ReturnsNever();
    } else {
      ReturnsMultiple(a, k - 1);
      ReturnsSum(a, (k - 1) * a);
      assert a + (k - 1) * a == k * a;
    }
  }

  lemma ReturnsNever()
    ensures Returns(0)
  {
    ShiftsNone(Seed());
  }

  /** Two returns have a common divisor that is one. */
  lemma {:induction false} Common(a: nat, b: nat) returns (g: nat, j: nat, k: nat)
    requires a > 0 && Returns(a) && Returns(b)
    ensures g > 0 && Returns(g) && a == j * g && b == k * g
    decreases a + b
  {
    hide Returns;
    if b == 0 {
      g, j, k := a, 1, 0;
    } else if a <= b {
      ReturnsSum(a, b - a);
      g, j, k := Common(a, b - a);
      k := j + k;
    } else {
      ReturnsSum(b, a - b);
      g, j, k := Common(a - b, b);
      j := j + k;
    }
  }

  /** 32767 is 7 * 31 * 151. */
  lemma SmallDivisor(g: nat, q: nat)
    requires 0 < g <= 181 && g * q == PERIOD
    ensures g == 1 || g == 7 || g == 31 || g == 151
  {
  }

  lemma OneIsSmall(g: nat, q: nat)
    requires g * q == PERIOD
    ensures g <= 181 || q <= 181
  {
  }

  /** The order divides none of 217, 1057 and 4681, so no proper divisor of 32767 is a return. */
  lemma ProperDivisor(g: nat, q: nat)
    requires g * q == PERIOD && q > 1
    ensures !Returns(g)
  {
    hide Returns;
    NotAt217();
    NotAt1057();
    NotAt4681();
    OneIsSmall(g, q);
    if q <= 181 {
      SmallDivisor(q, g);
    } else if Returns(g) {
      SmallDivisor(g, q);
      ReturnsMultiple(g, 7);
      ReturnsMultiple(g, 31);
      ReturnsMultiple(g, 217);
      assert false;
    }
  }

  /** The register comes back exactly after the multiples of 32767 steps. */
  lemma ReturnsIff(d: nat)
    ensures Returns(d) <==> d % PERIOD == 0
  {
    hide Returns;
    AtPeriod();
    var r, k := d % PERIOD, d / PERIOD;
    ReturnsMultiple(PERIOD, k);
    ReturnsSum(k * PERIOD, r);
    ReturnsNever();
    if r > 0 && Returns(r) {
      var g, i, j := Common(r, PERIOD);
      Proper(r, g, i, j);
      ProperDivisor(g, j);
      assert false;
    }
  }

  lemma Proper(r: nat, g: nat, i: nat, j: nat)
    requires 0 < r < PERIOD && r == i * g && PERIOD == j * g && g > 0
    ensures g * j == PERIOD && j > 1
  {
  }

  // ── from the seed to single bits ─────────────────────────────────────

  /** An even register that a shift leaves alone is zero. */
  lemma FixedEven(e: Reg)
    requires Shift(e) == e && !Odd(e)
    ensures e == Zero()
  {
    hide Shift;
    ShiftBits(e);
    assert forall i :: 1 <= i < 13 ==> e[i] == e[i + 1];
    assert e[13] == (e[14] != e[0]) && e[14] == e[15] && e[15] == e[0];
    OddTrinomial();
    assert e[0] ==> e == [true] + (Falses(13) + [true, true]);
    assert e == Zero();
  }

  lemma OddTrinomial()
    ensures Odd([true] + (Falses(13) + [true, true]))
  {
    OddConcat([true], Falses(13) + [true, true]);
    OddConcat(Falses(13), [true, true]);
    OddFalses(13);
    assert [true, true][1..] == [true];
  }

  lemma OddXorReg(a: Reg, b: Reg)
    ensures Odd(XorReg(a, b)) == (Odd(a) != Odd(b))
  {
    hide Odd;
    OddXor(a, b);
  }

  lemma {:induction false} OddShifts(c: Reg, n: nat)
    ensures Odd(Shifts(c, n)) == Odd(c)
    decreases n
  {
    hide Shift, Odd;
    if n > 0 {
      OddShift(c);
      OddShifts(Shift(c), n - 1);
    }
  }

  /** The single bit comes back exactly when the seed does. */
  lemma UnitReturns(d: nat)
    ensures Shifts(Unit(), d) == Unit() <==> Returns(d)
  {
    hide Shift, Shifts, Unit, XorReg, Odd;
    var a, b := Shifts(Unit(), d), Unit();
    SeedShifts(d);
    ShiftsLast(b, d);
    if Returns(d) {
      var e := XorReg(a, b);
      ShiftLinear(a, b);
      Crossed(a, Shift(a), b, Shift(b));
      OddShifts(b, d);
      OddXorReg(a, b);
      FixedEven(e);
      XorIsZero(a, b);
    }
  }

  lemma Crossed(a: Reg, a': Reg, b: Reg, b': Reg)
    requires XorReg(a, a') == XorReg(b, b')
    ensures XorReg(a', b') == XorReg(a, b)
  {
    assert forall i :: 0 <= i < 16 ==> XorReg(a, a')[i] == XorReg(b, b')[i];
  }

  lemma XorIsZero(a: Reg, b: Reg)
    ensures XorReg(a, b) == Zero() <==> a == b
  {
    if XorReg(a, b) == Zero() {
      assert forall i :: 0 <= i < 16 ==> !XorReg(a, b)[i];
    }
  }

  // ── pairs of flipped bits ────────────────────────────────────────────

  lemma {:induction false} FeedFalsesIsShifts(c: Reg, n: nat)
    ensures FeedBits(c, Falses(n)) == Shifts(c, n)
    decreases n
  {
    hide Shift;
    if n > 0 {
      assert Falses(n)[1..] == Falses(n - 1);
      assert c[0 := c[0] != false] == c;
      FeedFalsesIsShifts(Shift(c), n - 1);
    }
  }

  /** What a single bit leaves in the register. */
  function Mark(): Reg { FeedBit(Zero(), true) }

  lemma MarkIs()
    ensures Mark() == Shifts(Unit(), 16)
    ensures forall c: Reg :: FeedBit(c, true) == XorReg(Shift(c), Mark())
  {
    hide Shift;
    UnitBits(15);
    ShiftsLast(Unit(), 15);
    var first: Reg := Zero()[0 := true];
    assert Shifts(Unit(), 15) == first;
    forall c: Reg
      ensures FeedBit(c, true) == XorReg(Shift(c), Mark())
    {
      ShiftLinear(c, first);
      assert c[0 := c[0] != true] == XorReg(c, first);
    }
  }

  lemma MarkReturns(n: nat)
    ensures Shifts(Mark(), n) == Mark() <==> n % PERIOD == 0
  {
    hide Shifts, Unit, Mark;
    MarkIs();
    ShiftsAdd(Unit(), 16, n);
    ShiftsAdd(Unit(), n, 16);
    if Shifts(Mark(), n) == Mark() {
      ShiftsInjective(Shifts(Unit(), n), Unit(), 16);
    }
    UnitReturns(n);
    ReturnsIff(n);
  }

  /** Exactly the bits `i` and `j` are set. */
  ghost predicate Pair(d: seq<bool>, i: nat, j: nat)
  {
    i < j < |d| && forall k :: 0 <= k < |d| ==> (d[k] <==> k == i || k == j)
  }

  lemma PairCut(d: seq<bool>, i: nat, j: nat)
    requires Pair(d, i, j)
    ensures d == Falses(i) + ([true] + (Falses(j - i - 1) + ([true] + Falses(|d| - j - 1))))
  {
  }

  lemma FeedOne(c: Reg, rest: seq<bool>)
    ensures FeedBits(c, [true] + rest) == FeedBits(FeedBit(c, true), rest)
  {
    hide FeedBit;
    assert ([true] + rest)[1..] == rest;
  }

  /** A pair goes unnoticed exactly if its distance is a multiple of 32767. */
  lemma PairDetected(d: seq<bool>, i: nat, j: nat)
    requires Pair(d, i, j)
    ensures FeedBits(Zero(), d) == Zero() <==> (j - i) % PERIOD == 0
  {
    hide FeedBits, FeedBit, Shifts, Mark;
    var n, r := j - i, |d| - j - 1;
    PairCut(d, i, j);
    var tail := [true] + Falses(r);
    FeedSplit(Zero(), Falses(i), [true] + (Falses(n - 1) + tail));
    FeedFalses(Zero(), i);
    FeedOne(Zero(), Falses(n - 1) + tail);
    assert FeedBit(Zero(), true) == Mark() by { MarkDef(); }
    FeedSplit(Mark(), Falses(n - 1), tail);
    FeedFalsesIsShifts(Mark(), n - 1);
    var c := Shifts(Mark(), n - 1);
    FeedOne(c, Falses(r));
    MarkIs();
    ShiftsLast(Mark(), n - 1);
    FeedFalses(FeedBit(c, true), r);
    XorIsZero(Shifts(Mark(), n), Mark());
    MarkReturns(n);
  }

  lemma MarkDef()
    ensures FeedBit(Zero(), true) == Mark()
  {
  }

  /** Two strings of one length that differ in two bits have equal CRCs exactly if those bits are that far apart. */
  lemma PairChangesCrc(c: Reg, s: seq<bool>, t: seq<bool>, i: nat, j: nat)
    requires |s| == |t| && Pair(XorBits(s, t), i, j)
    ensures FeedBits(c, s) == FeedBits(c, t) <==> (j - i) % PERIOD == 0
  {
    hide FeedBits, XorReg;
    FeedLinear(c, c, s, t);
    XorIsZero(c, c);
    XorIsZero(FeedBits(c, s), FeedBits(c, t));
    PairDetected(XorBits(s, t), i, j);
  }
}
