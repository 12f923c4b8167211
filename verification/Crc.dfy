/**
 CRC-16/ARC: the bit-by-bit definition, the nibble-table loop that the board firmware
 uses, and what the code detects. The 16-bit register is a vector of bits over GF(2),
 least significant bit first, which is also the order in which the reflected algorithm
 consumes the bits of each byte.
 */
module Crc {
  import opened Bytes

  type Reg = s: seq<bool> | |s| == 16 witness seq(16, _ => false)

  /** The four bits of a hexadecimal digit. */
  function Digit(n: nat): (r: seq<bool>)
    requires n < 16
    ensures |r| == 4
  {
    match n
    case 0 => [false, false, false, false]
    case 1 => [true, false, false, false]
    case 2 => [false, true, false, false]
    case 3 => [true, true, false, false]
    case 4 => [false, false, true, false]
    case 5 => [true, false, true, false]
    case 6 => [false, true, true, false]
    case 7 => [true, true, true, false]
    case 8 => [false, false, false, true]
    case 9 => [true, false, false, true]
    case 10 => [false, true, false, true]
    case 11 => [true, true, false, true]
    case 12 => [false, false, true, true]
    case 13 => [true, false, true, true]
    case 14 => [false, true, true, true]
    case _ => [true, true, true, true]
  }

  /** A register value written as four hexadecimal digits, most significant first. */
  function Hex(d3: nat, d2: nat, d1: nat, d0: nat): Reg
    requires d3 < 16 && d2 < 16 && d1 < 16 && d0 < 16
  {
    Digit(d0) + Digit(d1) + Digit(d2) + Digit(d3)
  }

  function Zero(): Reg { seq(16, _ => false) }

  /** The reflected polynomial 0xA001. */
  function Poly(): Reg { Hex(0xA, 0, 0, 1) }

  function Shr(c: Reg, n: nat): Reg
    requires n <= 16
  {
    c[n..] + seq(n, _ => false)
  }

  function XorReg(a: Reg, b: Reg): Reg { XorBits(a, b) }

  /** One zero bit through the register: `(c >> 1) ^ 0xA001` or `c >> 1`. */
  function Shift(c: Reg): Reg
  {
    if c[0] then XorReg(Shr(c, 1), Poly()) else Shr(c, 1)
  }

  function Shifts(c: Reg, n: nat): Reg
    decreases n
  {
    if n == 0 then c else Shifts(Shift(c), n - 1)
  }

  /** A byte widened to 16 bits. */
  function Widen(b: byte): Reg { ByteBits(b) + seq(8, _ => false) }

  function CrcByte(c: Reg, b: byte): Reg { Shifts(XorReg(c, Widen(b)), 8) }

  /** CRC-16/ARC of `data` from the seed `c`. */
  function Crc(c: Reg, data: Bytes): Reg
    decreases data
  {
    if data == [] then c else Crc(CrcByte(c, data[0]), data[1..])
  }

  /** Feeding a string in two pieces is feeding it whole. */
  lemma {:induction false} CrcSplit(c: Reg, a: Bytes, b: Bytes)
    ensures Crc(c, a + b) == Crc(Crc(c, a), b)
    decreases a
  {
    hide CrcByte;
    if a == [] {
      assert a + b == b;
    } else {
      CrcSplit(CrcByte(c, a[0]), a[1..], b);
      assert (a + b)[1..] == a[1..] + b;
    }
  }

  lemma CrcAppend(c: Reg, a: Bytes, b: byte)
    ensures Crc(c, a + [b]) == CrcByte(Crc(c, a), b)
  {
    hide CrcByte;
    CrcSplit(c, a, [b]);
  }

  lemma CrcNone(c: Reg, data: Bytes)
    ensures Crc(c, data[..0]) == c
  {
  }

  // ── the register as a number ─────────────────────────────────────────

  /** Exclusive or of two numbers, bit by bit. */
  function XorNum(a: nat, b: nat): nat
  {
    if a == 0 && b == 0 then 0 else (a + b) % 2 + 2 * XorNum(a / 2, b / 2)
  }

  function ShiftNum(c: nat): nat { if c % 2 == 1 then XorNum(c / 2, 0xA001) else c / 2 }

  function ShiftsNum(c: nat, n: nat): nat
    decreases n
  {
    if n == 0 then c else ShiftsNum(ShiftNum(c), n - 1)
  }

  /** CRC-16/ARC on numbers. */
  function CrcNum(c: nat, data: Bytes): nat
    decreases data
  {
    if data == [] then c else CrcNum(ShiftsNum(XorNum(c, data[0]), 8), data[1..])
  }

  lemma XorStep(x: nat, y: nat, a: nat, b: nat)
    requires x < 2 && y < 2
    ensures XorNum(x + 2 * a, y + 2 * b) == (if x == y then 0 else 1) + 2 * XorNum(a, b)
  {
  }

  lemma {:induction false} XorValue(a: seq<bool>, b: seq<bool>)
    requires |a| == |b|
    ensures OfBits(XorBits(a, b)) == XorNum(OfBits(a), OfBits(b))
  {
    if a == [] {
      assert XorBits(a, b) == [];
    } else {
      hide XorNum;
      XorValue(a[1..], b[1..]);
      assert XorBits(a, b)[1..] == XorBits(a[1..], b[1..]);
      XorStep(if a[0] then 1 else 0, if b[0] then 1 else 0, OfBits(a[1..]), OfBits(b[1..]));
    }
  }

  lemma {:induction false} FalsesValue(s: seq<bool>, n: nat)
    ensures OfBits(s + seq(n, _ => false)) == OfBits(s)
  {
    var z := seq(n, _ => false);
    if s != [] {
      FalsesValue(s[1..], n);
      assert (s + z)[1..] == s[1..] + z;
    } else if n > 0 {
      FalsesValue([], n - 1);
      assert (s + z)[1..] == [] + seq(n - 1, _ => false);
    } else {
      assert s + z == [];
    }
  }

  lemma FourMore(s: seq<bool>, rest: seq<bool>)
    requires |s| == 4
    ensures
      OfBits(s + rest) ==
      (if s[0] then 1 else 0) + (if s[1] then 2 else 0) + (if s[2] then 4 else 0) + (if s[3] then 8 else 0) + 16 * OfBits(rest)
  {
    var t := s + rest;
    assert t[1..] == s[1..] + rest && t[1..][1..] == s[2..] + rest && t[1..][1..][1..] == s[3..] + rest;
    assert t[1..][1..][1..][1..] == rest;
    assert OfBits(t[1..][1..][1..]) == (if s[3] then 1 else 0) + 2 * OfBits(rest);
    assert OfBits(t[1..][1..]) == (if s[2] then 1 else 0) + 2 * OfBits(t[1..][1..][1..]);
    assert OfBits(t[1..]) == (if s[1] then 1 else 0) + 2 * OfBits(t[1..][1..]);
  }

  lemma HexValue(d3: nat, d2: nat, d1: nat, d0: nat)
    requires d3 < 16 && d2 < 16 && d1 < 16 && d0 < 16
    ensures OfBits(Hex(d3, d2, d1, d0)) == 0x1000 * d3 + 0x100 * d2 + 0x10 * d1 + d0
  {
    hide Digit, OfBits;
    DigitValue(d0, Digit(d1) + Digit(d2) + Digit(d3));
    DigitValue(d1, Digit(d2) + Digit(d3));
    DigitValue(d2, Digit(d3));
    DigitValue(d3, []);
    assert Hex(d3, d2, d1, d0) == Digit(d0) + (Digit(d1) + Digit(d2) + Digit(d3));
    assert Digit(d1) + Digit(d2) + Digit(d3) == Digit(d1) + (Digit(d2) + Digit(d3));
    assert Digit(d3) + [] == Digit(d3);
    assert OfBits([]) == 0 by { NoBits(); }
  }

  lemma NoBits()
    ensures OfBits([]) == 0
  {
  }

  lemma DigitValue(d: nat, rest: seq<bool>)
    requires d < 16
    ensures OfBits(Digit(d) + rest) == d + 16 * OfBits(rest)
  {
    hide OfBits;
    FourMore(Digit(d), rest);
  }

  lemma HalfValue(c: Reg)
    ensures OfBits(Shr(c, 1)) == OfBits(c) / 2 && OfBits(c) % 2 == if c[0] then 1 else 0
  {
    FalsesValue(c[1..], 1);
  }

  lemma ShiftValue(c: Reg)
    ensures OfBits(Shift(c)) == ShiftNum(OfBits(c))
  {
    hide XorBits, Hex, XorNum, OfBits, Shr;
    HalfValue(c);
    XorValue(Shr(c, 1), Poly());
    HexValue(0xA, 0, 0, 1);
  }

  lemma {:induction false} ShiftsValue(c: Reg, n: nat)
    ensures OfBits(Shifts(c, n)) == ShiftsNum(OfBits(c), n)
    decreases n
  {
    hide Shift, ShiftNum;
    if n > 0 {
      ShiftValue(c);
      ShiftsValue(Shift(c), n - 1);
    }
  }

  lemma ByteValue(b: byte)
    ensures OfBits(ByteBits(b)) == b && OfBits(Widen(b)) == b
  {
    OfByteBitsByteBits(b);
    FalsesValue(ByteBits(b), 8);
  }

  /** The register's value is the CRC on numbers. */
  lemma {:induction false} CrcValue(c: Reg, data: Bytes)
    ensures OfBits(Crc(c, data)) == CrcNum(OfBits(c), data)
    decreases data
  {
    hide Shifts, ShiftsNum, XorNum, Widen, OfBits;
    if data != [] {
      ByteValue(data[0]);
      XorValue(c, Widen(data[0]));
      ShiftsValue(XorReg(c, Widen(data[0])), 8);
      CrcValue(CrcByte(c, data[0]), data[1..]);
    }
  }

  // ── the loops of the reference implementation ────────────────────────

  /** The standard bit-by-bit loop. */
  method Crc16Arc(data: Bytes, init: Reg) returns (crc: Reg)
    ensures crc == Crc(init, data) && OfBits(crc) == CrcNum(OfBits(init), data)
  {
    hide Poly, XorReg, Shr, Widen, Crc, CrcNum, OfBits;
    CrcNone(init, data);
    CrcValue(init, data);
    crc := init;
    for i := 0 to |data|
      invariant crc == Crc(init, data[..i])
    {
      CrcAppend(init, data[..i], data[i]);
      assert data[..i] + [data[i]] == data[..i + 1];
      crc := EightSteps(XorReg(crc, Widen(data[i])));
    }
    assert data[..|data|] == data;
  }

  /** The inner loop. */
  method EightSteps(start: Reg) returns (crc: Reg)
    ensures crc == Shifts(start, 8)
  {
    hide Poly, XorReg, Shr;
    crc := start;
    for k := 0 to 8
      invariant Shifts(start, 8) == Shifts(crc, 8 - k)
    {
      crc := if crc[0] then XorReg(Shr(crc, 1), Poly()) else Shr(crc, 1);
    }
  }

  /** The 16 words of the firmware's nibble table. */
  const NIBBLE_TABLE: seq<Reg> := [
    Hex(0x0, 0x0, 0x0, 0x0), Hex(0xC, 0xC, 0x0, 0x1), Hex(0xD, 0x8, 0x0, 0x1), Hex(0x1, 0x4, 0x0, 0x0),
    Hex(0xF, 0x0, 0x0, 0x1), Hex(0x3, 0xC, 0x0, 0x0), Hex(0x2, 0x8, 0x0, 0x0), Hex(0xE, 0x4, 0x0, 0x1),
    Hex(0xA, 0x0, 0x0, 0x1), Hex(0x6, 0xC, 0x0, 0x0), Hex(0x7, 0x8, 0x0, 0x0), Hex(0xB, 0x4, 0x0, 0x1),
    Hex(0x5, 0x0, 0x0, 0x0), Hex(0x9, 0xC, 0x0, 0x1), Hex(0x8, 0x8, 0x0, 0x1), Hex(0x4, 0x4, 0x0, 0x0)
  ]

  function Nibble(n: seq<bool>): Reg
    requires |n| == 4
  {
    ToBitsOfBits(n);
    assert Pow2(4) == 16;
    NIBBLE_TABLE[OfBits(n)]
  }

  /** Half of the table loop's body: four bits of register, four bits of data. */
  function TableStep(acc: Reg, nibble: seq<bool>): Reg
    requires |nibble| == 4
  {
    XorReg(XorReg(Shr(acc, 4), Nibble(acc[..4])), Nibble(nibble))
  }

  /** The table loop, low nibble first. */
  method ProtoComputeChecksum(seed: Reg, buf: Bytes) returns (acc: Reg)
    ensures acc == Crc(seed, buf) && OfBits(acc) == CrcNum(OfBits(seed), buf)
  {
    hide Crc, CrcByte, TableStep, CrcNum, OfBits;
    CrcNone(seed, buf);
    CrcValue(seed, buf);
    acc := seed;
    for i := 0 to |buf|
      invariant acc == Crc(seed, buf[..i])
    {
      TableByte(acc, buf[i]);
      CrcAppend(seed, buf[..i], buf[i]);
      assert buf[..i] + [buf[i]] == buf[..i + 1];
      var lo := ByteBits(buf[i])[..4];
      var hi := ByteBits(buf[i])[4..];
      var t := TableStep(acc, lo);
      acc := TableStep(t, hi);
    }
    assert buf[..|buf|] == buf;
  }

  // ── linearity of the register ────────────────────────────────────────

  lemma PolyBits(i: nat)
    requires i < 16
    ensures Poly()[i] <==> i == 0 || i == 13 || i == 15
  {
  }

  /** A shift, bit by bit. */
  lemma ShiftBit(c: Reg, i: nat)
    requires i < 16
    ensures Shift(c)[i] == ((i < 15 && c[i + 1]) != (c[0] && (i == 0 || i == 13 || i == 15)))
  {
    PolyBits(i);
    hide Poly;
  }

  lemma ShiftBits(c: Reg)
    ensures forall i :: 0 <= i < 16 ==>
      Shift(c)[i] == ((i < 15 && c[i + 1]) != (c[0] && (i == 0 || i == 13 || i == 15)))
  {
    hide Shift;
    forall i | 0 <= i < 16
      ensures Shift(c)[i] == ((i < 15 && c[i + 1]) != (c[0] && (i == 0 || i == 13 || i == 15)))
    {
      ShiftBit(c, i);
    }
  }

  lemma ShiftLinear(a: Reg, b: Reg)
    ensures Shift(XorReg(a, b)) == XorReg(Shift(a), Shift(b))
  {
    hide Shift;
    forall i | 0 <= i < 16
      ensures Shift(XorReg(a, b))[i] == XorReg(Shift(a), Shift(b))[i]
    {
      ShiftBit(a, i);
      ShiftBit(b, i);
      ShiftBit(XorReg(a, b), i);
    }
  }

  lemma {:induction false} ShiftsLinear(a: Reg, b: Reg, n: nat)
    ensures Shifts(XorReg(a, b), n) == XorReg(Shifts(a, n), Shifts(b, n))
    decreases n
  {
    hide Shift;
    if n > 0 {
      ShiftLinear(a, b);
      ShiftsLinear(Shift(a), Shift(b), n - 1);
    }
  }

  /** Zero is the only register value that a shift sends to zero. */
  lemma ShiftKernel(c: Reg)
    ensures Shift(c) == Zero() <==> c == Zero()
  {
    hide Shift;
    ShiftBits(c);
    if Shift(c) == Zero() {
      assert !Shift(c)[15];
      forall i | 0 < i < 16
        ensures !c[i]
      {
        assert !Shift(c)[i - 1];
      }
      assert c == Zero();
    }
    if c == Zero() {
      assert Shift(c) == Zero();
    }
  }

  lemma {:induction false} ShiftsKernel(c: Reg, n: nat)
    ensures Shifts(c, n) == Zero() <==> c == Zero()
    decreases n
  {
    hide Shift;
    if n > 0 {
      ShiftsKernel(Shift(c), n - 1);
      ShiftKernel(c);
    }
  }

  lemma {:induction false} ShiftsAdd(c: Reg, m: nat, n: nat)
    ensures Shifts(c, m + n) == Shifts(Shifts(c, m), n)
    decreases m
  {
    hide Shift;
    if m > 0 {
      ShiftsAdd(Shift(c), m - 1, n);
    }
  }

  // ── the table loop is the bitwise loop ───────────────────────────────

  /** Four feedback bits of the register, folded back through the polynomial. */
  function Fold(f0: bool, f1: bool, f2: bool, f3: bool): Reg
  {
    seq(16, i => ((f3 && (i == 0 || i == 13 || i == 15)) != (f2 && (i == 12 || i == 14)))
                 != ((f1 && (i == 11 || i == 13)) != (f0 && (i == 10 || i == 12))))
  }

  lemma FoldZero()
    ensures Fold(false, false, false, false) == Zero()
  {
  }

  lemma XorZero(c: Reg)
    ensures XorReg(c, Zero()) == c && XorReg(Zero(), c) == c
  {
  }

  /** The lowest bits of the register decide the next four feedback bits. */
  lemma Feedback(c: Reg)
    ensures
      var f1 := c[1] != c[0];
      var f2 := c[2] != f1;
      var f3 := c[3] != f2;
      Shift(c)[0] == f1 && Shift(Shift(c))[0] == f2 && Shift(Shift(Shift(c)))[0] == f3
  {
    hide Shift;
    ShiftBit(c, 0);
    ShiftBit(c, 1);
    ShiftBit(c, 2);
    var c1 := Shift(c);
    ShiftBit(c1, 0);
    ShiftBit(c1, 1);
    ShiftBit(Shift(c1), 0);
  }

  lemma FourShiftBit(c: Reg, i: nat)
    requires i < 16
    ensures
      var f1 := c[1] != c[0];
      var f2 := c[2] != f1;
      var f3 := c[3] != f2;
      Shift(Shift(Shift(Shift(c))))[i] == ((i < 12 && c[i + 4]) != Fold(c[0], f1, f2, f3)[i])
  {
    hide Shift;
    Feedback(c);
    var c1 := Shift(c);
    var c2 := Shift(c1);
    var c3 := Shift(c2);
    ShiftBit(c3, i);
    if i < 15 { ShiftBit(c2, i + 1); }
    if i < 14 { ShiftBit(c1, i + 2); }
    if i < 13 { ShiftBit(c, i + 3); }
  }

  lemma FourShifts(c: Reg)
    ensures
      var f1 := c[1] != c[0];
      var f2 := c[2] != f1;
      var f3 := c[3] != f2;
      Shifts(c, 4) == XorReg(Shr(c, 4), Fold(c[0], f1, f2, f3))
  {
    hide Shift, Fold;
    var c1 := Shift(c);
    var c2 := Shift(c1);
    var c3 := Shift(c2);
    assert Shifts(c, 4) == Shifts(c1, 3) == Shifts(c2, 2) == Shifts(c3, 1) == Shift(c3);
    var f1 := c[1] != c[0];
    var f2 := c[2] != f1;
    var f3 := c[3] != f2;
    forall i | 0 <= i < 16
      ensures Shift(c3)[i] == XorReg(Shr(c, 4), Fold(c[0], f1, f2, f3))[i]
    {
      FourShiftBit(c, i);
    }
  }

  lemma WordIsFoldLow(n: nat, f0: bool, f1: bool, f2: bool, f3: bool)
    requires 0 <= n < 8
    requires f0 == (n % 2 == 1) && f1 == ((n / 2 % 2 == 1) != f0)
    requires f2 == ((n / 4 % 2 == 1) != f1) && f3 == ((n / 8 % 2 == 1) != f2)
    ensures NIBBLE_TABLE[n] == Fold(f0, f1, f2, f3)
  {
    if
    case n == 0 => assert NIBBLE_TABLE[0] == Fold(false, false, false, false);
    case n == 1 => assert NIBBLE_TABLE[1] == Fold(true, true, true, true);
    case n == 2 => assert NIBBLE_TABLE[2] == Fold(false, true, true, true);
    case n == 3 => assert NIBBLE_TABLE[3] == Fold(true, false, false, false);
    case n == 4 => assert NIBBLE_TABLE[4] == Fold(false, false, true, true);
    case n == 5 => assert NIBBLE_TABLE[5] == Fold(true, true, false, false);
    case n == 6 => assert NIBBLE_TABLE[6] == Fold(false, true, false, false);
    case n == 7 => assert NIBBLE_TABLE[7] == Fold(true, false, true, true);
  }

  lemma WordIsFoldHigh(n: nat, f0: bool, f1: bool, f2: bool, f3: bool)
    requires 8 <= n < 16
    requires f0 == (n % 2 == 1) && f1 == ((n / 2 % 2 == 1) != f0)
    requires f2 == ((n / 4 % 2 == 1) != f1) && f3 == ((n / 8 % 2 == 1) != f2)
    ensures NIBBLE_TABLE[n] == Fold(f0, f1, f2, f3)
  {
    if
    case n == 8 => assert NIBBLE_TABLE[8] == Fold(false, false, false, true);
    case n == 9 => assert NIBBLE_TABLE[9] == Fold(true, true, true, false);
    case n == 10 => assert NIBBLE_TABLE[10] == Fold(false, true, true, false);
    case n == 11 => assert NIBBLE_TABLE[11] == Fold(true, false, false, true);
    case n == 12 => assert NIBBLE_TABLE[12] == Fold(false, false, true, false);
    case n == 13 => assert NIBBLE_TABLE[13] == Fold(true, true, false, true);
    case n == 14 => assert NIBBLE_TABLE[14] == Fold(false, true, false, true);
    case n == 15 => assert NIBBLE_TABLE[15] == Fold(true, false, true, false);
  }

  /** Each table word is its index folded through the polynomial. */
  lemma TableWord(n: seq<bool>)
    requires |n| == 4
    ensures
      var f1 := n[1] != n[0];
      var f2 := n[2] != f1;
      var f3 := n[3] != f2;
      Nibble(n) == Fold(n[0], f1, f2, f3)
  {
    hide Fold;
    assert OfBits(n[4..]) == 0;
    assert OfBits(n[3..]) == (if n[3] then 1 else 0) by { assert n[3..][1..] == n[4..]; }
    assert OfBits(n[2..]) == (if n[2] then 1 else 0) + 2 * OfBits(n[3..]) by { assert n[2..][1..] == n[3..]; }
    assert OfBits(n[1..]) == (if n[1] then 1 else 0) + 2 * OfBits(n[2..]) by { assert n[1..][1..] == n[2..]; }
    var f1 := n[1] != n[0];
    var f2 := n[2] != f1;
    if OfBits(n) < 8 {
      WordIsFoldLow(OfBits(n), n[0], f1, f2, n[3] != f2);
    } else {
      WordIsFoldHigh(OfBits(n), n[0], f1, f2, n[3] != f2);
    }
  }

  lemma TableStepIsFourShifts(c: Reg, n: seq<bool>)
    requires |n| == 4
    ensures TableStep(c, n) == Shifts(XorReg(c, n + seq(12, _ => false)), 4)
  {
    hide Shifts, Nibble, Fold;
    var w: Reg := n + seq(12, _ => false);
    ShiftsLinear(c, w, 4);
    FourShifts(c);
    FourShifts(w);
    TableWord(n);
    TableWord(c[..4]);
    assert Shr(w, 4) == Zero();
    XorZero(Nibble(n));
    assert Shifts(w, 4) == Nibble(n);
    assert Shifts(c, 4) == XorReg(Shr(c, 4), Nibble(c[..4]));
  }

  /** Two table steps, low nibble first, are one byte of the bitwise algorithm. */
  lemma TableByte(c: Reg, b: byte)
    ensures TableStep(TableStep(c, ByteBits(b)[..4]), ByteBits(b)[4..]) == CrcByte(c, b)
  {
    hide Shifts, TableStep, Fold, ByteBits;
    var w := Widen(b);
    var lo: Reg := ByteBits(b)[..4] + seq(12, _ => false);
    var hi: Reg := ByteBits(b)[4..] + seq(12, _ => false);
    var up: Reg := seq(4, _ => false) + ByteBits(b)[4..] + seq(8, _ => false);
    TableStepIsFourShifts(c, ByteBits(b)[..4]);
    TableStepIsFourShifts(TableStep(c, ByteBits(b)[..4]), ByteBits(b)[4..]);
    // the high nibble reaches the low end after four shifts
    FourShifts(up);
    assert Shr(up, 4) == hi;
    FoldZero();
    XorZero(hi);
    assert Shifts(up, 4) == hi;
    ShiftsLinear(XorReg(c, lo), up, 4);
    assert XorReg(XorReg(c, lo), up) == XorReg(c, w);
    ShiftsAdd(XorReg(c, w), 4, 4);
  }
}
