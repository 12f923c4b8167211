/** What CRC-16/ARC detects, for bit strings of every length. */
module CrcDetect {
  import opened Bytes
  import opened Crc

  function Falses(n: nat): (r: seq<bool>)
    ensures |r| == n
    ensures forall i :: 0 <= i < n ==> !r[i]
  {
    seq(n, _ => false)
  }

  /** The bits of a byte string in the order the algorithm consumes them. */
  function DataBits(s: Bytes): (r: seq<bool>)
    ensures |r| == 8 * |s|
  {
    if s == [] then [] else ByteBits(s[0]) + DataBits(s[1..])
  }

  function FeedBit(c: Reg, x: bool): Reg { Shift(c[0 := c[0] != x]) }

  /** The register after the bits `s`, one at a time. */
  function FeedBits(c: Reg, s: seq<bool>): Reg
    decreases s
  {
    if s == [] then c else FeedBits(FeedBit(c, s[0]), s[1..])
  }

  lemma {:induction false} FeedSplit(c: Reg, a: seq<bool>, b: seq<bool>)
    ensures FeedBits(c, a + b) == FeedBits(FeedBits(c, a), b)
    decreases a
  {
    hide FeedBit;
    if a == [] {
      assert a + b == b;
    } else {
      FeedSplit(FeedBit(c, a[0]), a[1..], b);
      assert (a + b)[1..] == a[1..] + b;
    }
  }

  /** Up to 16 bits may be placed in the register at once and shifted through. */
  lemma {:induction false} FeedIsShifts(c: Reg, s: seq<bool>)
    requires |s| <= 16
    ensures FeedBits(c, s) == Shifts(XorReg(c, s + Falses(16 - |s|)), |s|)
    decreases s
  {
    hide Shift;
    if s == [] {
      assert XorReg(c, s + Falses(16)) == c;
    } else {
      var d := FeedBit(c, s[0]);
      var whole: Reg := s + Falses(16 - |s|);
      var rest: Reg := s[1..] + Falses(17 - |s|);
      FeedIsShifts(d, s[1..]);
      assert Shift(XorReg(c, whole)) == XorReg(d, rest) by {
        ShiftBits(XorReg(c, whole));
        ShiftBits(c[0 := c[0] != s[0]]);
      }
    }
  }

  /** The byte-wise CRC is the bit-wise one. */
  lemma {:induction false} CrcIsFeedBits(c: Reg, data: Bytes)
    ensures Crc.Crc(c, data) == FeedBits(c, DataBits(data))
    decreases data
  {
    hide FeedBit, Shifts;
    if data != [] {
      FeedIsShifts(c, ByteBits(data[0]));
      assert Widen(data[0]) == ByteBits(data[0]) + Falses(8);
      CrcIsFeedBits(CrcByte(c, data[0]), data[1..]);
      FeedSplit(c, ByteBits(data[0]), DataBits(data[1..]));
    }
  }

  /** The register is linear in the seed and the data together. */
  lemma {:induction false} FeedLinear(c: Reg, d: Reg, s: seq<bool>, t: seq<bool>)
    requires |s| == |t|
    ensures FeedBits(XorReg(c, d), XorBits(s, t)) == XorReg(FeedBits(c, s), FeedBits(d, t))
    decreases s
  {
    if s != [] {
      FeedBitLinear(c, d, s[0], t[0]);
      hide FeedBit;
      FeedLinear(FeedBit(c, s[0]), FeedBit(d, t[0]), s[1..], t[1..]);
      assert XorBits(s, t)[1..] == XorBits(s[1..], t[1..]);
    }
  }

  lemma FeedBitLinear(c: Reg, d: Reg, x: bool, y: bool)
    ensures FeedBit(XorReg(c, d), x != y) == XorReg(FeedBit(c, x), FeedBit(d, y))
  {
    hide Shift;
    var e := XorReg(c, d);
    ShiftLinear(c[0 := c[0] != x], d[0 := d[0] != y]);
    assert e[0 := e[0] != (x != y)] == XorReg(c[0 := c[0] != x], d[0 := d[0] != y]);
  }

  /** Zero data keeps the register zero, and never makes another value zero. */
  lemma {:induction false} FeedFalses(c: Reg, n: nat)
    ensures FeedBits(c, Falses(n)) == Zero() <==> c == Zero()
    decreases n
  {
    hide Shift;
    if n > 0 {
      assert Falses(n)[1..] == Falses(n - 1);
      assert c[0 := c[0] != false] == c;
      FeedFalses(Shift(c), n - 1);
      ShiftKernel(c);
    }
  }

  /** Every difference confined to 16 consecutive bits. */
  ghost predicate Within(d: seq<bool>, lo: nat, hi: nat)
  {
    forall i :: 0 <= i < |d| && d[i] ==> lo <= i < hi
  }

  /** At most 16 bits from a zero register. */
  lemma ShortBurst(s: seq<bool>)
    requires |s| <= 16
    ensures FeedBits(Zero(), s) == Zero() <==> s == Falses(|s|)
  {
    hide Shifts, FeedBits;
    FeedIsShifts(Zero(), s);
    var placed: Reg := s + Falses(16 - |s|);
    assert XorReg(Zero(), placed) == placed;
    ShiftsKernel(placed, |s|);
    if placed == Zero() {
      assert forall i :: 0 <= i < |s| ==> s[i] == placed[i];
    }
    if s == Falses(|s|) {
      assert placed == Zero();
    }
  }

  lemma PaddedBurst(q: nat, s: seq<bool>, r: nat)
    ensures FeedBits(Zero(), Falses(q) + (s + Falses(r))) == Zero() <==> FeedBits(Zero(), s) == Zero()
  {
    hide FeedBits;
    FeedSplit(Zero(), Falses(q), s + Falses(r));
    FeedFalses(Zero(), q);
    FeedSplit(Zero(), s, Falses(r));
    FeedFalses(FeedBits(Zero(), s), r);
  }

  /** A difference that fits in 16 consecutive bits leaves the register nonzero. */
  lemma BurstDetected(d: seq<bool>, p: nat)
    requires Within(d, p, p + 16)
    ensures FeedBits(Zero(), d) == Zero() <==> d == Falses(|d|)
  {
    hide FeedBits, Min;
    var q, r := if p < |d| then p else |d|, if p + 16 < |d| then p + 16 else |d|;
    var burst := d[q..r];
    Cut(d, q, r);
    PaddedBurst(q, burst, |d| - r);
    ShortBurst(burst);
  }

  lemma Cut(d: seq<bool>, q: nat, r: nat)
    requires q <= r <= |d| && Within(d, q, r)
    ensures d == Falses(q) + (d[q..r] + Falses(|d| - r))
    ensures d[q..r] == Falses(r - q) <==> d == Falses(|d|)
  {
    var s := d[q..r];
    assert forall i :: q <= i < r ==> d[i] == s[i - q];
    assert d[..q] == Falses(q) && d[r..] == Falses(|d| - r);
    if s == Falses(r - q) {
      assert d == Falses(|d|);
    }
  }

  /** Two strings of one length whose differences fit in 16 bits have different CRCs. */
  lemma BurstChangesCrc(c: Reg, s: seq<bool>, t: seq<bool>, p: nat)
    requires |s| == |t|
    requires forall i :: 0 <= i < |s| && s[i] != t[i] ==> p <= i < p + 16
    ensures FeedBits(c, s) == FeedBits(c, t) <==> s == t
  {
    hide FeedBits;
    FeedLinear(c, c, s, t);
    var d := XorBits(s, t);
    assert XorReg(c, c) == Zero();
    BurstDetected(d, p);
    if FeedBits(c, s) == FeedBits(c, t) {
      assert XorReg(FeedBits(c, s), FeedBits(c, t)) == Zero();
      assert forall i :: 0 <= i < |s| ==> s[i] == t[i] by {
        assert forall i :: 0 <= i < |d| ==> !d[i];
      }
    }
  }

  // ── parity ───────────────────────────────────────────────────────────

  /** Whether an odd number of bits is set. */
  predicate Odd(s: seq<bool>)
  {
    if s == [] then false else s[0] != Odd(s[1..])
  }

  lemma {:induction false} OddConcat(s: seq<bool>, t: seq<bool>)
    ensures Odd(s + t) == (Odd(s) != Odd(t))
  {
    if s == [] {
      assert s + t == t;
    } else {
      OddConcat(s[1..], t);
      assert (s + t)[1..] == s[1..] + t;
    }
  }

  lemma {:induction false} OddXor(s: seq<bool>, t: seq<bool>)
    requires |s| == |t|
    ensures Odd(XorBits(s, t)) == (Odd(s) != Odd(t))
  {
    if s != [] {
      OddXor(s[1..], t[1..]);
      assert XorBits(s, t)[1..] == XorBits(s[1..], t[1..]);
    }
  }

  lemma {:induction false} OddFalses(n: nat)
    ensures !Odd(Falses(n))
  {
    if n > 0 {
      assert Falses(n)[1..] == Falses(n - 1);
      OddFalses(n - 1);
    }
  }

  /** The polynomial has an odd number of terms below the leading one. */
  lemma OddPoly()
    ensures Odd(Poly())
  {
    forall i | 0 <= i < 16
      ensures Poly()[i] <==> i == 0 || i == 13 || i == 15
    {
      PolyBits(i);
    }
    hide Poly;
    var p := Poly();
    assert p == [true] + (Falses(12) + ([true, false] + [true]));
    OddConcat([true], Falses(12) + ([true, false] + [true]));
    OddConcat(Falses(12), [true, false] + [true]);
    OddConcat([true, false], [true]);
    OddFalses(12);
    assert Odd([true]) && Odd([true, false]) by { assert [true, false][1..] == [false]; }
  }

  lemma OddShift(c: Reg)
    ensures Odd(Shift(c)) == Odd(c)
  {
    OddPoly();
    hide Poly;
    OddConcat(c[1..], Falses(1));
    OddFalses(1);
    assert Shr(c, 1) == c[1..] + Falses(1);
    if c[0] {
      OddXor(Shr(c, 1), Poly());
    }
  }

  /** The parity of the register counts the parity of everything fed to it. */
  lemma {:induction false} OddFeed(c: Reg, s: seq<bool>)
    ensures Odd(FeedBits(c, s)) == (Odd(c) != Odd(s))
    decreases s
  {
    hide Shift;
    if s != [] {
      var d: Reg := c[0 := c[0] != s[0]];
      assert d[1..] == c[1..];
      OddShift(d);
      OddFeed(Shift(d), s[1..]);
    }
  }
}
