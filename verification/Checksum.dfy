/** The frame checksum: CRC-16/ARC over the covered region, checksum field read as zero. */
module Checksum {
  import opened Bytes
  import opened Crc
  import opened CrcDetect
  import CrcPeriod

  const OFF_MAGIC: nat := 0x0E
  const OFF_SUBTYPE: nat := 0x0F
  const OFF_SEQ: nat := 0x10
  const OFF_PAYLOAD_LEN: nat := 0x14
  const OFF_CHECKSUM: nat := 0x16
  const OFF_PAYLOAD: nat := 0x18
  const HEADER_LEN: nat := 0x18
  const COVER_HEADER_BYTES: nat := 10

  function PayloadLen(f: Bytes): u16
    requires |f| >= HEADER_LEN
  {
    De16(f[OFF_PAYLOAD_LEN], f[OFF_PAYLOAD_LEN + 1])
  }

  function CoverEnd(f: Bytes): nat
    requires |f| >= HEADER_LEN
  {
    OFF_MAGIC + PayloadLen(f) + COVER_HEADER_BYTES
  }

  /** The frame is long enough for the assertion in `crc_covered_region`. */
  predicate Covered(f: Bytes)
  {
    |f| >= HEADER_LEN && |f| >= CoverEnd(f)
  }

  /** The covered region with the checksum field as zero. */
  function Region(f: Bytes): (r: Bytes)
    requires Covered(f)
    ensures |r| == PayloadLen(f) + COVER_HEADER_BYTES
  {
    f[OFF_MAGIC..OFF_CHECKSUM] + [0, 0] + f[OFF_PAYLOAD..CoverEnd(f)]
  }

  function RegionCrc(f: Bytes): Reg
    requires Covered(f)
  {
    Crc.Crc(Zero(), Region(f))
  }

  /** The big-endian checksum field as a register value. */
  function Stored(f: Bytes): Reg
    requires |f| >= HEADER_LEN
  {
    ByteBits(f[OFF_CHECKSUM + 1]) + ByteBits(f[OFF_CHECKSUM])
  }

  function WithChecksum(f: Bytes): (r: Bytes)
    requires Covered(f)
    ensures |r| == |f|
  {
    var crc := RegionCrc(f);
    f[OFF_CHECKSUM := OfByteBits(crc[8..])][OFF_CHECKSUM + 1 := OfByteBits(crc[..8])]
  }

  /** The receive check; too short a frame is rejected, not an error. */
  predicate VerifyChecksum(f: Bytes)
  {
    if |f| < OFF_MAGIC + COVER_HEADER_BYTES || |f| - (OFF_MAGIC + COVER_HEADER_BYTES) < PayloadLen(f) then
      false
    else
      Stored(f) == RegionCrc(f)
  }

  // ── as numbers ───────────────────────────────────────────────────────

  lemma ZeroValue()
    ensures OfBits(Zero()) == 0
  {
    FalsesValue([], 16);
    assert [] + seq(16, _ => false) == Zero();
  }

  lemma RegionValue(f: Bytes)
    requires Covered(f)
    ensures OfBits(RegionCrc(f)) == CrcNum(0, Region(f))
  {
    hide OfBits, Crc.Crc, CrcNum, Region;
    ZeroValue();
    CrcValue(Zero(), Region(f));
  }

  /** A register is its low and its high byte. */
  lemma HalvesValue(low: seq<bool>, high: seq<bool>)
    requires |low| == |high| == 8
    ensures OfBits(low + high) == De16(OfByteBits(high), OfByteBits(low))
  {
    hide OfBits;
    var a, b := low[..4], low[4..];
    FourMore(a, b + high);
    FourMore(b, high);
    FourMore(a, b);
    FourMore(b, []);
    NoBits();
    assert low + high == a + (b + high) && low == a + b && b + [] == b;
  }

  /** The checksum field of a frame just given its checksum. */
  lemma WithValue(f: Bytes)
    requires Covered(f)
    ensures De16(WithChecksum(f)[OFF_CHECKSUM], WithChecksum(f)[OFF_CHECKSUM + 1]) == CrcNum(0, Region(f))
  {
    hide OfByteBits, OfBits, CrcNum, De16;
    var crc := RegionCrc(f);
    RegionValue(f);
    HalvesValue(crc[..8], crc[8..]);
    assert crc == crc[..8] + crc[8..];
  }

  lemma OfBitsInjective(s: seq<bool>, t: seq<bool>)
    requires |s| == |t| && OfBits(s) == OfBits(t)
    ensures s == t
  {
    ToBitsOfBits(s);
    ToBitsOfBits(t);
  }

  /** The receive check in numbers, as the documented layout has it: the field at 22, high byte first, is the CRC from
      zero of bytes 14 to 21, two zero bytes, and as many bytes from 24 on as the field at 20 says. */
  lemma VerifiedIs(f: Bytes)
    ensures
      VerifyChecksum(f) <==>
        && |f| >= 24 && |f| >= 24 + De16(f[20], f[21])
        && De16(f[22], f[23]) == CrcNum(0, f[14..22] + [0, 0] + f[24..24 + De16(f[20], f[21])])
  {
    hide CrcNum, OfBits, ByteBits, Crc.Crc, De16;
    if Covered(f) {
      RegionValue(f);
      var low, high := ByteBits(f[OFF_CHECKSUM + 1]), ByteBits(f[OFF_CHECKSUM]);
      HalvesValue(low, high);
      OfByteBitsByteBits(f[OFF_CHECKSUM]);
      OfByteBitsByteBits(f[OFF_CHECKSUM + 1]);
      if OfBits(Stored(f)) == OfBits(RegionCrc(f)) {
        OfBitsInjective(Stored(f), RegionCrc(f));
      }
    }
  }

  // ── the code that computes it ────────────────────────────────────────

  /** The digest of the CRC engine, fed piece by piece. */
  class Digest {
    var acc: Reg

    constructor ()
      ensures acc == Zero()
    {
      acc := Zero();
    }

    method Update(data: Bytes)
      modifies this
      ensures acc == Crc.Crc(old(acc), data)
    {
      hide CrcByte, Crc.Crc;
      CrcNone(acc, data);
      for i := 0 to |data|
        invariant acc == Crc.Crc(old(acc), data[..i])
      {
        CrcAppend(old(acc), data[..i], data[i]);
        assert data[..i] + [data[i]] == data[..i + 1];
        acc := CrcByte(acc, data[i]);
      }
      assert data[..|data|] == data;
    }
  }

  /** Three updates: before the checksum field, two zero bytes, and after it. */
  method CrcCoveredRegion(f: Bytes) returns (crc: Reg)
    requires Covered(f)
    ensures crc == RegionCrc(f) && OfBits(crc) == CrcNum(0, Region(f))
  {
    hide CrcByte, CrcNum, OfBits;
    RegionValue(f);
    var end := OFF_MAGIC + PayloadLen(f) + COVER_HEADER_BYTES;
    var digest := new Digest();
    digest.Update(f[OFF_MAGIC..OFF_CHECKSUM]);
    digest.Update([0, 0]);
    digest.Update(f[OFF_CHECKSUM + 2..end]);
    CrcSplit(Zero(), f[OFF_MAGIC..OFF_CHECKSUM], [0, 0]);
    CrcSplit(Zero(), f[OFF_MAGIC..OFF_CHECKSUM] + [0, 0], f[OFF_CHECKSUM + 2..end]);
    crc := digest.acc;
  }

  /** Store the checksum in the first `n` bytes of `frame`, in place. */
  method SetChecksum(frame: array<byte>, n: nat)
    requires n <= frame.Length && Covered(frame[..n])
    modifies frame
    ensures frame[..n] == WithChecksum(old(frame[..n]))
    ensures De16(frame[OFF_CHECKSUM], frame[OFF_CHECKSUM + 1]) == CrcNum(0, Region(old(frame[..n])))
    ensures frame[n..] == old(frame[n..])
  {
    var crc := CrcCoveredRegion(frame[..n]);
    WithValue(frame[..n]);
    hide RegionCrc, OfByteBits, CoverEnd, Region, De16, CrcNum;
    frame[OFF_CHECKSUM] := OfByteBits(crc[8..]);
    frame[OFF_CHECKSUM + 1] := OfByteBits(crc[..8]);
  }

  // ── what it guarantees ───────────────────────────────────────────────

  lemma SetThenVerify(f: Bytes)
    requires Covered(f)
    ensures Covered(WithChecksum(f)) && VerifyChecksum(WithChecksum(f))
  {
    hide OfByteBits, ByteBits;
    var g := WithChecksum(f);
    assert Region(g) == Region(f);
    var crc := RegionCrc(f);
    ByteBitsOfByteBits(crc[..8]);
    ByteBitsOfByteBits(crc[8..]);
    assert Stored(g) == crc[..8] + crc[8..];
  }

  /** Bytes outside `[OFF_MAGIC, CoverEnd)` do not matter, wherever the buffer ends. */
  lemma UncoveredIgnored(f: Bytes, g: Bytes)
    requires Covered(f) && |g| >= CoverEnd(f)
    requires f[OFF_MAGIC..CoverEnd(f)] == g[OFF_MAGIC..CoverEnd(f)]
    ensures VerifyChecksum(f) == VerifyChecksum(g)
  {
    hide ByteBits, Crc.Crc;
    var a, b := f[OFF_MAGIC..CoverEnd(f)], g[OFF_MAGIC..CoverEnd(f)];
    assert forall i :: OFF_MAGIC <= i < CoverEnd(f) ==> f[i] == a[i - OFF_MAGIC] && g[i] == b[i - OFF_MAGIC];
    assert CoverEnd(g) == CoverEnd(f);
    assert Region(f) == Region(g);
  }

  lemma {:induction false} DataBitAt(s: Bytes, n: nat)
    requires n < 8 * |s|
    ensures DataBits(s)[n] == ByteBits(s[n / 8])[n % 8]
  {
    hide ByteBits;
    if n >= 8 {
      DataBitAt(s[1..], n - 8);
      assert (n - 8) / 8 == n / 8 - 1 && (n - 8) % 8 == n % 8;
    }
  }

  /** Bit `i` of the region is bit `i + 112` of the frame, or zero in the checksum field. */
  lemma RegionBit(f: Bytes, i: nat)
    requires Covered(f) && i < 8 * |Region(f)|
    ensures i + 112 < 8 * |f|
    ensures DataBits(Region(f))[i] == if 64 <= i < 80 then false else DataBits(f)[i + 112]
  {
    hide DataBits;
    var r, k := Region(f), i / 8;
    DataBitAt(r, i);
    DataBitAt(f, i + 112);
    assert (i + 112) / 8 == k + 14 && (i + 112) % 8 == i % 8;
    assert r[k] == if 8 <= k < 10 then 0 else f[k + 14];
    ZeroByte();
  }

  lemma ZeroByte()
    ensures ByteBits(0) == Falses(8)
  {
  }

  lemma SameByte(f: Bytes, g: Bytes, k: nat)
    requires k < |f| == |g|
    requires forall j :: 8 * k <= j < 8 * k + 8 ==> DataBits(f)[j] == DataBits(g)[j]
    ensures f[k] == g[k]
  {
    hide DataBits, ByteBits;
    forall j | 0 <= j < 8
      ensures ByteBits(f[k])[j] == ByteBits(g[k])[j]
    {
      DataBitAt(f, 8 * k + j);
      DataBitAt(g, 8 * k + j);
    }
    assert ByteBits(f[k]) == ByteBits(g[k]);
    OfByteBitsByteBits(f[k]);
    OfByteBitsByteBits(g[k]);
  }

  lemma DataBitsInjective(s: Bytes, t: Bytes)
    requires |s| == |t| && DataBits(s) == DataBits(t)
    ensures s == t
  {
    hide DataBits;
    forall k | 0 <= k < |s|
      ensures s[k] == t[k]
    {
      SameByte(s, t, k);
    }
  }

  /** Bit `n` lies in magic, subtype or sequence number, or in the payload. */
  ghost predicate Protected(f: Bytes, n: int)
    requires |f| >= HEADER_LEN
  {
    8 * OFF_MAGIC <= n < 8 * OFF_PAYLOAD_LEN || 8 * OFF_PAYLOAD <= n < 8 * CoverEnd(f)
  }

  /** The frames differ, and only in protected bits of `[p, p + 16)`. */
  ghost predicate Burst(f: Bytes, g: Bytes, p: nat)
    requires |f| >= HEADER_LEN
  {
    && |f| == |g| && f != g
    && forall n :: 0 <= n < 8 * |f| && DataBits(f)[n] != DataBits(g)[n] ==> p <= n < p + 16 && Protected(f, n)
  }

  /** The frames differ in protected bits only. */
  ghost predicate FieldsAside(f: Bytes, g: Bytes)
    requires |f| >= HEADER_LEN
  {
    |f| == |g| && forall n :: 0 <= n < 8 * |f| && DataBits(f)[n] != DataBits(g)[n] ==> Protected(f, n)
  }

  /** Such a difference leaves the length and checksum fields alone. */
  lemma FieldsKept(f: Bytes, g: Bytes)
    requires Covered(f) && FieldsAside(f, g)
    ensures CoverEnd(g) == CoverEnd(f) && Stored(g) == Stored(f)
  {
    hide DataBits;
    SameByte(f, g, OFF_PAYLOAD_LEN);
    SameByte(f, g, OFF_PAYLOAD_LEN + 1);
    SameByte(f, g, OFF_CHECKSUM);
    SameByte(f, g, OFF_CHECKSUM + 1);
  }

  /** Every burst of at most 16 bits in the protected fields is rejected. */
  lemma BurstRejected(f: Bytes, g: Bytes, p: nat)
    requires VerifyChecksum(f) && Burst(f, g, p)
    ensures !VerifyChecksum(g)
  {
    hide DataBits, Crc.Crc, FeedBits, Stored;
    FieldsKept(f, g);
    var s, t := DataBits(Region(f)), DataBits(Region(g));
    var q := if p < 112 then 0 else p - 112;
    forall i | 0 <= i < |s| && s[i] != t[i]
      ensures q <= i < q + 16
    {
      RegionBit(f, i);
      RegionBit(g, i);
    }
    assert s != t by {
      if s == t {
        forall n | 0 <= n < 8 * |f|
          ensures DataBits(f)[n] == DataBits(g)[n]
        {
          if DataBits(f)[n] != DataBits(g)[n] {
            RegionBit(f, n - 112);
            RegionBit(g, n - 112);
          }
        }
        DataBitsInjective(f, g);
      }
    }
    BurstChangesCrc(Zero(), s, t, q);
    CrcIsFeedBits(Zero(), Region(f));
    CrcIsFeedBits(Zero(), Region(g));
  }

  /** Exactly the protected bits `m` and `n` differ. */
  ghost predicate Flipped(f: Bytes, g: Bytes, m: nat, n: nat)
    requires |f| >= HEADER_LEN
  {
    && |f| == |g| && m < n && Protected(f, m) && Protected(f, n)
    && forall k :: 0 <= k < 8 * |f| ==> (DataBits(f)[k] != DataBits(g)[k] <==> k == m || k == n)
  }

  /** Two flipped bits in the protected fields go unnoticed exactly if they are a multiple of 32767 bits apart. */
  lemma PairRejected(f: Bytes, g: Bytes, m: nat, n: nat)
    requires VerifyChecksum(f) && Flipped(f, g, m, n)
    ensures VerifyChecksum(g) <==> (n - m) % CrcPeriod.PERIOD == 0
  {
    hide DataBits, Crc.Crc, FeedBits, Stored;
    FieldsKept(f, g);
    var s, t := DataBits(Region(f)), DataBits(Region(g));
    forall i | 0 <= i < |s|
      ensures XorBits(s, t)[i] <==> i == m - 112 || i == n - 112
    {
      RegionBit(f, i);
      RegionBit(g, i);
    }
    CrcPeriod.PairChangesCrc(Zero(), s, t, m - 112, n - 112);
    CrcIsFeedBits(Zero(), Region(f));
    CrcIsFeedBits(Zero(), Region(g));
  }

  /** Whatever is flipped in the checksum field alone is noticed. */
  lemma ChecksumFlipRejected(f: Bytes, g: Bytes)
    requires VerifyChecksum(f) && |f| == |g| && f != g
    requires forall i :: 0 <= i < |f| && f[i] != g[i] ==> i == OFF_CHECKSUM || i == OFF_CHECKSUM + 1
    ensures !VerifyChecksum(g)
  {
    hide Crc.Crc, ByteBits;
    assert PayloadLen(f) == PayloadLen(g);
    assert Region(f) == Region(g);
    if Stored(f) == Stored(g) {
      StoredTells(f, g);
      assert false;
    }
  }

  /** Byte by byte exclusive or. */
  function XorBytes(s: Bytes, t: Bytes): (r: Bytes)
    requires |s| == |t|
    ensures |r| == |s|
  {
    if s == [] then [] else [Xor(s[0], t[0])] + XorBytes(s[1..], t[1..])
  }

  lemma {:induction false} DataBitsXor(s: Bytes, t: Bytes)
    requires |s| == |t|
    ensures DataBits(XorBytes(s, t)) == XorBits(DataBits(s), DataBits(t))
  {
    hide ByteBits, Xor;
    if s != [] {
      DataBitsXor(s[1..], t[1..]);
      XorBitsOf(s[0], t[0]);
      assert XorBytes(s, t)[1..] == XorBytes(s[1..], t[1..]);
    }
  }

  /** The checksums of two frames of the same length differ by the checksum of the difference of their regions. */
  lemma ChecksumsXor(f: Bytes, g: Bytes)
    requires Covered(f) && Covered(g) && PayloadLen(f) == PayloadLen(g)
    ensures
      var v, w := WithChecksum(f), WithChecksum(g);
      XorNum(De16(v[OFF_CHECKSUM], v[OFF_CHECKSUM + 1]), De16(w[OFF_CHECKSUM], w[OFF_CHECKSUM + 1])) ==
      CrcNum(0, XorBytes(Region(f), Region(g)))
  {
    hide DataBits, Crc.Crc, FeedBits, CrcNum, XorNum, OfBits, De16, WithChecksum, Region;
    var s, t := Region(f), Region(g);
    WithValue(f);
    WithValue(g);
    RegionValue(f);
    RegionValue(g);
    CrcValue(Zero(), XorBytes(s, t));
    ZeroValue();
    CrcIsFeedBits(Zero(), s);
    CrcIsFeedBits(Zero(), t);
    CrcIsFeedBits(Zero(), XorBytes(s, t));
    DataBitsXor(s, t);
    FeedLinear(Zero(), Zero(), DataBits(s), DataBits(t));
    XorZero(Zero());
    XorValue(RegionCrc(f), RegionCrc(g));
  }

  lemma StoredTells(f: Bytes, g: Bytes)
    requires |f| >= HEADER_LEN && |g| >= HEADER_LEN && Stored(f) == Stored(g)
    ensures f[OFF_CHECKSUM] == g[OFF_CHECKSUM] && f[OFF_CHECKSUM + 1] == g[OFF_CHECKSUM + 1]
  {
    hide ByteBits;
    assert Stored(f)[..8] == ByteBits(f[OFF_CHECKSUM + 1]) && Stored(f)[8..] == ByteBits(f[OFF_CHECKSUM]);
    assert Stored(g)[..8] == ByteBits(g[OFF_CHECKSUM + 1]) && Stored(g)[8..] == ByteBits(g[OFF_CHECKSUM]);
    OfByteBitsByteBits(f[OFF_CHECKSUM]);
    OfByteBitsByteBits(g[OFF_CHECKSUM]);
    OfByteBitsByteBits(f[OFF_CHECKSUM + 1]);
    OfByteBitsByteBits(g[OFF_CHECKSUM + 1]);
  }

  lemma DataBitsStep(b: byte, s: Bytes)
    ensures DataBits([b] + s) == ByteBits(b) + DataBits(s)
  {
    hide ByteBits;
    assert ([b] + s)[1..] == s;
  }

  lemma {:induction false} DataBitsConcat(s: Bytes, t: Bytes)
    ensures DataBits(s + t) == DataBits(s) + DataBits(t)
  {
    hide ByteBits, DataBits;
    if s == [] {
      assert s + t == t;
      assert DataBits(s) + DataBits(t) == DataBits(t);
    } else {
      DataBitsConcat(s[1..], t);
      DataBitsStep(s[0], s[1..]);
      DataBitsStep(s[0], s[1..] + t);
      assert [s[0]] + s[1..] == s && [s[0]] + (s[1..] + t) == s + t;
      assert ByteBits(s[0]) + (DataBits(s[1..]) + DataBits(t)) == ByteBits(s[0]) + DataBits(s[1..]) + DataBits(t);
    }
  }

  /** A verified frame has an even number of bits set from the magic byte to the payload's end. */
  lemma VerifiedIsEven(f: Bytes)
    requires VerifyChecksum(f)
    ensures !Odd(DataBits(f[OFF_MAGIC..CoverEnd(f)]))
  {
    hide Odd, DataBits, Crc.Crc, FeedBits, ByteBits;
    var a, c, b := f[OFF_MAGIC..OFF_CHECKSUM], f[OFF_CHECKSUM..OFF_PAYLOAD], f[OFF_PAYLOAD..CoverEnd(f)];
    CrcIsFeedBits(Zero(), Region(f));
    OddFeed(Zero(), DataBits(Region(f)));
    OddZero();
    OddThree(a, [0, 0], b);
    OddThree(a, c, b);
    assert a + c + b == f[OFF_MAGIC..CoverEnd(f)];
    OddTwoBytes(0, 0);
    OddTwoBytes(f[OFF_CHECKSUM], f[OFF_CHECKSUM + 1]);
    assert c == [f[OFF_CHECKSUM], f[OFF_CHECKSUM + 1]];
    OddConcat(ByteBits(f[OFF_CHECKSUM + 1]), ByteBits(f[OFF_CHECKSUM]));
  }

  lemma OddZero()
    ensures !Odd(Zero())
  {
    OddFalses(16);
    assert Zero() == Falses(16);
  }

  lemma OddThree(a: Bytes, c: Bytes, b: Bytes)
    ensures Odd(DataBits(a + c + b)) == ((Odd(DataBits(a)) != Odd(DataBits(c))) != Odd(DataBits(b)))
  {
    hide Odd, DataBits;
    DataBitsConcat(a + c, b);
    DataBitsConcat(a, c);
    OddConcat(DataBits(a + c), DataBits(b));
    OddConcat(DataBits(a), DataBits(c));
  }

  lemma OddTwoBytes(x: byte, y: byte)
    ensures Odd(DataBits([x, y])) == (Odd(ByteBits(x)) != Odd(ByteBits(y)))
  {
    hide Odd, ByteBits;
    assert DataBits([x, y]) == ByteBits(x) + (ByteBits(y) + []);
    assert ByteBits(y) + [] == ByteBits(y);
    OddConcat(ByteBits(x), ByteBits(y));
  }

  /** An odd number of flipped bits, anywhere but in the length field, is rejected. */
  lemma OddFlipsRejected(f: Bytes, g: Bytes)
    requires VerifyChecksum(f) && |f| == |g| && PayloadLen(f) == PayloadLen(g)
    requires Odd(XorBits(DataBits(f[OFF_MAGIC..CoverEnd(f)]), DataBits(g[OFF_MAGIC..CoverEnd(f)])))
    ensures !VerifyChecksum(g)
  {
    hide Odd, DataBits, Stored, RegionCrc;
    VerifiedIsEven(f);
    OddXor(DataBits(f[OFF_MAGIC..CoverEnd(f)]), DataBits(g[OFF_MAGIC..CoverEnd(f)]));
    if VerifyChecksum(g) {
      VerifiedIsEven(g);
    }
  }
}
