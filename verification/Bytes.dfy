/** Bytes, bits and the fixed-width integers the wire formats are made of. */
module Bytes {

  type byte = x: int | 0 <= x < 256

  type Bytes = seq<byte>

  type u16 = x: int | 0 <= x < 0x1_0000

  type u32 = x: int | 0 <= x < 0x1_0000_0000

  function Min(a: int, b: int): int { if a <= b then a else b }

  function Max(a: int, b: int): int { if a >= b then a else b }

  /** `n` zero bytes. */
  function Zeros(n: nat): (r: Bytes)
    ensures |r| == n
    ensures forall i :: 0 <= i < n ==> r[i] == 0
  {
    seq(n, _ => 0)
  }

  function Firsts<S, T>(pairs: seq<(S, T)>): (r: seq<S>)
    ensures |r| == |pairs|
  {
    seq(|pairs|, i requires 0 <= i < |pairs| => pairs[i].0)
  }

  lemma Regroup<T>(a: seq<T>, b: seq<T>, c: seq<T>)
    ensures a + b + c == a + (b + c)
  {
  }

  // ── big- and little-endian integers ──────────────────────────────────

  function Be16(n: u16): (r: Bytes)
    ensures |r| == 2
  {
    [n / 256, n % 256]
  }

  function De16(hi: byte, lo: byte): u16 { hi * 256 + lo }

  function Be32(n: u32): (r: Bytes)
    ensures |r| == 4
  {
    Be16(n / 0x1_0000) + Be16(n % 0x1_0000)
  }

  /** The number that big-endian bytes stand for. */
  function OfBytesBE(s: Bytes): nat
  {
    if s == [] then 0 else 256 * OfBytesBE(s[..|s| - 1]) + s[|s| - 1]
  }

  lemma FourBytes(s: Bytes)
    requires |s| == 4
    ensures OfBytesBE(s) == De16(s[0], s[1]) * 0x1_0000 + De16(s[2], s[3])
  {
    assert s[..3][..2] == s[..2] && s[..2][..1] == s[..1] && s[..1][..0] == [];
    assert OfBytesBE(s[..1]) == s[0];
    assert OfBytesBE(s[..2]) == De16(s[0], s[1]);
    assert OfBytesBE(s[..3]) == 256 * OfBytesBE(s[..2]) + s[2];
  }

  function De32(s: Bytes): u32
    requires |s| == 4
  {
    FourBytes(s);
    OfBytesBE(s)
  }

  function Le16(n: u16): (r: Bytes)
    ensures |r| == 2
  {
    [n % 256, n / 256]
  }

  function Le32(n: u32): (r: Bytes)
    ensures |r| == 4
  {
    Le16(n % 0x1_0000) + Le16(n / 0x1_0000)
  }

  /** The little-endian 32-bit integer at `off`. */
  function ReadLe32(s: Bytes, off: nat): u32
    requires off + 4 <= |s|
  {
    De16(s[off + 1], s[off]) + De16(s[off + 3], s[off + 2]) * 0x1_0000
  }

  lemma De16Be16(n: u16)
    ensures De16(Be16(n)[0], Be16(n)[1]) == n
  {
  }

  lemma De32Be32(n: u32)
    ensures De32(Be32(n)) == n
  {
    De16Be16(n / 0x1_0000);
    De16Be16(n % 0x1_0000);
    FourBytes(Be32(n));
  }

  lemma Be32De32(s: Bytes)
    requires |s| == 4
    ensures Be32(De32(s)) == s
  {
    hide OfBytesBE;
    FourBytes(s);
    Halves(De16(s[0], s[1]), De16(s[2], s[3]));
    assert s == Be16(De16(s[0], s[1])) + Be16(De16(s[2], s[3]));
  }

  lemma Halves(high: u16, low: u16)
    ensures (high * 0x1_0000 + low) / 0x1_0000 == high && (high * 0x1_0000 + low) % 0x1_0000 == low
  {
  }

  lemma ReadLe32Le32(n: u32)
    ensures ReadLe32(Le32(n), 0) == n
  {
    var s := Le32(n);
    assert De16(s[1], s[0]) == n % 0x1_0000;
    assert De16(s[3], s[2]) == n / 0x1_0000;
  }

  // ── bits, least significant first ────────────────────────────────────

  /** The `k` low bits of `n`. */
  function ToBits(n: nat, k: nat): (r: seq<bool>)
    ensures |r| == k
  {
    if k == 0 then [] else [n % 2 == 1] + ToBits(n / 2, k - 1)
  }

  function OfBits(s: seq<bool>): nat
  {
    if s == [] then 0 else (if s[0] then 1 else 0) + 2 * OfBits(s[1..])
  }

  function Pow2(k: nat): nat
  {
    if k == 0 then 1 else 2 * Pow2(k - 1)
  }

  lemma {:induction false} OfBitsToBits(n: nat, k: nat)
    requires n < Pow2(k)
    ensures OfBits(ToBits(n, k)) == n
  {
    if k > 0 {
      OfBitsToBits(n / 2, k - 1);
      assert ToBits(n, k)[1..] == ToBits(n / 2, k - 1);
    }
  }

  lemma {:induction false} ToBitsOfBits(s: seq<bool>)
    ensures OfBits(s) < Pow2(|s|)
    ensures ToBits(OfBits(s), |s|) == s
  {
    if s != [] {
      ToBitsOfBits(s[1..]);
    }
  }

  // ── exclusive or ─────────────────────────────────────────────────────

  function XorBits(a: seq<bool>, b: seq<bool>): (r: seq<bool>)
    requires |a| == |b|
    ensures |r| == |a|
    ensures forall i :: 0 <= i < |r| ==> r[i] == (a[i] != b[i])
  {
    seq(|a|, i requires 0 <= i < |a| => a[i] != b[i])
  }

  function ByteBits(b: byte): (r: seq<bool>)
    ensures |r| == 8
  {
    ToBits(b, 8)
  }

  function OfByteBits(s: seq<bool>): byte
    requires |s| == 8
  {
    ToBitsOfBits(s);
    assert Pow2(8) == 256;
    OfBits(s)
  }

  lemma OfByteBitsByteBits(b: byte)
    ensures OfByteBits(ByteBits(b)) == b
  {
    assert Pow2(8) == 256;
    OfBitsToBits(b, 8);
  }

  lemma ByteBitsOfByteBits(s: seq<bool>)
    requires |s| == 8
    ensures ByteBits(OfByteBits(s)) == s
  {
    ToBitsOfBits(s);
  }

  /** Exclusive or of two bytes. */
  function Xor(a: byte, b: byte): byte
  {
    OfByteBits(XorBits(ByteBits(a), ByteBits(b)))
  }

  lemma XorBitsOf(a: byte, b: byte)
    ensures ByteBits(Xor(a, b)) == XorBits(ByteBits(a), ByteBits(b))
  {
    ByteBitsOfByteBits(XorBits(ByteBits(a), ByteBits(b)));
  }

  /** Exclusive or with the same byte twice is the identity. */
  lemma XorCancel(a: byte, b: byte)
    ensures Xor(Xor(a, b), b) == a
  {
    ByteBitsOfByteBits(XorBits(ByteBits(a), ByteBits(b)));
    assert XorBits(XorBits(ByteBits(a), ByteBits(b)), ByteBits(b)) == ByteBits(a);
    OfByteBitsByteBits(a);
  }
}
