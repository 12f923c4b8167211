/** Recovering the AES key from the salt of an RSA-2048 PSS signature. */
module Pss {
  import opened Bytes

  const H_LEN: nat := 32
  const EM_LEN: nat := 256

  /** The length of the masked data block: 256 - 32 - 1. */
  const DB_LEN: nat := 223
  const TRAILER: byte := 0xBC

  type Digest = s: Bytes | |s| == 32 witness Zeros(32)

  // ── MGF1 ─────────────────────────────────────────────────────────────

  /** The counter has 32 bits. */
  const MASK_LIMIT: nat := 0x1_0000_0000 * H_LEN

  /** MGF1, section B.2.1 of RFC 8017: byte `i` of the concatenated digests of seed and counter. */
  function Mask(hash: Bytes -> Digest, seed: Bytes, n: nat): (r: Bytes)
    requires n <= MASK_LIMIT
    ensures |r| == n
  {
    seq(n, i requires 0 <= i < n => hash(seed + Be32(i / H_LEN))[i % H_LEN])
  }

  /** Block `k` of the mask is the digest of the seed and of the four bytes whose big-endian value is `k`. */
  lemma MaskBlock(hash: Bytes -> Digest, seed: Bytes, n: nat, k: nat, counter: Bytes)
    requires n <= MASK_LIMIT && 32 * k + 32 <= n && |counter| == 4 && OfBytesBE(counter) == k
    ensures Mask(hash, seed, n)[32 * k..32 * k + 32] == hash(seed + counter)
  {
    Be32De32(counter);
    hide Be32, OfBytesBE;
    forall i | 0 <= i < 32
      ensures Mask(hash, seed, n)[32 * k + i] == hash(seed + counter)[i]
    {
      assert (32 * k + i) / H_LEN == k && (32 * k + i) % H_LEN == i;
    }
  }

  /** Whole digests are appended while the mask is too short, then it is cut. */
  method Mgf1(hash: Bytes -> Digest, seed: Bytes, length: nat) returns (result: Bytes)
    requires length <= MASK_LIMIT
    ensures result == Mask(hash, seed, length)
  {
    hide Be32;
    result := [];
    var counter := 0;
    while |result| < length
      invariant counter * H_LEN == |result| < length + H_LEN
      invariant result == Mask(hash, seed, |result|)
    {
      ghost var before := result;
      var block := hash(seed + Be32(counter));
      result := result + block;
      forall i | |before| <= i < |result|
        ensures result[i] == Mask(hash, seed, |result|)[i]
      {
        assert i / H_LEN == counter && i % H_LEN == i - |before|;
      }
      counter := counter + 1;
    }
    result := result[..length];
  }

  // ── big integers ─────────────────────────────────────────────────────

  /** The shortest big-endian form; zero is one zero byte. */
  function ToBytesBE(n: nat): (r: Bytes)
    ensures r != []
  {
    if n < 256 then [n] else ToBytesBE(n / 256) + [n % 256]
  }

  lemma {:induction false} ZeroValue(s: Bytes)
    requires OfBytesBE(s) == 0
    ensures s == Zeros(|s|)
  {
    if s != [] {
      ZeroValue(s[..|s| - 1]);
      assert s == s[..|s| - 1] + [s[|s| - 1]];
    }
  }

  /** Left padding with zeros restores whatever leading zero bytes the integer dropped. */
  lemma {:induction false} PaddingRestores(s: Bytes)
    requires s != []
    ensures |ToBytesBE(OfBytesBE(s))| <= |s|
    ensures Zeros(|s| - |ToBytesBE(OfBytesBE(s))|) + ToBytesBE(OfBytesBE(s)) == s
  {
    var k := |s| - 1;
    var n := OfBytesBE(s);
    var high := OfBytesBE(s[..k]);
    assert s == s[..k] + [s[k]];
    if k == 0 {
      assert s[..k] == [];
    } else if n < 256 {
      ZeroValue(s[..k]);
    } else {
      assert n / 256 == high && n % 256 == s[k];
      PaddingRestores(s[..k]);
    }
  }

  // ── extraction ───────────────────────────────────────────────────────

  datatype KeyResult = Key(key: Bytes, iv: Bytes) | BadLength | NoTrailer | NoSeparator | ShortSalt | Panicked

  /** `b & 0x7F` */
  function ClearTop(b: byte): byte { OfByteBits(ByteBits(b)[7 := false]) }

  function Unmask(em: Bytes, mask: Bytes): (r: Bytes)
    requires |em| == EM_LEN && |mask| == DB_LEN
    ensures |r| == DB_LEN
  {
    seq(DB_LEN, i requires 0 <= i < DB_LEN => if i == 0 then ClearTop(Xor(em[0], mask[0])) else Xor(em[i], mask[i]))
  }

  function DigestOf(em: Bytes): Digest
    requires |em| == EM_LEN
  {
    em[DB_LEN..EM_LEN - 1]
  }

  /** The data block under the mask. */
  function DataBlock(hash: Bytes -> Digest, em: Bytes): (r: Bytes)
    requires |em| == EM_LEN
    ensures |r| == DB_LEN
  {
    Unmask(em, Mask(hash, DigestOf(em), DB_LEN))
  }

  /** How many zero bytes `s` starts with. */
  function LeadingZeros(s: Bytes): (n: nat)
    ensures n <= |s|
  {
    if s != [] && s[0] == 0 then 1 + LeadingZeros(s[1..]) else 0
  }

  /** What an encoded message yields. */
  function KeyOf(hash: Bytes -> Digest, em: Bytes): KeyResult
    requires |em| == EM_LEN
  {
    if em[EM_LEN - 1] != TRAILER then NoTrailer
    else
      var db := DataBlock(hash, em);
      var idx := LeadingZeros(db);
      if idx >= |db| || db[idx] != 1 then NoSeparator
      else if |db| - idx - 1 < 32 then ShortSalt
      else Key(db[idx + 1..idx + 17], db[idx + 17..idx + 33])
  }

  function Reversed(s: Bytes): (r: Bytes)
    ensures |r| == |s|
  {
    seq(|s|, i requires 0 <= i < |s| => s[|s| - 1 - i])
  }

  /** `rsa` is the public operation on integers. */
  function Extract(hash: Bytes -> Digest, rsa: nat -> nat, signature: Bytes): KeyResult
  {
    if |signature| != EM_LEN then BadLength
    else
      var em := ToBytesBE(rsa(OfBytesBE(Reversed(signature))));
      if |em| > EM_LEN then Panicked
      else KeyOf(hash, Zeros(EM_LEN - |em|) + em)
  }

  lemma LeadingZerosStep(s: Bytes)
    ensures LeadingZeros(s) == if s != [] && s[0] == 0 then 1 + LeadingZeros(s[1..]) else 0
  {
  }

  /** The scan for the separator. */
  method CountZeros(db: Bytes) returns (idx: nat)
    ensures idx == LeadingZeros(db)
  {
    hide LeadingZeros;
    idx := 0;
    while idx < |db| && db[idx] == 0
      invariant idx <= |db|
      invariant LeadingZeros(db) == idx + LeadingZeros(db[idx..])
    {
      LeadingZerosStep(db[idx..]);
      idx := idx + 1;
    }
    LeadingZerosStep(db[idx..]);
  }

  method ExtractAesKey(hash: Bytes -> Digest, rsa: nat -> nat, signature: Bytes) returns (r: KeyResult)
    ensures r == Extract(hash, rsa, signature)
  {
    hide Unmask, OfBytesBE, ToBytesBE, Reversed, Mask, LeadingZeros;
    if |signature| != EM_LEN {
      return BadLength;
    }
    var minimal := ToBytesBE(rsa(OfBytesBE(Reversed(signature))));
    if |minimal| > EM_LEN {
      return Panicked;
    }
    var em := Zeros(EM_LEN - |minimal|) + minimal;
    if em[255] != TRAILER {
      return NoTrailer;
    }
    var mask := Mgf1(hash, em[DB_LEN..EM_LEN - 1], DB_LEN);
    var db := Unmask(em, mask);
    var idx := CountZeros(db);
    if idx >= |db| || db[idx] != 1 {
      return NoSeparator;
    }
    var salt := db[idx + 1..];
    if |salt| < 32 {
      return ShortSalt;
    }
    assert salt[..16] == db[idx + 1..idx + 17] && salt[16..32] == db[idx + 17..idx + 33];
    r := Key(salt[..16], salt[16..32]);
  }

  // ── the encoding ─────────────────────────────────────────────────────

  /** Padding zeros, the separator and the salt. */
  function PlainBlock(salt: Bytes): (r: Bytes)
    requires |salt| <= 222
    ensures |r| == DB_LEN
  {
    Zeros(222 - |salt|) + [1] + salt
  }

  /** Section 9.1.1 of RFC 8017 for a 2047-bit encoding: steps 8 to 12, from the digest and the salt. */
  function Encoded(hash: Bytes -> Digest, digest: Digest, salt: Bytes): (r: Bytes)
    requires |salt| <= 222
    ensures |r| == EM_LEN
  {
    var db, mask := PlainBlock(salt), Mask(hash, digest, DB_LEN);
    seq(DB_LEN, i requires 0 <= i < DB_LEN => if i == 0 then ClearTop(Xor(db[0], mask[0])) else Xor(db[i], mask[i]))
    + digest + [0xBC]
  }

  lemma ClearTopBits(b: byte)
    ensures ByteBits(ClearTop(b)) == ByteBits(b)[7 := false]
  {
    ByteBitsOfByteBits(ByteBits(b)[7 := false]);
  }

  lemma SameBits(a: byte, b: byte)
    requires ByteBits(a) == ByteBits(b)
    ensures a == b
  {
    OfByteBitsByteBits(a);
    OfByteBitsByteBits(b);
  }

  /** Masking twice with the top bit cleared both times clears the top bit once. */
  lemma MaskTop(d: byte, m: byte)
    ensures ClearTop(Xor(ClearTop(Xor(d, m)), m)) == ClearTop(d)
  {
    hide ClearTop, Xor, ByteBits;
    var x := Xor(d, m);
    var y := ClearTop(x);
    var z := Xor(y, m);
    XorBitsOf(d, m);
    ClearTopBits(x);
    XorBitsOf(y, m);
    ClearTopBits(z);
    ClearTopBits(d);
    assert ByteBits(ClearTop(z)) == ByteBits(ClearTop(d));
    SameBits(ClearTop(z), ClearTop(d));
  }

  lemma SmallTop(d: byte)
    requires d <= 1
    ensures ClearTop(d) == d
  {
    assert ByteBits(d)[7 := false] == ByteBits(d) by {
      assert ByteBits(0) == [false, false, false, false, false, false, false, false];
      assert ByteBits(1) == [true, false, false, false, false, false, false, false];
    }
    OfByteBitsByteBits(d);
  }

  /** Unmasking undoes masking. */
  lemma EncodedBlock(hash: Bytes -> Digest, digest: Digest, salt: Bytes)
    requires |salt| <= 222
    ensures DataBlock(hash, Encoded(hash, digest, salt)) == PlainBlock(salt)
  {
    hide Mask, Xor, ClearTop;
    var em, db := Encoded(hash, digest, salt), PlainBlock(salt);
    assert DigestOf(em) == digest;
    var mask := Mask(hash, digest, DB_LEN);
    var got := DataBlock(hash, em);
    forall i | 0 <= i < DB_LEN
      ensures got[i] == db[i]
    {
      if i == 0 {
        MaskTop(db[0], mask[0]);
        SmallTop(db[0]);
      } else {
        XorCancel(db[i], mask[i]);
      }
    }
  }

  lemma {:induction false} ZerosThenOne(n: nat, rest: Bytes)
    ensures LeadingZeros(Zeros(n) + [1] + rest) == n
  {
    var s := Zeros(n) + [1] + rest;
    if n > 0 {
      assert s[1..] == Zeros(n - 1) + [1] + rest;
      ZerosThenOne(n - 1, rest);
    }
  }

  /** The number that bytes stand for, least significant byte first. */
  function OfBytesLE(s: Bytes): nat
  {
    if s == [] then 0 else s[0] + 256 * OfBytesLE(s[1..])
  }

  /** The reversed signature, read high byte first, is the signature read low byte first. */
  lemma {:induction false} ReversedValue(s: Bytes)
    ensures OfBytesBE(Reversed(s)) == OfBytesLE(s)
  {
    if s != [] {
      var n := |s| - 1;
      ReversedValue(s[1..]);
      assert Reversed(s)[..n] == Reversed(s[1..]) && Reversed(s)[n] == s[0];
    }
  }

  /** Every signature whose little-endian value RSA takes to a PSS encoding with a salt of 32 to 222 bytes gives the
      first and the next 16 salt bytes, whatever the hash, also when leading zero bytes are dropped. */
  lemma SaltRecovered(hash: Bytes -> Digest, rsa: nat -> nat, signature: Bytes, digest: Digest, salt: Bytes)
    requires |signature| == EM_LEN && 32 <= |salt| <= 222
    requires rsa(OfBytesLE(signature)) == OfBytesBE(Encoded(hash, digest, salt))
    ensures Extract(hash, rsa, signature) == Key(salt[..16], salt[16..32])
  {
    hide Unmask, Mask, OfBytesBE, ToBytesBE, Encoded, DataBlock, Reversed, LeadingZeros, OfBytesLE;
    ReversedValue(signature);
    var em := Encoded(hash, digest, salt);
    PaddingRestores(em);
    EncodedTrailer(hash, digest, salt);
    EncodedBlock(hash, digest, salt);
    ZerosThenOne(222 - |salt|, salt);
  }

  lemma EncodedTrailer(hash: Bytes -> Digest, digest: Digest, salt: Bytes)
    requires |salt| <= 222
    ensures Encoded(hash, digest, salt)[EM_LEN - 1] == TRAILER
  {
    hide Mask, Xor, ClearTop;
  }

  /** Whatever RSA makes of the signature's little-endian value, read as 256 bytes, decides the result. */
  lemma ExtractIs(hash: Bytes -> Digest, rsa: nat -> nat, signature: Bytes, em: Bytes)
    requires |signature| == EM_LEN && |em| == EM_LEN && rsa(OfBytesLE(signature)) == OfBytesBE(em)
    ensures Extract(hash, rsa, signature) == KeyOf(hash, em)
  {
    hide OfBytesBE, ToBytesBE, Reversed, OfBytesLE, KeyOf;
    ReversedValue(signature);
    PaddingRestores(em);
  }

  lemma {:induction false} ZerosUpTo(s: Bytes, i: nat)
    requires i <= |s| && (forall j :: 0 <= j < i ==> s[j] == 0) && (i < |s| ==> s[i] != 0)
    ensures LeadingZeros(s) == i
  {
    if i > 0 {
      ZerosUpTo(s[1..], i - 1);
    }
  }

  /** What 256 bytes give, by the place of the first nonzero byte of the data block: the trailer is looked at first, then
      the separator, then the length of the salt, of which the first 32 bytes are key and vector. */
  lemma KeyOfIs(hash: Bytes -> Digest, em: Bytes, i: nat)
    requires |em| == 256 && i <= 223
    requires
      var db := DataBlock(hash, em);
      (forall j :: 0 <= j < i ==> db[j] == 0) && (i < 223 ==> db[i] != 0)
    ensures
      var db := DataBlock(hash, em);
      KeyOf(hash, em) ==
      if em[255] != 0xBC then NoTrailer
      else if i == 223 || db[i] != 1 then NoSeparator
      else if i > 190 then ShortSalt
      else Key(db[i + 1..i + 17], db[i + 17..i + 33])
  {
    hide DataBlock, LeadingZeros;
    ZerosUpTo(DataBlock(hash, em), i);
  }

  lemma {:induction false} LeadingZerosSplit(s: Bytes)
    ensures s == Zeros(LeadingZeros(s)) + s[LeadingZeros(s)..]
  {
    if s != [] && s[0] == 0 {
      LeadingZerosSplit(s[1..]);
      assert s == [0] + s[1..];
    }
  }

  /** A key comes only from such an encoding, its unused top bit aside. */
  lemma OnlyEncodings(hash: Bytes -> Digest, em: Bytes) returns (salt: Bytes)
    requires |em| == EM_LEN && KeyOf(hash, em).Key?
    ensures 32 <= |salt| <= 222 && KeyOf(hash, em) == Key(salt[..16], salt[16..32])
    ensures em[0 := ClearTop(em[0])] == Encoded(hash, DigestOf(em), salt)
  {
    hide Mask, Xor, ClearTop, LeadingZeros;
    var db := DataBlock(hash, em);
    var idx := LeadingZeros(db);
    LeadingZerosSplit(db);
    salt := db[idx + 1..];
    assert db == PlainBlock(salt);
    var mask := Mask(hash, DigestOf(em), DB_LEN);
    var back := Encoded(hash, DigestOf(em), salt);
    forall i | 0 <= i < EM_LEN
      ensures back[i] == em[0 := ClearTop(em[0])][i]
    {
      if i == 0 {
        MaskTop(em[0], mask[0]);
      } else if i < DB_LEN {
        XorCancel(em[i], mask[i]);
      }
    }
  }
}
