/** The firmware container: the chunk walk, the host/remote split, and CBC decryption in place. */
module Container {
  import opened Bytes

  const TAG_HEADER_LEN: nat := 0x200
  const TAG_OFF_TOTAL_IMAGE_LEN: nat := 0x70
  const SIGNATURE_LEN: nat := 256

  // ── chunk metadata ───────────────────────────────────────────────────

  /** Bytes taken by the chunks from an offset on, and the first signature among them. */
  datatype Metadata = Metadata(total: nat, signature: Bytes)

  /** A chunk can be read at `offset`: its header and its whole length are in the file. */
  predicate ChunkAt(data: Bytes, offset: nat)
  {
    offset + 8 <= |data| && 8 <= ReadLe32(data, offset + 4) && offset + ReadLe32(data, offset + 4) <= |data|
  }

  /** The signature bytes of a type-1 chunk, at most 256 of them. */
  function SignatureAt(data: Bytes, offset: nat): Bytes
    requires ChunkAt(data, offset)
  {
    if ReadLe32(data, offset) == 1 then
      data[offset + 8..Min(offset + ReadLe32(data, offset + 4), offset + 8 + SIGNATURE_LEN)]
    else []
  }

  function First(a: Bytes, b: Bytes): Bytes { if a != [] then a else b }

  function Scan(data: Bytes, offset: nat): (m: Metadata)
    ensures m.total > 0 ==> offset + m.total <= |data|
    decreases |data| - offset
  {
    if !ChunkAt(data, offset) then Metadata(0, [])
    else
      var len := ReadLe32(data, offset + 4);
      if ReadLe32(data, offset) == 0 then Metadata(len, [])
      else
        var m := Scan(data, offset + len);
        Metadata(len + m.total, First(SignatureAt(data, offset), m.signature))
  }

  lemma ScanStep(data: Bytes, offset: nat)
    ensures ChunkAt(data, offset) <==>
      offset + 8 <= |data| && 8 <= ReadLe32(data, offset + 4) && offset + ReadLe32(data, offset + 4) <= |data|
    ensures Scan(data, offset) ==
      if !ChunkAt(data, offset) then Metadata(0, [])
      else if ReadLe32(data, offset) == 0 then Metadata(ReadLe32(data, offset + 4), [])
      else
        var m := Scan(data, offset + ReadLe32(data, offset + 4));
        Metadata(ReadLe32(data, offset + 4) + m.total, First(SignatureAt(data, offset), m.signature))
  {
    hide ReadLe32, SignatureAt;
  }

  /** The loop of `parse_chunks`. */
  method ParseChunks(data: Bytes) returns (tagLen: nat, signature: Bytes)
    ensures tagLen == TAG_HEADER_LEN + Scan(data, TAG_HEADER_LEN).total
    ensures signature == Scan(data, TAG_HEADER_LEN).signature
    ensures |data| >= TAG_HEADER_LEN ==> TAG_HEADER_LEN <= tagLen <= |data|
  {
    hide ReadLe32, ChunkAt, Scan;
    var offset := TAG_HEADER_LEN;
    var total := 0;
    signature := [];
    while offset + 8 <= |data|
      invariant
        var whole, rest := Scan(data, TAG_HEADER_LEN), Scan(data, offset);
        whole.total == total + rest.total && whole.signature == First(signature, rest.signature)
      decreases |data| - offset
    {
      ScanStep(data, offset);
      var chunkType := ReadLe32(data, offset);
      var chunkLen := ReadLe32(data, offset + 4);
      if chunkLen < 8 || offset + chunkLen > |data| {
        return TAG_HEADER_LEN + total, signature;
      }
      if chunkType == 0 {
        return TAG_HEADER_LEN + total + chunkLen, signature;
      }
      if chunkType == 1 && signature == [] {
        var start := offset + 8;
        signature := data[start..Min(start + chunkLen - 8, start + SIGNATURE_LEN)];
      }
      total := total + chunkLen;
      offset := offset + chunkLen;
    }
    ScanStep(data, offset);
    tagLen := TAG_HEADER_LEN + total;
  }

  datatype Chunk = Chunk(typ: u32, body: Bytes)

  function ChunkBytes(c: Chunk): (r: Bytes)
    requires 8 + |c.body| < 0x1_0000_0000
    ensures |r| == 8 + |c.body|
  {
    Le32(c.typ) + Le32(8 + |c.body|) + c.body
  }

  ghost predicate WellFormed(cs: seq<Chunk>)
  {
    forall i :: 0 <= i < |cs| ==> cs[i].typ != 0 && 8 + |cs[i].body| < 0x1_0000_0000
  }

  function ChunksBytes(cs: seq<Chunk>): Bytes
    requires WellFormed(cs)
  {
    if cs == [] then [] else ChunkBytes(cs[0]) + ChunksBytes(cs[1..])
  }

  /** The first 256 bytes of the first nonempty type-1 body. */
  function FirstSignature(cs: seq<Chunk>): Bytes
  {
    if cs == [] then []
    else if cs[0].typ == 1 && cs[0].body != [] then cs[0].body[..Min(|cs[0].body|, 256)]
    else FirstSignature(cs[1..])
  }

  lemma ReadAt(a: Bytes, n: u32, rest: Bytes)
    ensures ReadLe32(a + (Le32(n) + rest), |a|) == n
  {
    ReadLe32Le32(n);
    var s := a + (Le32(n) + rest);
    hide Le32, De16;
    assert s[|a|] == Le32(n)[0] && s[|a| + 1] == Le32(n)[1] && s[|a| + 2] == Le32(n)[2] && s[|a| + 3] == Le32(n)[3];
  }

  /** A chunk that has been written is read back. */
  lemma ChunkRead(before: Bytes, c: Chunk, behind: Bytes)
    requires 8 + |c.body| < 0x1_0000_0000
    ensures
      var data := before + ChunkBytes(c) + behind;
      var n := |before|;
      && ChunkAt(data, n) && ReadLe32(data, n) == c.typ && ReadLe32(data, n + 4) == 8 + |c.body|
      && SignatureAt(data, n) == (if c.typ == 1 then c.body[..Min(|c.body|, SIGNATURE_LEN)] else [])
  {
    hide ReadLe32, Le32;
    var data := before + ChunkBytes(c) + behind;
    var len := 8 + |c.body|;
    ReadAt(before, c.typ, Le32(len) + c.body + behind);
    assert data == before + (Le32(c.typ) + (Le32(len) + c.body + behind));
    ReadAt(before + Le32(c.typ), len, c.body + behind);
    assert data == (before + Le32(c.typ)) + (Le32(len) + (c.body + behind));
    var end := Min(|c.body|, SIGNATURE_LEN);
    assert data[|before| + 8..|before| + 8 + end] == c.body[..end];
  }

  /** Chunks with a terminator behind them are measured exactly, and the signature found. */
  lemma {:induction false} ScanWritten(before: Bytes, cs: seq<Chunk>, last: Chunk, behind: Bytes)
    requires WellFormed(cs) && last.typ == 0 && 8 + |last.body| < 0x1_0000_0000
    ensures
      var m := Scan(before + (ChunksBytes(cs) + ChunkBytes(last) + behind), |before|);
      m == Metadata(|ChunksBytes(cs) + ChunkBytes(last)|, FirstSignature(cs))
    decreases cs
  {
    hide ReadLe32, ChunkBytes, ChunkAt, SignatureAt;
    var data := before + (ChunksBytes(cs) + ChunkBytes(last) + behind);
    if cs == [] {
      ChunkRead(before, last, behind);
      assert data == before + ChunkBytes(last) + behind;
    } else {
      var rest := ChunksBytes(cs[1..]) + ChunkBytes(last) + behind;
      var head := before + ChunkBytes(cs[0]);
      ChunkRead(before, cs[0], rest);
      assert data == head + rest;
      ScanWritten(head, cs[1..], last, behind);
    }
  }

  // ── the split ────────────────────────────────────────────────────────

  /** The size guard of `main`. */
  predicate Fits(data: Bytes, tagLen: nat)
    requires |data| >= TAG_HEADER_LEN
  {
    ReadLe32(data, TAG_OFF_TOTAL_IMAGE_LEN) + tagLen <= |data|
  }

  /** Behind the guard, metadata, host image and remote image are the whole file, in order. */
  method SplitContainer(data: Bytes) returns (ok: bool, tag: Bytes, host: Bytes, remote: Bytes)
    requires |data| >= TAG_HEADER_LEN
    ensures ok <==> Fits(data, TAG_HEADER_LEN + Scan(data, TAG_HEADER_LEN).total)
    ensures ok ==> tag + host + remote == data
    ensures ok ==> |tag| == TAG_HEADER_LEN + Scan(data, TAG_HEADER_LEN).total
    ensures ok ==> |host| == ReadLe32(data, TAG_OFF_TOTAL_IMAGE_LEN)
  {
    hide ReadLe32, Scan;
    var tagLen, signature := ParseChunks(data);
    var hostLen := ReadLe32(data, TAG_OFF_TOTAL_IMAGE_LEN);
    ok, tag, host, remote := hostLen + tagLen <= |data|, [], [], [];
    if ok {
      tag, host, remote := data[..tagLen], data[tagLen..tagLen + hostLen], data[tagLen + hostLen..];
    }
  }

  lemma WordKept(a: Bytes, b: Bytes, off: nat)
    requires off + 4 <= |a|
    ensures ReadLe32(a + b, off) == ReadLe32(a, off)
  {
  }

  /** A container put together from a header with the host image's length at 0x70, any chunks, the terminator and both
      images is split at their seams, the remote image empty or not; one byte less and it is refused. */
  lemma WrittenFits(head: Bytes, cs: seq<Chunk>, last: Chunk, images: Bytes)
    requires |head| == 512 && WellFormed(cs) && last.typ == 0 && 8 + |last.body| < 0x1_0000_0000
    ensures
      var tag := head + ChunksBytes(cs) + ChunkBytes(last);
      var data := tag + images;
      && TAG_HEADER_LEN + Scan(data, TAG_HEADER_LEN).total == |tag|
      && ReadLe32(data, TAG_OFF_TOTAL_IMAGE_LEN) == ReadLe32(head, 0x70)
      && (Fits(data, |tag|) <==> ReadLe32(head, 0x70) <= |images|)
  {
    hide ReadLe32, Scan, ChunkBytes;
    var chunks := ChunksBytes(cs) + ChunkBytes(last);
    ScanWritten(head, cs, last, images);
    assert head + ChunksBytes(cs) + ChunkBytes(last) + images == head + (chunks + images);
    WordKept(head, chunks + images, 0x70);
  }

  // ── CBC ──────────────────────────────────────────────────────────────

  const BLOCK: nat := 16

  type Block = s: Bytes | |s| == 16 witness Zeros(16)

  function XorBlocks(a: Block, b: Block): Block
  {
    seq(16, i requires 0 <= i < 16 => Xor(a[i], b[i]))
  }

  lemma XorBlocksCancel(a: Block, b: Block)
    ensures XorBlocks(XorBlocks(a, b), b) == a
  {
    hide Xor;
    forall i | 0 <= i < 16
      ensures XorBlocks(XorBlocks(a, b), b)[i] == a[i]
    {
      XorCancel(a[i], b[i]);
    }
  }

  /** Decryption of the whole blocks; a shorter tail is left alone. */
  function CbcDecrypt(dec: Block -> Block, iv: Block, s: Bytes): (r: Bytes)
    ensures |r| == |s|
    decreases |s|
  {
    if |s| < BLOCK then s
    else
      var c: Block := s[..BLOCK];
      XorBlocks(dec(c), iv) + CbcDecrypt(dec, c, s[BLOCK..])
  }

  /** CBC encryption, section 6.2 of NIST SP 800-38A, on the whole blocks. */
  function CbcEncrypt(enc: Block -> Block, iv: Block, s: Bytes): (r: Bytes)
    ensures |r| == |s|
    decreases |s|
  {
    if |s| < BLOCK then s
    else
      var c := enc(XorBlocks(s[..BLOCK], iv));
      c + CbcEncrypt(enc, c, s[BLOCK..])
  }

  /** For any block cipher pair, decryption undoes encryption on every length. */
  lemma {:induction false} CbcRoundTrip(enc: Block -> Block, dec: Block -> Block, iv: Block, s: Bytes)
    requires forall b: Block :: dec(enc(b)) == b
    ensures CbcDecrypt(dec, iv, CbcEncrypt(enc, iv, s)) == s
    decreases |s|
  {
    hide XorBlocks;
    if |s| >= BLOCK {
      var p: Block := s[..BLOCK];
      var c := enc(XorBlocks(p, iv));
      var all := CbcEncrypt(enc, iv, s);
      assert all[..BLOCK] == c && all[BLOCK..] == CbcEncrypt(enc, c, s[BLOCK..]);
      CbcRoundTrip(enc, dec, c, s[BLOCK..]);
      XorBlocksCancel(p, iv);
      assert s == p + s[BLOCK..];
    }
  }

  /** One block in place: decrypt, then combine with the previous ciphertext block. */
  method DecryptBlock(data: array<byte>, at: nat, dec: Block -> Block, prev: Block) returns (cipher: Block)
    requires at + BLOCK <= data.Length
    modifies data
    ensures cipher == old(data[..])[at..at + BLOCK]
    ensures data[..] == old(data[..])[..at] + XorBlocks(dec(cipher), prev) + old(data[..])[at + BLOCK..]
  {
    hide Xor;
    cipher := data[at..at + BLOCK];
    var plain := dec(cipher);
    for i := 0 to BLOCK
      invariant forall k :: 0 <= k < data.Length ==>
        data[k] == if at <= k < at + i then Xor(plain[k - at], prev[k - at]) else old(data[k])
    {
      data[at + i] := Xor(plain[i], prev[i]);
    }
  }

  /** `aes_cbc_decrypt` on `data[lo..hi]`: whole blocks only. */
  method AesCbcDecrypt(data: array<byte>, lo: nat, hi: nat, dec: Block -> Block, iv: Block)
    requires lo <= hi <= data.Length
    modifies data
    ensures data[..] == old(data[..])[..lo] + CbcDecrypt(dec, iv, old(data[..])[lo..hi]) + old(data[..])[hi..]
  {
    hide XorBlocks, CbcDecrypt;
    var at, prev := lo, iv;
    ghost var s0, plain := data[..], [];
    while at + BLOCK <= hi
      invariant lo <= at <= hi && |plain| == at - lo
      invariant data[..] == s0[..lo] + plain + s0[at..]
      invariant CbcDecrypt(dec, iv, s0[lo..hi]) == plain + CbcDecrypt(dec, prev, s0[at..hi])
    {
      ghost var before := data[..];
      var cipher := DecryptBlock(data, at, dec, prev);
      CbcStep(dec, prev, s0[at..hi]);
      Splice(before, data[..], s0, lo, at, hi, plain, XorBlocks(dec(cipher), prev));
      plain := plain + XorBlocks(dec(cipher), prev);
      prev := cipher;
      at := at + BLOCK;
    }
    CbcTail(dec, prev, s0[at..hi]);
    Rejoin(s0, lo, at, hi, plain);
  }

  lemma Rejoin(s0: Bytes, lo: nat, at: nat, hi: nat, plain: Bytes)
    requires lo <= at <= hi <= |s0|
    ensures s0[..lo] + plain + s0[at..] == s0[..lo] + (plain + s0[at..hi]) + s0[hi..]
  {
    assert s0[at..] == s0[at..hi] + s0[hi..];
  }

  lemma CbcTail(dec: Block -> Block, prev: Block, s: Bytes)
    requires |s| < BLOCK
    ensures CbcDecrypt(dec, prev, s) == s
  {
  }

  lemma CbcStep(dec: Block -> Block, prev: Block, s: Bytes)
    requires |s| >= BLOCK
    ensures CbcDecrypt(dec, prev, s) == XorBlocks(dec(s[..BLOCK]), prev) + CbcDecrypt(dec, s[..BLOCK], s[BLOCK..])
  {
    hide XorBlocks;
  }

  /** Replacing the block at `at` moves the border between plain and cipher text. */
  lemma Splice(before: Bytes, after: Bytes, s0: Bytes, lo: nat, at: nat, hi: nat, plain: Bytes, x: Block)
    requires lo <= at && at + BLOCK <= hi <= |s0| && |plain| == at - lo
    requires before == s0[..lo] + plain + s0[at..]
    requires after == before[..at] + x + before[at + BLOCK..]
    ensures before[at..at + BLOCK] == s0[at..hi][..BLOCK]
    ensures s0[at..hi][BLOCK..] == s0[at + BLOCK..hi]
    ensures after == s0[..lo] + (plain + x) + s0[at + BLOCK..]
  {
    assert before[..at] == s0[..lo] + plain;
    assert before[at..] == s0[at..];
    assert before[at + BLOCK..] == before[at..][BLOCK..];
    assert before[at..at + BLOCK] == before[at..][..BLOCK];
  }

  /** What `main` decrypts: everything behind the metadata, rounded down to whole blocks. */
  method DecryptContainer(data: array<byte>, tagLen: nat, dec: Block -> Block, iv: Block)
    requires tagLen <= data.Length
    modifies data
    ensures data[..] == old(data[..])[..tagLen] + CbcDecrypt(dec, iv, old(data[..])[tagLen..])
  {
    hide CbcDecrypt, XorBlocks;
    var encLen := data.Length - tagLen;
    var alignedLen := encLen / BLOCK * BLOCK;
    Decrypted(data[..], tagLen, alignedLen, dec, iv);
    AesCbcDecrypt(data, tagLen, tagLen + alignedLen, dec, iv);
  }

  /** Decrypting the whole blocks behind the metadata leaves the metadata and the tail. */
  lemma Decrypted(s: Bytes, a: nat, n: nat, dec: Block -> Block, iv: Block)
    requires a + n <= |s| < a + n + BLOCK && n % BLOCK == 0
    ensures s[..a] + CbcDecrypt(dec, iv, s[a..a + n]) + s[a + n..] == s[..a] + CbcDecrypt(dec, iv, s[a..])
  {
    hide CbcDecrypt;
    TailUntouched(dec, iv, s[a..], n);
    assert s[a..][..n] == s[a..a + n] && s[a..][n..] == s[a + n..];
  }

  lemma {:induction false} TailUntouched(dec: Block -> Block, iv: Block, s: Bytes, n: nat)
    requires n <= |s| < n + BLOCK && n % BLOCK == 0
    ensures CbcDecrypt(dec, iv, s) == CbcDecrypt(dec, iv, s[..n]) + s[n..]
    decreases n
  {
    hide XorBlocks;
    if n > 0 {
      TailUntouched(dec, s[..BLOCK], s[BLOCK..], n - BLOCK);
      assert s[..n][..BLOCK] == s[..BLOCK] && s[..n][BLOCK..] == s[BLOCK..][..n - BLOCK];
    }
  }
}
