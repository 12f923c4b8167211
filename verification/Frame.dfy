/** The 0x88B5 frame: building, parsing, and the sequence counter. */
module Frame {
  import opened Bytes
  import opened Checksum
  import Crc

  const MIN_FRAME: nat := 60
  const MAGIC_COMMAND: byte := 0x11
  const MAGIC_RESPONSE: byte := 0x10
  const ETHTYPE_BOARD: u16 := 0x88B5

  type Mac = s: Bytes | |s| == 6 witness Zeros(6)

  function Broadcast(): Mac { [0xFF, 0xFF, 0xFF, 0xFF, 0xFF, 0xFF] }

  /** The fields of a frame; the length field holds only the payload length's low 16 bits. */
  datatype Fields = Fields(dst: Mac, src: Mac, magic: byte, subtype: byte, number: u32, payload: Bytes)

  function Header(x: Fields): (r: Bytes)
    ensures |r| == HEADER_LEN
  {
    x.dst + x.src + Be16(ETHTYPE_BOARD) + [x.magic, x.subtype] + Be32(x.number)
    + Be16(|x.payload| % 0x1_0000) + [0, 0]
  }

  /** The complete frame of these fields, checksum included. */
  function Wire(x: Fields): (r: Bytes)
    ensures |r| == HEADER_LEN + |x.payload|
  {
    HeaderFields(x);
    WithChecksum(Header(x) + x.payload)
  }

  lemma HeaderFields(x: Fields)
    ensures
      var f := Header(x) + x.payload;
      Covered(f) && PayloadLen(f) == |x.payload| % 0x1_0000 && f[OFF_MAGIC] == x.magic
      && f[OFF_SUBTYPE] == x.subtype && f[OFF_SEQ..OFF_SEQ + 4] == Be32(x.number) && f[OFF_PAYLOAD..] == x.payload
  {
  }

  function Command(subtype: byte, number: u32, mac: Mac, payload: Bytes): Fields
  {
    Fields(Broadcast(), mac, MAGIC_COMMAND, subtype, number, payload)
  }

  // ── parsing ──────────────────────────────────────────────────────────

  /** `Frame::parse` returns a frame. */
  predicate Parses(buf: Bytes)
  {
    |buf| >= HEADER_LEN && |buf| >= OFF_PAYLOAD + De16(buf[OFF_PAYLOAD_LEN], buf[OFF_PAYLOAD_LEN + 1])
  }

  function Magic(f: Bytes): byte requires Parses(f) { f[OFF_MAGIC] }

  function Subtype(f: Bytes): byte requires Parses(f) { f[OFF_SUBTYPE] }

  function Number(f: Bytes): u32 requires Parses(f) { De32(f[OFF_SEQ..OFF_SEQ + 4]) }

  function Payload(f: Bytes): Bytes requires Parses(f) { f[OFF_PAYLOAD..OFF_PAYLOAD + PayloadLen(f)] }

  // ── building ─────────────────────────────────────────────────────────

  method CopyInto(dst: array<byte>, at: nat, src: Bytes)
    requires at + |src| <= dst.Length
    modifies dst
    ensures forall k :: 0 <= k < dst.Length ==> dst[k] == if at <= k < at + |src| then src[k - at] else old(dst[k])
  {
    for i := 0 to |src|
      invariant forall k :: 0 <= k < dst.Length ==> dst[k] == if at <= k < at + i then src[k - at] else old(dst[k])
    {
      dst[at + i] := src[i];
    }
  }

  /** Fill `buf` with a command frame; the caller guarantees room, as the assertion there demands. */
  method BuildCommandFrame(buf: array<byte>, subtype: byte, number: u32, mac: Mac, payload: Bytes) returns (total: nat)
    requires HEADER_LEN + |payload| <= buf.Length
    modifies buf
    ensures total == HEADER_LEN + |payload|
    ensures buf[..] == Wire(Command(subtype, number, mac, payload)) + old(buf[total..])
  {
    hide WithChecksum, Covered, Be32, Be16, De16, Region, Crc.CrcNum;
    total := HEADER_LEN + |payload|;
    ghost var x := Command(subtype, number, mac, payload);
    ghost var rest := buf[total..];
    CopyInto(buf, 0x00, Broadcast());
    CopyInto(buf, 0x06, mac);
    CopyInto(buf, 0x0C, Be16(ETHTYPE_BOARD));
    CopyInto(buf, OFF_MAGIC, [MAGIC_COMMAND]);
    CopyInto(buf, OFF_SUBTYPE, [subtype]);
    CopyInto(buf, OFF_SEQ, Be32(number));
    CopyInto(buf, OFF_PAYLOAD_LEN, Be16(|payload| % 0x1_0000));
    CopyInto(buf, OFF_CHECKSUM, [0, 0]);
    CopyInto(buf, OFF_PAYLOAD, payload);
    assert buf[..total] == Header(x) + payload;
    assert buf[total..] == rest;
    HeaderFields(x);
    SetChecksum(buf, total);
    assert buf[..] == buf[..total] + buf[total..];
  }

  /** The frame, or the padding, does not fit the transmit buffer: the process aborts. */
  predicate Overflows(payload: Bytes, cap: nat)
  {
    HEADER_LEN + |payload| > cap || MIN_FRAME > cap
  }

  // ── round trip ───────────────────────────────────────────────────────

  /** What the 16-bit length field leaves of a payload. */
  function Carried(payload: Bytes): Bytes { payload[..|payload| % 0x1_0000] }

  lemma HeaderFront(x: Fields, pad: nat)
    ensures
      var f := Wire(x) + Zeros(pad);
      f[0..6] == x.dst && f[6..12] == x.src && f[12..14] == [0x88, 0xB5]
  {
    hide RegionCrc, OfByteBits, Be32;
    var f := Wire(x) + Zeros(pad);
    assert f[..OFF_CHECKSUM] == Header(x)[..OFF_CHECKSUM];
    assert f[0..6] == Header(x)[0..6] && f[6..12] == Header(x)[6..12] && f[12..14] == Header(x)[12..14];
  }

  /** The checksum field is the only place where the frame differs from header and payload. */
  lemma WireFields(x: Fields, pad: nat)
    ensures
      var f := Wire(x) + Zeros(pad);
      Parses(f) && Magic(f) == x.magic && Subtype(f) == x.subtype && Number(f) == x.number
      && Payload(f) == Carried(x.payload)
      && f[0..6] == x.dst && f[6..12] == x.src && f[12..14] == [0x88, 0xB5]
    ensures VerifyChecksum(Wire(x) + Zeros(pad))
  {
    HeaderFront(x, pad);
    hide RegionCrc, OfByteBits, Header, Be32, De32;
    var raw := Header(x) + x.payload;
    var w := Wire(x);
    var f := w + Zeros(pad);
    HeaderFields(x);
    SetThenVerify(raw);
    assert PayloadLen(w) == PayloadLen(raw) == PayloadLen(f);
    assert f[OFF_SEQ..OFF_SEQ + 4] == raw[OFF_SEQ..OFF_SEQ + 4];
    De32Be32(x.number);
    assert Payload(f) == raw[OFF_PAYLOAD..][..PayloadLen(raw)];
    assert w[OFF_MAGIC..CoverEnd(w)] == f[OFF_MAGIC..CoverEnd(w)];
    UncoveredIgnored(w, f);
  }

  /** A built frame parses back to its fields exactly when the payload length fits in 16 bits. */
  lemma RoundTrip(x: Fields, pad: nat)
    ensures
      var f := Wire(x) + Zeros(pad);
      && Parses(f) && Magic(f) == x.magic && Subtype(f) == x.subtype && Number(f) == x.number
      && f[0..6] == x.dst && f[6..12] == x.src && f[12..14] == [0x88, 0xB5]
      && (Payload(f) == x.payload <==> |x.payload| < 0x1_0000)
    ensures VerifyChecksum(Wire(x) + Zeros(pad))
  {
    hide Wire;
    WireFields(x, pad);
    if |x.payload| < 0x1_0000 {
      assert x.payload[..|x.payload|] == x.payload;
    }
  }

  /** The receive check and the parser accept the same lengths, so the covered-region assertion cannot fire. */
  lemma ParsedIsCovered(f: Bytes)
    ensures Parses(f) <==> Covered(f)
    ensures VerifyChecksum(f) ==> Covered(f)
  {
  }

  // ── sequence counter ─────────────────────────────────────────────────

  /** The counter is stepped before it is used, and wraps. */
  function NextNumber(n: u32): u32 { (n + 1) % 0x1_0000_0000 }
}
