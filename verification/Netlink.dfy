/** Netlink attributes: the writer with its offset-based nests, the iterator, and trees of attributes. */
module Netlink {
  import opened Bytes

  const NLA_HDRLEN: nat := 4
  const NLA_F_NESTED: u16 := 0x8000

  /** The next multiple of four, by steps of four. */
  function Align(n: nat): (r: nat)
    ensures n <= r < n + 4 && r % 4 == 0
  {
    if n == 0 then 0 else if n <= 4 then 4 else 4 + Align(n - 4)
  }

  /** `(len + 3) & !3` clears the two low bits. */
  lemma AlignIs(n: nat)
    ensures Align(n) == (n + 3) / 4 * 4
  {
    hide Align;
  }

  function Nested(typ: u16): u16 { if typ >= NLA_F_NESTED then typ else typ + NLA_F_NESTED }

  /** Length and type, native (little-endian) order; the length keeps its low 16 bits. */
  function Header(len: nat, typ: u16): (r: Bytes)
    ensures |r| == NLA_HDRLEN
  {
    Le16(len % 0x1_0000) + Le16(typ)
  }

  /** An attribute with its padding. */
  function Attribute(typ: u16, data: Bytes): (r: Bytes)
    ensures |r| == Align(NLA_HDRLEN + |data|) && |r| % 4 == 0 && |r| >= NLA_HDRLEN
  {
    var n := NLA_HDRLEN + |data|;
    Header(n, typ) + data + Zeros(Align(n) - n)
  }

  function Padded(b: Bytes): (r: Bytes)
    ensures |r| == Align(|b|) && b <= r
    ensures |b| % 4 == 0 ==> r == b
  {
    b + Zeros(Align(|b|) - |b|)
  }

  // ── trees ────────────────────────────────────────────────────────────

  datatype Tree = Leaf(typ: u16, data: Bytes) | Nest(typ: u16, kids: seq<Tree>)

  lemma Sum4(a: nat, b: nat)
    requires a % 4 == 0 && b % 4 == 0
    ensures (a + b) % 4 == 0
  {
  }

  /** What the writer leaves in the buffer. */
  function Encode(t: Tree): (r: Bytes)
    ensures |r| % 4 == 0 && |r| >= 4
    decreases t
  {
    match t
    case Leaf(typ, data) => Attribute(typ, data)
    case Nest(typ, kids) =>
      var inner := EncodeAll(kids);
      Sum4(NLA_HDRLEN, |inner|);
      Header(NLA_HDRLEN + |inner|, Nested(typ)) + inner
  }

  function EncodeAll(ts: seq<Tree>): (r: Bytes)
    ensures |r| % 4 == 0
    decreases ts
  {
    if ts == [] then []
    else
      var first, others := Encode(ts[0]), EncodeAll(ts[1..]);
      Sum4(|first|, |others|);
      first + others
  }

  lemma HeaderBytes(size: nat, typ: u16)
    requires size < 0x1_0000
    ensures Header(size, typ) == [size % 256, size / 256, typ % 256, typ / 256]
  {
  }

  /** The bytes of an attribute that fits: its length, header included, and its type, both low byte first, then its data; a nest has
      the top bit of the type set, and its attributes as data. */
  lemma AttributeBytes(typ: u16, data: Bytes, kids: seq<Tree>)
    requires typ < 0x8000 && 4 + |data| < 0x1_0000 && 4 + |EncodeAll(kids)| < 0x1_0000
    ensures
      var leaf, nest := Encode(Leaf(typ, data)), Encode(Nest(typ, kids));
      var m, n := 4 + |data|, 4 + |EncodeAll(kids)|;
      && leaf[..4] == [m % 256, m / 256, typ % 256, typ / 256] && leaf[4..4 + |data|] == data
      && nest == [n % 256, n / 256, typ % 256, typ / 256 + 128] + EncodeAll(kids)
  {
    hide Align, EncodeAll, Header;
    HeaderBytes(4 + |data|, typ);
    HeaderBytes(4 + |EncodeAll(kids)|, typ + 0x8000);
    TopBit(typ);
  }

  lemma TopBit(typ: u16)
    requires typ < 0x8000
    ensures (typ + 0x8000) % 256 == typ % 256 && (typ + 0x8000) / 256 == typ / 256 + 128
  {
  }

  /** The type leaves the nesting flag free and the whole length fits its 16 bits. */
  predicate LocalFit(t: Tree)
  {
    match t
    case Leaf(typ, data) => typ < NLA_F_NESTED && NLA_HDRLEN + |data| < 0x1_0000
    case Nest(typ, kids) => typ < NLA_F_NESTED && NLA_HDRLEN + |EncodeAll(kids)| < 0x1_0000
  }

  predicate Fits(t: Tree)
    decreases t
  {
    LocalFit(t) && (t.Nest? ==> AllFit(t.kids))
  }

  predicate AllFit(ts: seq<Tree>)
    decreases ts
  {
    ts == [] || (Fits(ts[0]) && AllFit(ts[1..]))
  }

  // ── reading ──────────────────────────────────────────────────────────

  /** `nla_len` of the attribute at the start of `buf`. */
  function LenAt(buf: Bytes): u16
    requires |buf| >= NLA_HDRLEN
  {
    De16(buf[1], buf[0])
  }

  function TypeAt(buf: Bytes): u16
    requires |buf| >= NLA_HDRLEN
  {
    De16(buf[3], buf[2])
  }

  /** The standard bounds check on the `buf` that remains. */
  predicate NlaOk(buf: Bytes)
  {
    |buf| >= NLA_HDRLEN && NLA_HDRLEN <= LenAt(buf) <= |buf|
  }

  /** What remains behind the first attribute. */
  function Behind(buf: Bytes): (r: Bytes)
    requires NlaOk(buf)
    ensures |r| < |buf|
  {
    buf[Min(Align(LenAt(buf)), |buf|)..]
  }

  function FirstPayload(buf: Bytes): (r: Bytes)
    requires NlaOk(buf)
    ensures |r| == LenAt(buf) - NLA_HDRLEN < |buf|
  {
    buf[NLA_HDRLEN..LenAt(buf)]
  }

  datatype Item = Item(typ: u16, payload: Bytes)

  /** The attributes the iterator visits. */
  function Walk(buf: Bytes): seq<Item>
    decreases |buf|
  {
    if !NlaOk(buf) then [] else [Item(TypeAt(buf), FirstPayload(buf))] + Walk(Behind(buf))
  }

  /** The trees found by walking, and walking again inside every nested attribute. */
  function Decode(buf: Bytes): seq<Tree>
    decreases |buf|
  {
    if !NlaOk(buf) then []
    else
      var typ := TypeAt(buf);
      var t := if typ >= NLA_F_NESTED then Nest(typ - NLA_F_NESTED, Decode(FirstPayload(buf))) else Leaf(typ, FirstPayload(buf));
      [t] + Decode(Behind(buf))
  }

  function TreeOf(i: Item): Tree
  {
    if i.typ >= NLA_F_NESTED then Nest(i.typ - NLA_F_NESTED, Decode(i.payload)) else Leaf(i.typ, i.payload)
  }

  /** Decoding is iterating, item by item. */
  lemma {:induction false} DecodeIsWalk(buf: Bytes)
    ensures |Decode(buf)| == |Walk(buf)|
    ensures forall i :: 0 <= i < |Walk(buf)| ==> Decode(buf)[i] == TreeOf(Walk(buf)[i])
    decreases |buf|
  {
    hide NlaOk, Behind, FirstPayload, TypeAt;
    if NlaOk(buf) {
      DecodeIsWalk(Behind(buf));
    }
  }

  // ── round trip ───────────────────────────────────────────────────────

  lemma Le16Inverse(n: u16)
    ensures De16(Le16(n)[1], Le16(n)[0]) == n
  {
  }

  /** Reading the header just written. */
  lemma HeaderRead(len: nat, typ: u16, rest: Bytes)
    ensures
      var buf := Header(len, typ) + rest;
      LenAt(buf) == len % 0x1_0000 && TypeAt(buf) == typ
  {
    Le16Inverse(len % 0x1_0000);
    Le16Inverse(typ);
    hide Le16, De16;
    var buf := Header(len, typ) + rest;
    assert buf[0] == Le16(len % 0x1_0000)[0] && buf[1] == Le16(len % 0x1_0000)[1];
    assert buf[2] == Le16(typ)[0] && buf[3] == Le16(typ)[1];
  }

  /** Reading an attribute laid out as header, payload, padding and rest. */
  lemma LayoutRead(len: nat, typ: u16, data: Bytes, pad: Bytes, rest: Bytes)
    requires len == NLA_HDRLEN + |data| < 0x1_0000 && |pad| == Align(len) - len
    ensures
      var buf := Header(len, typ) + (data + (pad + rest));
      NlaOk(buf) && Behind(buf) == rest && TypeAt(buf) == typ && FirstPayload(buf) == data
  {
    hide Header, LenAt, TypeAt, Align;
    HeaderRead(len, typ, data + (pad + rest));
    var buf := Header(len, typ) + (data + (pad + rest));
    assert buf[NLA_HDRLEN..len] == data;
    assert buf[len + |pad|..] == rest;
  }

  /** The first attribute of an encoded forest, when its length fits. */
  lemma FirstRead(t: Tree, rest: Bytes)
    requires LocalFit(t)
    ensures
      var buf := Encode(t) + rest;
      && NlaOk(buf) && Behind(buf) == rest
      && TypeAt(buf) == (if t.Nest? then t.typ + NLA_F_NESTED else t.typ)
      && FirstPayload(buf) == (if t.Nest? then EncodeAll(t.kids) else t.data)
  {
    hide Header, LenAt, TypeAt, NlaOk, Behind, FirstPayload, EncodeAll, Align;
    match t
    case Leaf(typ, data) =>
      var n := NLA_HDRLEN + |data|;
      var pad := Zeros(Align(n) - n);
      LayoutRead(n, typ, data, pad, rest);
      assert Encode(t) + rest == Header(n, typ) + (data + (pad + rest));
    case Nest(typ, kids) =>
      var inner := EncodeAll(kids);
      var n := NLA_HDRLEN + |inner|;
      AlignExact(n);
      LayoutRead(n, Nested(typ), inner, [], rest);
      assert Encode(t) + rest == Header(n, Nested(typ)) + (inner + ([] + rest));
  }

  lemma AlignExact(n: nat)
    ensures n % 4 == 0 ==> Align(n) == n
  {
  }

  /** Writing a forest that fits and walking it gives the same forest. */
  lemma {:induction false} FittingRoundTrip(ts: seq<Tree>)
    requires AllFit(ts)
    ensures Decode(EncodeAll(ts)) == ts
    decreases ts
  {
    hide NlaOk, Behind, FirstPayload, TypeAt, Encode, LocalFit;
    if ts == [] {
      EmptyDecode();
    } else {
      var t := ts[0];
      FirstRead(t, EncodeAll(ts[1..]));
      FittingRoundTrip(ts[1..]);
      FitType(t);
      if t.Nest? {
        FittingRoundTrip(t.kids);
      }
      assert ts == [t] + ts[1..];
    }
  }

  lemma FitType(t: Tree)
    requires LocalFit(t)
    ensures t.typ < NLA_F_NESTED
  {
  }

  lemma EmptyDecode()
    ensures Decode([]) == []
  {
  }

  lemma AlignBehind(buf: Bytes)
    requires NlaOk(buf)
    ensures Align(LenAt(buf)) + Align(|Behind(buf)|) <= Align(|buf|)
  {
    hide LenAt, Align;
  }

  lemma TreeSize(t: Tree, len: nat)
    requires len >= NLA_HDRLEN
    requires t.Leaf? ==> |t.data| == len - NLA_HDRLEN
    requires t.Nest? ==> |EncodeAll(t.kids)| <= Align(len - NLA_HDRLEN)
    ensures |Encode(t)| <= Align(len)
  {
    hide Header, EncodeAll;
  }

  lemma EncodeCons(t: Tree, ts: seq<Tree>)
    ensures EncodeAll([t] + ts) == Encode(t) + EncodeAll(ts)
  {
    hide Encode;
    assert ([t] + ts)[1..] == ts;
  }

  /** Whatever is decoded, its encoding is no longer than the buffer. */
  lemma {:induction false} DecodedSize(buf: Bytes)
    ensures |EncodeAll(Decode(buf))| <= Align(|buf|)
    decreases |buf|
  {
    if NlaOk(buf) {
      hide NlaOk, TypeAt, LenAt, Behind, FirstPayload, Encode, EncodeAll, Align;
      var t := Decode(buf)[0];
      assert Decode(buf) == [t] + Decode(Behind(buf));
      DecodedSize(Behind(buf));
      DecodedSize(FirstPayload(buf));
      TreeSize(t, LenAt(buf));
      AlignBehind(buf);
      EncodeCons(t, Decode(Behind(buf)));
    }
  }

  /** If the first tree does not fit its header, the first decoded tree is another one. */
  lemma MisfitIsSeen(t: Tree, rest: Bytes)
    requires !LocalFit(t)
    ensures var ts := Decode(Encode(t) + rest); ts == [] || ts[0] != t
  {
    hide *;
    match t
    case Leaf(typ, data) => MisfitLeaf(typ, data, rest);
    case Nest(typ, kids) => MisfitNest(typ, kids, rest);
  }

  lemma MisfitLeaf(typ: u16, data: Bytes, rest: Bytes)
    requires !LocalFit(Leaf(typ, data))
    ensures
      var ts := Decode(Encode(Leaf(typ, data)) + rest);
      ts == [] || ts[0] != Leaf(typ, data)
  {
    hide Header, LenAt, TypeAt;
    var buf := Encode(Leaf(typ, data)) + rest;
    var n := NLA_HDRLEN + |data|;
    HeaderRead(n, typ, data + Zeros(Align(n) - n) + rest);
    assert buf == Header(n, typ) + (data + Zeros(Align(n) - n) + rest);
  }

  lemma MisfitNest(typ: u16, kids: seq<Tree>, rest: Bytes)
    requires !LocalFit(Nest(typ, kids))
    ensures
      var ts := Decode(Encode(Nest(typ, kids)) + rest);
      ts == [] || ts[0] != Nest(typ, kids)
  {
    hide Header, LenAt, TypeAt;
    var buf := Encode(Nest(typ, kids)) + rest;
    var inner := EncodeAll(kids);
    HeaderRead(NLA_HDRLEN + |inner|, Nested(typ), inner + rest);
    assert buf == Header(NLA_HDRLEN + |inner|, Nested(typ)) + (inner + rest);
    if NlaOk(buf) {
      DecodedSize(FirstPayload(buf));
    }
  }

  lemma {:induction false} OnlyFittingRoundTrip(ts: seq<Tree>)
    requires Decode(EncodeAll(ts)) == ts
    ensures AllFit(ts)
    decreases ts
  {
    hide NlaOk, Behind, FirstPayload, TypeAt, Encode, LocalFit;
    if ts != [] {
      var t := ts[0];
      var rest := EncodeAll(ts[1..]);
      if !LocalFit(t) {
        MisfitIsSeen(t, rest);
      }
      FirstRead(t, rest);
      assert Decode(EncodeAll(ts))[1..] == Decode(rest);
      OnlyFittingRoundTrip(ts[1..]);
      if t.Nest? {
        OnlyFittingRoundTrip(t.kids);
      }
    }
  }

  /** A forest survives writing and walking if and only if every attribute in it fits its header. */
  lemma RoundTrip(ts: seq<Tree>)
    ensures Decode(EncodeAll(ts)) == ts <==> AllFit(ts)
  {
    if AllFit(ts) {
      FittingRoundTrip(ts);
    }
    if Decode(EncodeAll(ts)) == ts {
      OnlyFittingRoundTrip(ts);
    }
  }
}
