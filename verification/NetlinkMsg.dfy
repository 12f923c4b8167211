/** The message buffer, the attribute iterator, and the VLAN request built on them. */
module NetlinkMsg {
  import opened Bytes
  import opened Netlink
  import opened Options

  class NlMsg {
    /** The first `nlmsg_len` bytes of the message. */
    var bytes: Bytes
    const capacity: nat

    constructor (header: Bytes, capacity: nat)
      ensures bytes == header && this.capacity == capacity
    {
      bytes, this.capacity := header, capacity;
    }

    ghost predicate Aligned(b: Bytes) { |b| % 4 == 0 }

    /** An encoded tree still fits behind `b`. */
    ghost predicate Room(b: Bytes, t: Tree) { |b| + |Encode(t)| <= capacity }

    /** `nla_put`: append at the aligned tail, or fail and leave the message alone. */
    method Put(typ: u16, data: Bytes) returns (ok: bool)
      modifies this
      ensures ok <==> Align(|old(bytes)|) + Align(NLA_HDRLEN + |data|) <= capacity
      ensures bytes == if ok then Padded(old(bytes)) + Attribute(typ, data) else old(bytes)
      ensures old(bytes) <= bytes
      ensures Aligned(old(bytes)) ==> Aligned(bytes)
      ensures Aligned(old(bytes)) ==> (ok <==> Room(old(bytes), Leaf(typ, data)))
      ensures Aligned(old(bytes)) && ok ==> bytes == old(bytes) + Encode(Leaf(typ, data))
    {
      hide Encode, Attribute, Padded, Align;
      EncodeLeaf(typ, data);
      AlignExact(|bytes|);
      ok := Align(|bytes|) + Align(NLA_HDRLEN + |data|) <= capacity;
      if ok {
        bytes := Padded(bytes) + Attribute(typ, data);
      }
    }

    /** A NUL inside the string fails before anything is written. */
    method PutString(typ: u16, s: Bytes) returns (ok: bool)
      modifies this
      ensures ok <==> 0 !in s && Align(|old(bytes)|) + Align(NLA_HDRLEN + |s| + 1) <= capacity
      ensures bytes == if ok then Padded(old(bytes)) + Attribute(typ, s + [0]) else old(bytes)
      ensures old(bytes) <= bytes
      ensures Aligned(old(bytes)) ==> Aligned(bytes)
      ensures Aligned(old(bytes)) ==> (ok <==> 0 !in s && Room(old(bytes), Leaf(typ, s + [0])))
      ensures Aligned(old(bytes)) && ok ==> bytes == old(bytes) + Encode(Leaf(typ, s + [0]))
    {
      hide Encode, Align, Padded, Attribute;
      if 0 in s {
        ok := false;
      } else {
        ok := Put(typ, s + [0]);
      }
    }

    /** Open a nest; the handle is an offset, so growing the buffer does not invalidate it. */
    method NestStart(typ: u16) returns (ok: bool, offset: nat)
      modifies this
      ensures offset == Align(|old(bytes)|)
      ensures ok <==> offset + NLA_HDRLEN <= capacity
      ensures bytes == if ok then Padded(old(bytes)) + Header(NLA_HDRLEN, Nested(typ)) else old(bytes)
      ensures Aligned(old(bytes)) ==>
        Aligned(bytes) && offset == |old(bytes)| && (ok ==> bytes == old(bytes) + Header(NLA_HDRLEN, Nested(typ)))
    {
      AlignExact(|bytes|);
      offset := Align(|bytes|);
      ok := Put(Nested(typ), []);
    }

    /** Patch the length field of the nest at `offset`; it keeps the low 16 bits. */
    method NestEnd(offset: nat)
      requires offset + NLA_HDRLEN <= |bytes|
      modifies this
      ensures |bytes| == |old(bytes)|
      ensures bytes == old(bytes)[..offset] + Le16((Align(|bytes|) - offset) % 0x1_0000) + old(bytes)[offset + 2..]
    {
      var size := Align(|bytes|) - offset;
      var field := Le16(size % 0x1_0000);
      bytes := bytes[offset := field[0]][offset + 1 := field[1]];
    }

    /** Closing a nest whose header starts at the end of `start` and whose content is `inner`. */
    method CloseNest(offset: nat, ghost start: Bytes, ghost typ: u16, ghost inner: Bytes)
      requires offset == |start| && |start| % 4 == 0 && |inner| % 4 == 0
      requires bytes == start + Header(NLA_HDRLEN, typ) + inner
      modifies this
      ensures bytes == start + (Header(NLA_HDRLEN + |inner|, typ) + inner)
    {
      hide *;
      PatchedNest(bytes, offset, start, typ, inner);
      NestEnd(offset);
    }

    /** A nest around what `WriteAll` appends is the encoded nest. */
    method WriteTree(t: Tree) returns (ok: bool)
      modifies this
      ensures ok ==> bytes == Padded(old(bytes)) + Encode(t)
      ensures Align(|old(bytes)|) + |Encode(t)| <= capacity ==> ok
      decreases t
    {
      hide Header, Align, Padded, Attribute, EncodeAll;
      match t
      case Leaf(typ, data) =>
        ok := Put(typ, data);
      case Nest(typ, kids) =>
        ghost var start := Padded(bytes);
        var offset;
        ok, offset := NestStart(typ);
        if ok {
          ok := WriteAll(kids);
          if ok {
            CloseNest(offset, start, Nested(typ), EncodeAll(kids));
          }
        }
    }

    method WriteAll(ts: seq<Tree>) returns (ok: bool)
      requires |bytes| % 4 == 0
      modifies this
      ensures ok ==> bytes == old(bytes) + EncodeAll(ts)
      ensures |old(bytes)| + |EncodeAll(ts)| <= capacity ==> ok
      decreases ts
    {
      hide Align, Encode;
      if ts == [] {
        ok := true;
      } else {
        AlignExact(|bytes|);
        ghost var start := bytes;
        ok := WriteTree(ts[0]);
        if ok {
          assert bytes == start + Encode(ts[0]);
          ok := WriteAll(ts[1..]);
          assert ok ==> bytes == start + (Encode(ts[0]) + EncodeAll(ts[1..]));
        }
      }
    }
  }

  /** Overwriting the length field of an empty nest header gives the header of the full one. */
  lemma PatchedNest(b: Bytes, offset: nat, start: Bytes, typ: u16, inner: Bytes)
    requires offset == |start| && |start| % 4 == 0 && |inner| % 4 == 0
    requires b == start + Header(NLA_HDRLEN, typ) + inner
    ensures offset + NLA_HDRLEN <= |b| && offset <= Align(|b|)
    ensures b[..offset] + Le16((Align(|b|) - offset) % 0x1_0000) + b[offset + 2..]
         == start + (Header(NLA_HDRLEN + |inner|, typ) + inner)
  {
    hide Le16, Align, Header;
    SizeOfNest(|start|, |inner|);
    assert |b| == |start| + NLA_HDRLEN + |inner|;
    assert Align(|b|) - offset == NLA_HDRLEN + |inner|;
    PatchedHeader(start, typ, inner, NLA_HDRLEN + |inner|);
  }

  lemma SizeOfNest(before: nat, inside: nat)
    requires before % 4 == 0 && inside % 4 == 0
    ensures Align(before + NLA_HDRLEN + inside) == before + NLA_HDRLEN + inside
  {
    hide Align;
    ThreeParts(before, inside);
    AlignExact(before + NLA_HDRLEN + inside);
  }

  lemma ThreeParts(before: nat, inside: nat)
    requires before % 4 == 0 && inside % 4 == 0
    ensures (before + NLA_HDRLEN + inside) % 4 == 0
  {
    var x, y := before / 4, inside / 4;
    assert before + NLA_HDRLEN + inside == 4 * (x + 1 + y);
  }

  /** The first two header bytes are the length; the other two stay. */
  lemma PatchedHeader(start: Bytes, typ: u16, inner: Bytes, size: nat)
    ensures
      var b := start + Header(NLA_HDRLEN, typ) + inner;
      b[..|start|] + Le16(size % 0x1_0000) + b[|start| + 2..] == start + (Header(size, typ) + inner)
  {
    hide Le16;
    var b := start + Header(NLA_HDRLEN, typ) + inner;
    assert b[|start| + 2..] == Header(NLA_HDRLEN, typ)[2..] + inner;
    assert Header(NLA_HDRLEN, typ)[2..] == Le16(typ) == Header(size, typ)[2..];
  }

  // ── reading ──────────────────────────────────────────────────────────

  datatype Next = End | Found(item: Item)

  class NlaIter {
    const buf: Bytes
    var pos: nat
    var remaining: int

    ghost predicate Valid()
      reads this
    {
      remaining > 0 ==> pos + remaining == |buf|
    }

    /** The bytes still to be walked. */
    function Rest(): Bytes
      requires Valid()
      reads this
    {
      if remaining > 0 then buf[pos..] else []
    }

    constructor (buf: Bytes)
      ensures Valid() && this.buf == buf && Rest() == buf
    {
      this.buf, pos, remaining := buf, 0, |buf|;
    }

    method Next() returns (n: Next)
      requires Valid()
      modifies this
      ensures Valid()
      ensures n.End? ==> Walk(old(Rest())) == [] && Rest() == old(Rest())
      ensures n.Found? ==> Walk(old(Rest())) == [n.item] + Walk(Rest()) && |Rest()| < |old(Rest())|
    {
      if remaining <= 0 || !NlaOk(buf[pos..]) {
        return End;
      }
      ghost var rest := Rest();
      hide TypeAt, LenAt;
      var total := Align(LenAt(buf[pos..]));
      n := Found(Item(TypeAt(buf[pos..]), FirstPayload(buf[pos..])));
      pos := pos + total;
      remaining := remaining - total;
      assert Rest() == Behind(rest);
    }
  }

  /** Collecting what the iterator yields gives the walk. */
  method Collect(buf: Bytes) returns (items: seq<Item>)
    ensures items == Walk(buf)
  {
    hide Walk, NlaOk, Behind, FirstPayload, TypeAt, LenAt;
    var iter := new NlaIter(buf);
    ghost var rest := buf;
    items := [];
    while true
      invariant iter.Valid() && iter.Rest() == rest
      invariant Walk(buf) == items + Walk(rest)
      decreases |rest|
    {
      var next := iter.Next();
      if next.End? {
        break;
      }
      rest := iter.Rest();
      Regroup(items, [next.item], Walk(rest));
      items := items + [next.item];
    }
  }

  /** The recursive walk over iterator and payload lengths. */
  method ReadForest(buf: Bytes) returns (ts: seq<Tree>)
    ensures ts == Decode(buf)
    decreases |buf|
  {
    hide Decode, Walk;
    var items := Collect(buf);
    DecodeIsWalk(buf);
    WalkShorter(buf);
    ts := [];
    for i := 0 to |items|
      invariant ts == Decode(buf)[..i]
    {
      var t;
      if items[i].typ >= NLA_F_NESTED {
        var kids := ReadForest(items[i].payload);
        t := Nest(items[i].typ - NLA_F_NESTED, kids);
      } else {
        t := Leaf(items[i].typ, items[i].payload);
      }
      assert t == TreeOf(items[i]);
      ts := ts + [t];
    }
  }

  lemma {:induction false} WalkShorter(buf: Bytes)
    ensures forall i :: 0 <= i < |Walk(buf)| ==> |Walk(buf)[i].payload| < |buf|
    decreases |buf|
  {
    hide NlaOk, TypeAt;
    if NlaOk(buf) {
      WalkShorter(Behind(buf));
    }
  }

  // ── the VLAN request ─────────────────────────────────────────────────

  const IFLA_IFNAME: u16 := 3
  const IFLA_LINK: u16 := 5
  const IFLA_LINKINFO: u16 := 18
  const IFLA_INFO_KIND: u16 := 1
  const IFLA_INFO_DATA: u16 := 2
  const IFLA_VLAN_ID: u16 := 1

  /** "vlan" */
  function VlanKind(): Bytes { [0x76, 0x6C, 0x61, 0x6E] }

  function DecimalDigits(n: nat): (r: Bytes)
    ensures r != [] && |r| <= n + 1 && 0 !in r
  {
    if n < 10 then [0x30 + n] else DecimalDigits(n / 10) + [0x30 + n % 10]
  }

  /** `parent.vid` */
  function VlanName(parent: Bytes, vid: u16): Bytes { parent + [0x2E] + DecimalDigits(vid) }

  function NameLeaf(parent: Bytes, vid: u16): Tree { Leaf(IFLA_IFNAME, VlanName(parent, vid) + [0]) }

  function LinkLeaf(link: u32): Tree { Leaf(IFLA_LINK, Le32(link)) }

  function KindLeaf(): Tree { Leaf(IFLA_INFO_KIND, VlanKind() + [0]) }

  function IdLeaf(vid: u16): Tree { Leaf(IFLA_VLAN_ID, Le16(vid)) }

  function DataNest(vid: u16): Tree { Nest(IFLA_INFO_DATA, [IdLeaf(vid)]) }

  function LinkInfoNest(vid: u16): Tree { Nest(IFLA_LINKINFO, [KindLeaf(), DataNest(vid)]) }

  /** The attributes of the request that creates `parent.vid` on top of interface `link`. */
  function VlanTree(parent: Bytes, vid: u16, link: u32): seq<Tree>
  {
    [NameLeaf(parent, vid), LinkLeaf(link), LinkInfoNest(vid)]
  }

  lemma EncodeLeaf(typ: u16, data: Bytes)
    ensures Encode(Leaf(typ, data)) == Attribute(typ, data)
  {
    hide Attribute;
  }

  lemma EncodeNest(typ: u16, kids: seq<Tree>)
    ensures Encode(Nest(typ, kids)) == Header(NLA_HDRLEN + |EncodeAll(kids)|, Nested(typ)) + EncodeAll(kids)
  {
    hide Header, EncodeAll;
  }

  lemma EncodeOne(t: Tree)
    ensures EncodeAll([t]) == Encode(t)
  {
    EncodeCons(t, []);
    hide Encode;
  }

  lemma EncodeTwo(t: Tree, u: Tree)
    ensures EncodeAll([t, u]) == Encode(t) + Encode(u)
  {
    hide Encode, EncodeAll;
    EncodeCons(t, [u]);
    EncodeOne(u);
    assert [t] + [u] == [t, u];
  }

  lemma EncodeThree(t: Tree, u: Tree, v: Tree)
    ensures EncodeAll([t, u, v]) == Encode(t) + Encode(u) + Encode(v)
  {
    hide Encode, EncodeAll;
    EncodeCons(t, [u, v]);
    EncodeTwo(u, v);
    assert [t] + [u, v] == [t, u, v];
  }

  /** An attribute is left out for want of room behind `used` bytes. */
  function Kept(t: Tree, used: nat, capacity: nat): seq<Tree> { if used + |Encode(t)| <= capacity then [t] else [] }

  /** The nest is opened, and attributes in it are left out for want of room; nothing if it cannot be opened. */
  function InfoData(vid: u16, used: nat, capacity: nat): Option<Tree>
  {
    if used + NLA_HDRLEN > capacity then None
    else Some(Nest(IFLA_INFO_DATA, Kept(IdLeaf(vid), used + NLA_HDRLEN, capacity)))
  }

  function KindAndData(vid: u16, used: nat, capacity: nat): Option<seq<Tree>>
  {
    var kind := Kept(KindLeaf(), used, capacity);
    match InfoData(vid, used + |EncodeAll(kind)|, capacity) case None => None case Some(data) => Some(kind + [data])
  }

  function LinkInfo(vid: u16, used: nat, capacity: nat): Option<Tree>
  {
    if used + NLA_HDRLEN > capacity then None
    else
      match KindAndData(vid, used + NLA_HDRLEN, capacity)
      case None => None
      case Some(kids) => Some(Nest(IFLA_LINKINFO, kids))
  }

  /** Name and parent link as far as they are kept. */
  function NameAndLink(parent: Bytes, vid: u16, link: u32, used: nat, capacity: nat): seq<Tree>
  {
    var name := if 0 in parent then [] else Kept(NameLeaf(parent, vid), used, capacity);
    name + Kept(LinkLeaf(link), used + |EncodeAll(name)|, capacity)
  }

  /** The attributes of the request that is sent; none is sent if a nest cannot be opened. */
  function VlanRequest(parent: Bytes, vid: u16, link: u32, used: nat, capacity: nat): Option<seq<Tree>>
  {
    var front := NameAndLink(parent, vid, link, used, capacity);
    match LinkInfo(vid, used + |EncodeAll(front)|, capacity) case None => None case Some(info) => Some(front + [info])
  }

  lemma EncodeNone()
    ensures EncodeAll([]) == []
  {
  }

  lemma EncodeKept(t: Tree, used: nat, capacity: nat)
    ensures EncodeAll(Kept(t, used, capacity)) == if used + |Encode(t)| <= capacity then Encode(t) else []
  {
    hide Encode, EncodeAll;
    EncodeNone();
    EncodeOne(t);
  }

  /** The inner nest of the request. */
  method PutInfoData(msg: NlMsg, vid: u16) returns (ok: bool)
    requires msg.Aligned(msg.bytes)
    modifies msg
    ensures msg.Aligned(msg.bytes) && old(msg.bytes) <= msg.bytes
    ensures
      var data := InfoData(vid, |old(msg.bytes)|, msg.capacity);
      && (ok <==> data.Some?) && (ok ==> msg.bytes == old(msg.bytes) + Encode(data.value))
  {
    hide Align, Header, Encode, EncodeAll, Padded, Attribute, Le16, Kept;
    ghost var start, kept := msg.bytes, Kept(IdLeaf(vid), |msg.bytes| + NLA_HDRLEN, msg.capacity);
    EncodeKept(IdLeaf(vid), |start| + NLA_HDRLEN, msg.capacity);
    EncodeNest(IFLA_INFO_DATA, kept);
    AlignExact(|start|);
    var nest, unused;
    ok, nest := msg.NestStart(IFLA_INFO_DATA);
    if !ok { return; }
    ghost var inside := msg.bytes;
    unused := msg.Put(IFLA_VLAN_ID, Le16(vid));
    Continued(inside, EncodeAll(kept), msg.bytes);
    assert inside + [] == inside;
    msg.CloseNest(nest, start, Nested(IFLA_INFO_DATA), EncodeAll(kept));
  }

  /** The content of the outer nest. */
  method PutKindAndData(msg: NlMsg, vid: u16) returns (ok: bool)
    requires msg.Aligned(msg.bytes)
    modifies msg
    ensures msg.Aligned(msg.bytes) && old(msg.bytes) <= msg.bytes
    ensures
      var kids := KindAndData(vid, |old(msg.bytes)|, msg.capacity);
      && (ok <==> kids.Some?) && (ok ==> msg.bytes == old(msg.bytes) + EncodeAll(kids.value))
  {
    hide Align, Encode, EncodeAll, InfoData, Kept;
    ghost var start, kind := msg.bytes, Kept(KindLeaf(), |msg.bytes|, msg.capacity);
    EncodeKept(KindLeaf(), |start|, msg.capacity);
    var unused := msg.PutString(IFLA_INFO_KIND, VlanKind());
    assert start + [] == start;
    ghost var data := InfoData(vid, |msg.bytes|, msg.capacity);
    ok := PutInfoData(msg, vid);
    if ok {
      EncodeJoin(kind, data.value);
      Regroup(start, EncodeAll(kind), Encode(data.value));
    }
  }

  /** The outer nest, kind and data inside. */
  method PutLinkInfo(msg: NlMsg, vid: u16) returns (ok: bool)
    requires msg.Aligned(msg.bytes)
    modifies msg
    ensures
      var info := LinkInfo(vid, |old(msg.bytes)|, msg.capacity);
      && (ok <==> info.Some?) && (ok ==> msg.bytes == old(msg.bytes) + Encode(info.value))
  {
    hide Align, Header, Encode, EncodeAll, Padded, Attribute, KindAndData, Nested;
    ghost var start, kids := msg.bytes, KindAndData(vid, |msg.bytes| + NLA_HDRLEN, msg.capacity);
    AlignExact(|start|);
    var li;
    ok, li := msg.NestStart(IFLA_LINKINFO);
    if !ok { return; }
    ghost var inside := msg.bytes;
    ok := PutKindAndData(msg, vid);
    if !ok { return; }
    EncodeNest(IFLA_LINKINFO, kids.value);
    Continued(inside, EncodeAll(kids.value), msg.bytes);
    msg.CloseNest(li, start, Nested(IFLA_LINKINFO), EncodeAll(kids.value));
  }

  /** The attributes of the VLAN request; like the source, it ignores the results of the puts. */
  method AddVlanAttributes(msg: NlMsg, parent: Bytes, vid: u16, link: u32) returns (ok: bool)
    requires msg.Aligned(msg.bytes)
    modifies msg
    ensures
      var request := VlanRequest(parent, vid, link, |old(msg.bytes)|, msg.capacity);
      && (ok <==> request.Some?) && (ok ==> msg.bytes == old(msg.bytes) + EncodeAll(request.value))
  {
    hide Align, Encode, EncodeAll, VlanName, Padded, Attribute, LinkInfo, Le32, Kept;
    ghost var start, front := msg.bytes, NameAndLink(parent, vid, link, |msg.bytes|, msg.capacity);
    PutNameAndLink(msg, parent, vid, link);
    ghost var info := LinkInfo(vid, |msg.bytes|, msg.capacity);
    ok := PutLinkInfo(msg, vid);
    if ok {
      EncodeJoin(front, info.value);
      Regroup(start, EncodeAll(front), Encode(info.value));
    }
  }

  /** The two attributes in front of the nest. */
  method PutNameAndLink(msg: NlMsg, parent: Bytes, vid: u16, link: u32)
    requires msg.Aligned(msg.bytes)
    modifies msg
    ensures msg.Aligned(msg.bytes)
    ensures msg.bytes == old(msg.bytes) + EncodeAll(NameAndLink(parent, vid, link, |old(msg.bytes)|, msg.capacity))
  {
    hide Align, Encode, EncodeAll, VlanName, Padded, Attribute, Le32, Kept;
    ghost var start, name := msg.bytes, Kept(NameLeaf(parent, vid), |msg.bytes|, msg.capacity);
    NameHasNoNul(parent, vid);
    EncodeNone();
    EncodeKept(NameLeaf(parent, vid), |start|, msg.capacity);
    var unused;
    unused := msg.PutString(IFLA_IFNAME, VlanName(parent, vid));
    assert start + [] == start;
    ghost var middle := msg.bytes;
    ghost var front := if 0 in parent then [] else name;
    assert middle == start + EncodeAll(front);
    EncodeKept(LinkLeaf(link), |middle|, msg.capacity);
    unused := msg.Put(IFLA_LINK, Le32(link));
    assert middle + [] == middle;
    ghost var last := Kept(LinkLeaf(link), |middle|, msg.capacity);
    EncodeAppend(front, last);
    Regroup(start, EncodeAll(front), EncodeAll(last));
  }

  lemma {:induction false} EncodeAppend(ts: seq<Tree>, us: seq<Tree>)
    ensures EncodeAll(ts + us) == EncodeAll(ts) + EncodeAll(us)
  {
    hide Encode, EncodeAll;
    if ts == [] {
      EncodeNone();
      assert ts + us == us;
    } else {
      EncodeAppend(ts[1..], us);
      EncodeCons(ts[0], ts[1..]);
      EncodeCons(ts[0], ts[1..] + us);
      Regroup(Encode(ts[0]), EncodeAll(ts[1..]), EncodeAll(us));
      assert [ts[0]] + ts[1..] == ts && [ts[0]] + (ts[1..] + us) == ts + us;
    }
  }

  lemma EncodeJoin(ts: seq<Tree>, t: Tree)
    ensures EncodeAll(ts + [t]) == EncodeAll(ts) + Encode(t)
  {
    hide Encode, EncodeAll;
    EncodeAppend(ts, [t]);
    EncodeOne(t);
  }

  lemma Continued(a: Bytes, b: Bytes, all: Bytes)
    requires a <= all
    ensures all == a + all[|a|..]
    ensures all == a + b ==> all[|a|..] == b
  {
  }

  lemma NameHasNoNul(parent: Bytes, vid: u16)
    ensures 0 in parent <==> 0 in VlanName(parent, vid)
  {
    hide DecimalDigits;
  }

  lemma InfoDataWhole(vid: u16, used: nat, capacity: nat)
    ensures InfoData(vid, used, capacity) == Some(DataNest(vid)) <==> used + |Encode(DataNest(vid))| <= capacity
  {
    hide Encode, EncodeAll, Header, Nested;
    EncodeNest(IFLA_INFO_DATA, [IdLeaf(vid)]);
    EncodeOne(IdLeaf(vid));
  }

  lemma JoinIs(front: seq<Tree>, last: Option<Tree>, front': seq<Tree>, last': Tree)
    ensures last.Some? ==> (front + [last.value] == front' + [last'] <==> front == front' && last.value == last')
  {
    if last.Some? && front + [last.value] == front' + [last'] {
      assert |front| == |front'|;
      assert (front + [last.value])[..|front|] == (front' + [last'])[..|front|];
      assert (front + [last.value])[|front|] == (front' + [last'])[|front|];
    }
  }

  lemma KindAndDataWhole(vid: u16, used: nat, capacity: nat)
    ensures
      KindAndData(vid, used, capacity) == Some([KindLeaf(), DataNest(vid)]) <==>
        used + |EncodeAll([KindLeaf(), DataNest(vid)])| <= capacity
  {
    hide Encode, EncodeAll, InfoData, KindLeaf;
    EncodeTwo(KindLeaf(), DataNest(vid));
    EncodeOne(KindLeaf());
    var kind := Kept(KindLeaf(), used, capacity);
    var data := InfoData(vid, used + |EncodeAll(kind)|, capacity);
    InfoDataWhole(vid, used + |EncodeAll(kind)|, capacity);
    JoinIs(kind, data, [KindLeaf()], DataNest(vid));
    assert [KindLeaf()] + [DataNest(vid)] == [KindLeaf(), DataNest(vid)];
  }

  lemma LinkInfoWhole(vid: u16, used: nat, capacity: nat)
    ensures LinkInfo(vid, used, capacity) == Some(LinkInfoNest(vid)) <==> used + |Encode(LinkInfoNest(vid))| <= capacity
  {
    hide Encode, EncodeAll, KindAndData, KindLeaf, DataNest, Header, Nested;
    EncodeNest(IFLA_LINKINFO, [KindLeaf(), DataNest(vid)]);
    KindAndDataWhole(vid, used + NLA_HDRLEN, capacity);
  }

  lemma NameAndLinkWhole(parent: Bytes, vid: u16, link: u32, used: nat, capacity: nat)
    ensures
      |NameAndLink(parent, vid, link, used, capacity)| == 2 <==>
        0 !in parent && used + |Encode(NameLeaf(parent, vid))| + |Encode(LinkLeaf(link))| <= capacity
    ensures |NameAndLink(parent, vid, link, used, capacity)| == 2 ==>
      NameAndLink(parent, vid, link, used, capacity) == [NameLeaf(parent, vid), LinkLeaf(link)]
  {
    hide Encode, EncodeAll, NameLeaf, LinkLeaf;
    EncodeOne(NameLeaf(parent, vid));
  }

  /** The request is complete exactly if all of it has room and the name holds no NUL. */
  lemma VlanComplete(parent: Bytes, vid: u16, link: u32, used: nat, capacity: nat)
    ensures
      VlanRequest(parent, vid, link, used, capacity) == Some(VlanTree(parent, vid, link)) <==>
        0 !in parent && used + |EncodeAll(VlanTree(parent, vid, link))| <= capacity
  {
    hide Encode, EncodeAll, NameLeaf, LinkLeaf, NameAndLink, LinkInfo, LinkInfoNest;
    var front := NameAndLink(parent, vid, link, used, capacity);
    NameAndLinkWhole(parent, vid, link, used, capacity);
    EncodeThree(NameLeaf(parent, vid), LinkLeaf(link), LinkInfoNest(vid));
    EncodeTwo(NameLeaf(parent, vid), LinkLeaf(link));
    LinkInfoWhole(vid, used + |EncodeAll(front)|, capacity);
    var names := [NameLeaf(parent, vid), LinkLeaf(link)];
    JoinIs(front, LinkInfo(vid, used + |EncodeAll(front)|, capacity), names, LinkInfoNest(vid));
    assert names + [LinkInfoNest(vid)] == VlanTree(parent, vid, link);
  }

  // ── what the kernel reads ────────────────────────────────────────────

  /** The number that decimal digits stand for, first digit first, when `acc` has been read before them. */
  function DigitsFrom(acc: nat, s: Bytes): Option<nat>
    decreases |s|
  {
    if s == [] then Some(acc)
    else if 0x30 <= s[0] <= 0x39 then DigitsFrom(10 * acc + (s[0] - 0x30), s[1..])
    else None
  }

  /** A number in decimal, without leading zeros. */
  function ReadDecimal(s: Bytes): Option<nat>
  {
    if s == [] || (|s| > 1 && s[0] == 0x30) then None else DigitsFrom(0, s)
  }

  lemma {:induction false} DigitsSnoc(acc: nat, s: Bytes, d: nat)
    requires d < 10
    ensures
      DigitsFrom(acc, s + [0x30 + d]) ==
      match DigitsFrom(acc, s) case None => None case Some(n) => Some(10 * n + d)
    decreases |s|
  {
    if s != [] {
      assert (s + [0x30 + d])[1..] == s[1..] + [0x30 + d];
      if 0x30 <= s[0] <= 0x39 {
        DigitsSnoc(10 * acc + (s[0] - 0x30), s[1..], d);
      }
    }
  }

  lemma {:induction false} DecimalVisible(n: nat)
    ensures 0x2E !in DecimalDigits(n) && (n > 0 ==> DecimalDigits(n)[0] != 0x30)
  {
    if n >= 10 {
      DecimalVisible(n / 10);
    }
  }

  lemma OneDigit(n: nat)
    requires n < 10
    ensures DigitsFrom(0, [0x30 + n]) == Some(n)
  {
    DigitsSnoc(0, [], n);
    assert [] + [0x30 + n] == [0x30 + n];
  }

  /** The decimal text of a number is read as that number. */
  lemma {:induction false} DecimalReads(n: nat)
    ensures ReadDecimal(DecimalDigits(n)) == Some(n)
  {
    DecimalVisible(n);
    if n < 10 {
      OneDigit(n);
    } else {
      DecimalReads(n / 10);
      DecimalVisible(n / 10);
      DigitsSnoc(0, DecimalDigits(n / 10), n % 10);
      hide DigitsFrom;
      assert 10 * (n / 10) + n % 10 == n;
    }
  }

  /** The place of the last dot. */
  function LastDot(s: Bytes): (r: Option<nat>)
    ensures r.Some? ==> r.value < |s|
  {
    if s == [] then None
    else if s[|s| - 1] == 0x2E then Some(|s| - 1)
    else LastDot(s[..|s| - 1])
  }

  lemma {:induction false} LastDotAt(s: Bytes, t: Bytes)
    requires 0x2E !in t
    ensures LastDot(s + [0x2E] + t) == Some(|s|)
  {
    var all := s + [0x2E] + t;
    if t != [] {
      var n := |t| - 1;
      assert all[..|all| - 1] == s + [0x2E] + t[..n] && all[|all| - 1] == t[n];
      assert t[n] in t && forall d :: d in t[..n] ==> d in t;
      LastDotAt(s, t[..n]);
    }
  }

  /** What a reader finds in the request: the name in its two parts, the parent's index, the kind and the VLAN id. */
  datatype VlanSeen = VlanSeen(parent: Bytes, number: Option<nat>, link: u32, kind: Bytes, id: u16)

  /** The first attribute of a type. */
  function Find(ts: seq<Tree>, typ: u16): Option<Tree>
  {
    if ts == [] then None else if ts[0].typ == typ then Some(ts[0]) else Find(ts[1..], typ)
  }

  function FindLeaf(ts: seq<Tree>, typ: u16): Option<Bytes>
  {
    match Find(ts, typ) case Some(Leaf(_, data)) => Some(data) case _ => None
  }

  function FindNest(ts: seq<Tree>, typ: u16): seq<Tree>
  {
    match Find(ts, typ) case Some(Nest(_, kids)) => kids case _ => []
  }

  /** A text ends with a NUL. */
  function TextOf(data: Option<Bytes>): Option<Bytes>
  {
    if data.Some? && data.value != [] && data.value[|data.value| - 1] == 0 then Some(data.value[..|data.value| - 1]) else None
  }

  /** The interface name is 3, the parent's index 5, the link information 18; in that the kind is 1 and the data 2; in
      those the VLAN id is 1. */
  function ReadVlan(ts: seq<Tree>): Option<VlanSeen>
  {
    var info := FindNest(ts, 18);
    var name, link, kind, id := TextOf(FindLeaf(ts, 3)), FindLeaf(ts, 5), TextOf(FindLeaf(info, 1)), FindLeaf(FindNest(info, 2), 1);
    if name.None? || link.None? || kind.None? || id.None? || |link.value| != 4 || |id.value| != 2 then None
    else
      match LastDot(name.value)
      case None => None
      case Some(dot) =>
        Some(VlanSeen(name.value[..dot], ReadDecimal(name.value[dot + 1..]), ReadLe32(link.value, 0), kind.value,
                      De16(id.value[1], id.value[0])))
  }

  lemma NameReads(parent: Bytes, vid: u16)
    ensures
      var name := VlanName(parent, vid);
      && LastDot(name) == Some(|parent|) && name[..|parent|] == parent && ReadDecimal(name[|parent| + 1..]) == Some(vid)
  {
    hide DecimalDigits, ReadDecimal;
    DecimalReads(vid);
    DecimalVisible(vid);
    LastDotAt(parent, DecimalDigits(vid));
    assert VlanName(parent, vid)[|parent| + 1..] == DecimalDigits(vid);
  }

  lemma TreeReads(parent: Bytes, vid: u16, link: u32)
    ensures
      ReadVlan(VlanTree(parent, vid, link)) == Some(VlanSeen(parent, Some(vid), link, [0x76, 0x6C, 0x61, 0x6E], vid))
  {
    hide VlanName, LastDot, ReadDecimal, Le32, ReadLe32;
    NameReads(parent, vid);
    ReadLe32Le32(link);
    var t, info := VlanTree(parent, vid, link), [KindLeaf(), DataNest(vid)];
    assert t[1..] == [LinkLeaf(link), LinkInfoNest(vid)] && t[1..][1..] == [LinkInfoNest(vid)];
    assert info[1..] == [DataNest(vid)];
    assert Find(t[1..][1..], 18) == Some(LinkInfoNest(vid)) && Find(t[1..], 18) == Find(t[1..][1..], 18);
    assert Find(t[1..], 5) == Some(LinkLeaf(link));
    assert Find(info[1..], 2) == Some(DataNest(vid));
    assert FindLeaf(t, 3) == Some(VlanName(parent, vid) + [0]) && FindLeaf(t, 5) == Some(Le32(link));
    assert FindNest(t, 18) == info;
    assert FindLeaf(info, 1) == Some(VlanKind() + [0]) && FindNest(info, 2) == [IdLeaf(vid)];
    assert FindLeaf([IdLeaf(vid)], 1) == Some(Le16(vid));
    assert (VlanName(parent, vid) + [0])[..|VlanName(parent, vid)|] == VlanName(parent, vid);
    assert (VlanKind() + [0])[..4] == VlanKind();
  }

  /** Reading the request gives the parent and the VLAN id out of the name, the parent link, the kind and the VLAN id,
      for every name that fits. */
  lemma VlanRoundTrip(parent: Bytes, vid: u16, link: u32)
    requires NLA_HDRLEN + |VlanName(parent, vid)| + 1 < 0x1_0000
    ensures
      var read := Decode(EncodeAll(VlanTree(parent, vid, link)));
      && read == VlanTree(parent, vid, link)
      && ReadVlan(read) == Some(VlanSeen(parent, Some(vid), link, [0x76, 0x6C, 0x61, 0x6E], vid))
  {
    hide Decode, VlanName, ReadVlan, NameLeaf, LinkLeaf, KindLeaf, IdLeaf, Le16;
    TreeFits(parent, vid, link);
    RoundTrip(VlanTree(parent, vid, link));
    TreeReads(parent, vid, link);
  }

  lemma TreeFits(parent: Bytes, vid: u16, link: u32)
    requires NLA_HDRLEN + |VlanName(parent, vid)| + 1 < 0x1_0000
    ensures AllFit(VlanTree(parent, vid, link))
  {
    hide VlanName;
    EncodeTwo(KindLeaf(), DataNest(vid));
    EncodeOne(IdLeaf(vid));
    AllFitList([IdLeaf(vid)]);
    AllFitList([KindLeaf(), DataNest(vid)]);
    AllFitList(VlanTree(parent, vid, link));
  }

  lemma {:induction false} AllFitList(ts: seq<Tree>)
    requires forall i :: 0 <= i < |ts| ==> Fits(ts[i])
    ensures AllFit(ts)
  {
    if ts != [] {
      AllFitList(ts[1..]);
    }
  }
}
