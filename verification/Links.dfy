/** The data-plane link: its descriptors, and the VLAN the board gives it. */
module Links {
  import opened Bytes
  import opened Options
  import opened Line
  import Config
  import Firmware
  import Request

  datatype Qos = Ubr | Cbr | VbrNrt | VbrRt

  function QosCode(q: Qos): byte { match q case Ubr => 1 case Cbr => 2 case VbrNrt => 3 case VbrRt => 4 }

  function EncapCode(e: Config.AtmEncap): byte { match e case Llc => 0 case Vcmux => 1 }

  function LinkTypeCode(t: Config.AtmLinkType): byte { match t case Eoa => 0 case Pppoa => 6 case Ipoa => 7 }

  /** `peak`, `sustained` and `burst` are the cell rates; `tagVid` and `tagPriority` belong to the 802.1Q tag. */
  datatype AtmLink = AtmLink(
    qos: Qos, vpi: byte, vci: u16, encap: Config.AtmEncap, linkType: Config.AtmLinkType,
    peak: u32, sustained: u32, burst: u32, vlan: u16, tagEnable: byte, tagVid: u16, tagPriority: byte)

  datatype PtmLink = PtmLink(tagEnable: byte, tagVid: u16, tagPriority: u16, vlan: u16)

  predicate CarriesRates(q: Qos) { q.VbrNrt? || q.VbrRt? }

  function PackAtm(l: AtmLink): (r: Bytes)
    ensures |r| == 24
  {
    [QosCode(l.qos), l.vpi] + Be16(l.vci) + Be32(l.peak)
    + Be32(if CarriesRates(l.qos) then l.sustained else 0) + Be32(if CarriesRates(l.qos) then l.burst else 0)
    + [EncapCode(l.encap), LinkTypeCode(l.linkType)] + Be16(l.vlan) + [l.tagEnable] + Be16(l.tagVid) + [l.tagPriority]
  }

  function PackPtm(l: PtmLink): (r: Bytes)
    ensures |r| == 8
  {
    [l.tagEnable] + Be16(l.tagVid) + Be16(l.tagPriority) + [0] + Be16(l.vlan)
  }

  /** What the documented layout has at its offsets. */
  lemma AtmReads(l: AtmLink)
    ensures
      var o := PackAtm(l);
      && o[0x00] == QosCode(l.qos) && o[0x01] == l.vpi && De16(o[0x02], o[0x03]) == l.vci
      && De32(o[0x04..0x08]) == l.peak
      && De32(o[0x08..0x0c]) == (if CarriesRates(l.qos) then l.sustained else 0)
      && De32(o[0x0c..0x10]) == (if CarriesRates(l.qos) then l.burst else 0)
      && o[0x10] == EncapCode(l.encap) && o[0x11] == LinkTypeCode(l.linkType) && De16(o[0x12], o[0x13]) == l.vlan
      && o[0x14] == l.tagEnable && De16(o[0x15], o[0x16]) == l.tagVid && o[0x17] == l.tagPriority
  {
    hide Be16, Be32, De16, De32, QosCode, EncapCode, LinkTypeCode, CarriesRates;
    var o := PackAtm(l);
    var sustained: u32 := if CarriesRates(l.qos) then l.sustained else 0;
    var burst: u32 := if CarriesRates(l.qos) then l.burst else 0;
    assert o[0x04..0x08] == Be32(l.peak) && o[0x08..0x0c] == Be32(sustained) && o[0x0c..0x10] == Be32(burst);
    De32Be32(l.peak);
    De32Be32(sustained);
    De32Be32(burst);
    assert o[0x02..0x04] == Be16(l.vci) && o[0x12..0x14] == Be16(l.vlan) && o[0x15..0x17] == Be16(l.tagVid);
    De16Be16(l.vci);
    De16Be16(l.vlan);
    De16Be16(l.tagVid);
  }

  lemma PtmReads(l: PtmLink)
    ensures
      var o := PackPtm(l);
      && o[0] == l.tagEnable && De16(o[1], o[2]) == l.tagVid && De16(o[3], o[4]) == l.tagPriority
      && o[5] == 0 && De16(o[6], o[7]) == l.vlan
  {
    hide Be16, De16;
    De16Be16(l.tagVid);
    De16Be16(l.tagPriority);
    De16Be16(l.vlan);
  }

  /** A reader of the documented layout: categories 1 to 4, encapsulation 0 or 1, link types 0, 6 and 7. */
  function ReadAtm(o: Bytes): Option<AtmLink>
  {
    if |o| != 24 || o[0] == 0 || o[0] > 4 || o[16] > 1 || o[17] !in {0, 6, 7} then None
    else
      Some(AtmLink(
        if o[0] == 1 then Ubr else if o[0] == 2 then Cbr else if o[0] == 3 then VbrNrt else VbrRt,
        o[1], De16(o[2], o[3]), if o[16] == 0 then Config.Llc else Config.Vcmux,
        if o[17] == 0 then Config.Eoa else if o[17] == 6 then Config.Pppoa else Config.Ipoa,
        De32(o[4..8]), De32(o[8..12]), De32(o[12..16]), De16(o[18], o[19]), o[20], De16(o[21], o[22]), o[23]))
  }

  /** Such a reader gets the link back; SCR and MBS are zero unless the category is one of the VBR. */
  lemma AtmRoundTrip(l: AtmLink)
    ensures
      ReadAtm(PackAtm(l)) ==
      Some(if l.qos == VbrNrt || l.qos == VbrRt then l else l.(sustained := 0, burst := 0))
  {
    hide PackAtm, De16, De32;
    AtmReads(l);
  }

  // ── the link a configuration asks for ────────────────────────────────

  /** Without an ATM section: VPI 8, VCI 35, LLC, bridged. */
  function AtmOf(atm: Option<Config.AtmConfig>, vlan: u16): AtmLink
  {
    var a := Config.Or(atm, Config.AtmConfig(8, 35, Config.Llc, Config.Eoa));
    AtmLink(Ubr, a.vpi, a.vci, a.encap, a.linkType, 0, 0, 0, vlan, 0, 0xffff, 0xff)
  }

  function Opcode(c: Config.DslConfig): byte { if c.xferMode == Atm then 5 else 15 }

  function Payload(c: Config.DslConfig): Bytes
  {
    var vlan: u16 := Config.VlanId(c);
    [Opcode(c)] + if c.xferMode == Atm then PackAtm(AtmOf(c.atm, vlan)) else PackPtm(PtmLink(0, 0, 0, vlan))
  }

  function AtmChoice(c: Config.DslConfig): Config.AtmConfig
  {
    Config.Or(c.atm, Config.AtmConfig(8, 35, Config.Llc, Config.Eoa))
  }

  /** What the board reads in the request: for ATM, opcode 5 and a UBR link without rates, VPI and VCI 8/35, LLC and bridged
      unless configured, with no tag; for PTM, opcode 15 and a link with no tag; the VLAN is 2000 and the base in both. */
  lemma PayloadReads(c: Config.DslConfig)
    ensures
      var p := Payload(c);
      if c.xferMode == Atm then
        && p[0] == 5
        && match c.atm
           case Some(a) =>
             ReadAtm(p[1..]) ==
             Some(AtmLink(Ubr, a.vpi, a.vci, a.encap, a.linkType, 0, 0, 0, 2000 + c.transportVlanBase, 0, 0xFFFF, 0xFF))
           case None =>
             ReadAtm(p[1..]) ==
             Some(AtmLink(Ubr, 8, 35, Config.Llc, Config.Eoa, 0, 0, 0, 2000 + c.transportVlanBase, 0, 0xFFFF, 0xFF))
      else
        p[0] == 15 && p[1..7] == [0, 0, 0, 0, 0, 0] && De16(p[7], p[8]) == 2000 + c.transportVlanBase
  {
    hide PackAtm, ReadAtm, De16, PackPtm;
    var v: u16 := Config.VlanId(c);
    if c.xferMode == Atm {
      AtmRoundTrip(AtmOf(c.atm, v));
      assert Payload(c)[1..] == PackAtm(AtmOf(c.atm, v));
    } else {
      PtmBytes(v);
      assert Payload(c)[1..] == PackPtm(PtmLink(0, 0, 0, v));
    }
  }

  lemma PtmBytes(v: u16)
    ensures
      var o := PackPtm(PtmLink(0, 0, 0, v));
      o[..6] == [0, 0, 0, 0, 0, 0] && De16(o[6], o[7]) == v
  {
    De16Be16(v);
  }

  /** The same link: transfer mode, VLAN and, for ATM, its parameters. */
  predicate SameLink(c: Config.DslConfig, d: Config.DslConfig)
  {
    && c.xferMode == d.xferMode && c.transportVlanBase == d.transportVlanBase
    && (c.xferMode == Atm ==> AtmChoice(c) == AtmChoice(d))
  }

  /** The request tells exactly that. */
  lemma PayloadTells(c: Config.DslConfig, d: Config.DslConfig)
    ensures Payload(c) == Payload(d) <==> SameLink(c, d)
  {
    hide PackAtm, PackPtm, De16, De32, EncapCode, LinkTypeCode;
    var v: u16, w: u16 := Config.VlanId(c), Config.VlanId(d);
    AtmReads(AtmOf(c.atm, v));
    AtmReads(AtmOf(d.atm, w));
    PtmReads(PtmLink(0, 0, 0, v));
    PtmReads(PtmLink(0, 0, 0, w));
    CodesTell(AtmChoice(c), AtmChoice(d));
    assert Payload(c)[0] == Opcode(c) && Payload(d)[0] == Opcode(d);
    assert Payload(c)[1..] == if c.xferMode == Atm then PackAtm(AtmOf(c.atm, v)) else PackPtm(PtmLink(0, 0, 0, v));
    assert Payload(d)[1..] == if d.xferMode == Atm then PackAtm(AtmOf(d.atm, w)) else PackPtm(PtmLink(0, 0, 0, w));
  }

  lemma CodesTell(a: Config.AtmConfig, b: Config.AtmConfig)
    ensures EncapCode(a.encap) == EncapCode(b.encap) ==> a.encap == b.encap
    ensures LinkTypeCode(a.linkType) == LinkTypeCode(b.linkType) ==> a.linkType == b.linkType
  {
  }

  /** The VLAN named in the reply, if it is long enough to name one, and otherwise the one asked for. */
  function Granted(c: Config.DslConfig, answer: Request.Answer): u16
  {
    if !answer.Ok? then Config.VlanId(c)
    else
      var data := Firmware.StripEcho(answer.payload, Opcode(c));
      if c.xferMode == Atm && |data| >= 0x14 then De16(data[0x12], data[0x13])
      else if c.xferMode == Ptm && |data| >= 8 then De16(data[6], data[7])
      else Config.VlanId(c)
  }

  /** A board that answers with a descriptor decides the VLAN, whether or not it echoes the opcode. */
  lemma AtmGrants(c: Config.DslConfig, l: AtmLink, rest: Bytes)
    requires c.xferMode == Atm
    ensures Granted(c, Request.Ok(PackAtm(l) + rest)) == l.vlan
    ensures Granted(c, Request.Ok([5] + PackAtm(l) + rest)) == l.vlan
  {
    hide PackAtm, De16;
    AtmReads(l);
    assert ([5] + PackAtm(l) + rest)[1..] == PackAtm(l) + rest;
  }

  lemma PtmGrants(c: Config.DslConfig, l: PtmLink, rest: Bytes)
    requires c.xferMode == Ptm
    ensures l.tagEnable != 15 ==> Granted(c, Request.Ok(PackPtm(l) + rest)) == l.vlan
    ensures Granted(c, Request.Ok([15] + PackPtm(l) + rest)) == l.vlan
  {
    hide PackPtm, De16;
    PtmReads(l);
    assert ([15] + PackPtm(l) + rest)[1..] == PackPtm(l) + rest;
  }
}
