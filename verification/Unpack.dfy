/** The opcode-2 reply: link status, codes and metrics at fixed places. */
module Unpack {
  import opened Bytes
  import opened Options

  datatype LinkStatus = NoSignal | Up | Initializing | EstablishingLink | Unknown(code: byte)

  function FromCode(code: byte): LinkStatus
  {
    match code
    case 0 => NoSignal
    case 1 => Up
    case 2 => NoSignal
    case 3 => Initializing
    case 4 => EstablishingLink
    case other => Unknown(other)
  }

  datatype DataPath = AtmPath | PtmPath | UnknownPath(code: byte)

  function PathOf(code: byte): DataPath
  {
    match code case 0 => AtmPath case 1 => PtmPath case other => UnknownPath(other)
  }

  datatype LineMetrics = LineMetrics(
    downRate: u32, upRate: u32, upOutputPower: u32, downOutputPower: u32, upNoiseMargin: u32, downNoiseMargin: u32,
    upAttenuation: u32, downAttenuation: u32, upAttainableRate: u32, downAttainableRate: u32,
    upCrcErrors: u32, downCrcErrors: u32)

  datatype LineObj = LineObj(
    status: u32, linkStatus: LinkStatus, modulationCode: byte, dataPath: DataPath, annexCode: byte,
    metrics: LineMetrics, isAtm: bool, profileMask: u16, uptimeSecs: u32)

  const LINE_OBJ_LEN: nat := 63

  function WordAt(data: Bytes, off: nat): u32
    requires off + 4 <= |data|
  {
    De32(data[off..off + 4])
  }

  function ParseLineObj(data: Bytes): Option<LineObj>
  {
    if |data| < LINE_OBJ_LEN then None
    else
      var metrics := LineMetrics(
        WordAt(data, 0x08), WordAt(data, 0x0c), WordAt(data, 0x10), WordAt(data, 0x14), WordAt(data, 0x18),
        WordAt(data, 0x1c), WordAt(data, 0x20), WordAt(data, 0x24), WordAt(data, 0x28), WordAt(data, 0x2c),
        WordAt(data, 0x30), WordAt(data, 0x34));
      Some(LineObj(
        WordAt(data, 0x00), FromCode(data[0x04]), data[0x05], PathOf(data[0x06]), data[0x07],
        metrics, data[0x38] != 0, De16(data[0x39], data[0x3a]), WordAt(data, 0x3b)))
  }

  // ── what the board writes ────────────────────────────────────────────

  /** A reply as the board puts it together: four codes, twelve metrics in the order down rate, up rate, then
      up and down of each further pair, and the trailing fields. */
  datatype Report = Report(
    status: u32, link: byte, modulation: byte, path: byte, annex: byte,
    metrics: seq<u32>, atm: byte, mask: u16, uptime: u32)

  function Words(ws: seq<u32>): (r: Bytes)
    ensures |r| == 4 * |ws|
  {
    if ws == [] then [] else Words(ws[..|ws| - 1]) + Be32(ws[|ws| - 1])
  }

  function Written(r: Report): Bytes
  {
    Be32(r.status) + [r.link, r.modulation, r.path, r.annex] + Words(r.metrics) + [r.atm] + Be16(r.mask) + Be32(r.uptime)
  }

  lemma {:induction false} WordsAt(ws: seq<u32>, k: nat)
    requires k < |ws|
    ensures Words(ws)[4 * k..4 * k + 4] == Be32(ws[k])
  {
    hide Be32;
    var n := |ws| - 1;
    if k < n {
      WordsAt(ws[..n], k);
      assert Words(ws)[4 * k..4 * k + 4] == Words(ws[..n])[4 * k..4 * k + 4];
    }
  }

  lemma MetricAt(r: Report, rest: Bytes, k: nat)
    requires |r.metrics| == 12 && k < 12
    ensures WordAt(Written(r) + rest, 8 + 4 * k) == r.metrics[k]
  {
    hide Be32, De32, Be16, Words;
    var data := Written(r) + rest;
    WordsAt(r.metrics, k);
    assert data[8 + 4 * k..12 + 4 * k] == Words(r.metrics)[4 * k..4 * k + 4];
    De32Be32(r.metrics[k]);
  }

  lemma EndsAt(r: Report, rest: Bytes)
    requires |r.metrics| == 12
    ensures
      var data := Written(r) + rest;
      && |data| >= LINE_OBJ_LEN && WordAt(data, 0) == r.status && WordAt(data, 0x3b) == r.uptime
      && data[4] == r.link && data[5] == r.modulation && data[6] == r.path && data[7] == r.annex
      && data[0x38] == r.atm && De16(data[0x39], data[0x3a]) == r.mask
  {
    hide Be32, De32, Be16, Words, De16;
    var data := Written(r) + rest;
    assert data[0..4] == Be32(r.status) && data[0x3b..0x3f] == Be32(r.uptime);
    De32Be32(r.status);
    De32Be32(r.uptime);
    assert data[0x39] == Be16(r.mask)[0] && data[0x3a] == Be16(r.mask)[1];
    De16Be16(r.mask);
  }

  /** Every field is read from where the board put it. */
  lemma LineObjReads(r: Report, rest: Bytes)
    requires |r.metrics| == 12
    ensures
      var m := r.metrics;
      ParseLineObj(Written(r) + rest) == Some(LineObj(
        r.status, FromCode(r.link), r.modulation, PathOf(r.path), r.annex,
        LineMetrics(m[0], m[1], m[2], m[3], m[4], m[5], m[6], m[7], m[8], m[9], m[10], m[11]),
        r.atm != 0, r.mask, r.uptime))
  {
    hide Written, WordAt, De16;
    EndsAt(r, rest);
    forall k: nat | k < 12
      ensures WordAt(Written(r) + rest, 8 + 4 * k) == r.metrics[k]
    {
      MetricAt(r, rest, k);
    }
    assert forall k: nat :: k < 12 ==> WordAt(Written(r) + rest, 8 + 4 * k) == r.metrics[k];
  }

  /** Which codes mean what: 1 is up, 3 and 4 the two phases before it, 0 and 2 no signal; the others are kept. */
  lemma CodesRead(code: byte)
    ensures FromCode(code) == Up <==> code == 1
    ensures FromCode(code) == Initializing <==> code == 3
    ensures FromCode(code) == EstablishingLink <==> code == 4
    ensures FromCode(code) == NoSignal <==> code == 0 || code == 2
    ensures FromCode(code) == Unknown(code) <==> code > 4
    ensures PathOf(code) == AtmPath <==> code == 0
    ensures PathOf(code) == PtmPath <==> code == 1
    ensures PathOf(code) == UnknownPath(code) <==> code > 1
  {
  }
}
