/** The opcode-8 firmware upload as a state machine over the answers it gets. */
module Firmware {
  import opened Bytes
  import opened Options
  import opened Request

  const STAGE_ANNOUNCE: byte := 0
  const STAGE_STREAM: byte := 1
  const STAGE_VERIFY: byte := 2
  const STAGE_COMPLETE: byte := 3

  const CHUNK_SIZE: nat := 1024
  const CONTENT_START: nat := 0x100
  const MIN_IMAGE_SIZE: nat := 0x20_0000
  const MAX_IMAGE_SIZE: nat := 0x80_0000

  /** "2RDH" */
  function Magic2Rdh(): Bytes { [0x32, 0x52, 0x44, 0x48] }

  datatype ImageError = TooShort | NotFirmware | BadHeaderLen | TooSmall | TooLarge | LengthMismatch

  datatype Validation = Valid | Invalid(error: ImageError)

  function ValidateImage(data: Bytes): Validation
  {
    if |data| < 0x100 then Invalid(TooShort)
    else if data[..4] != Magic2Rdh() then Invalid(NotFirmware)
    else if De32(data[4..8]) != 0x100 then Invalid(BadHeaderLen)
    else if |data| < MIN_IMAGE_SIZE then Invalid(TooSmall)
    else if |data| > MAX_IMAGE_SIZE then Invalid(TooLarge)
    else if De32(data[8..12]) != |data| then Invalid(LengthMismatch)
    else Valid
  }

  // ── per-stage settings ───────────────────────────────────────────────

  function TimeoutOf(stage: byte): nat
  {
    if stage == STAGE_ANNOUNCE then 1500 else if stage == STAGE_STREAM then 300 else 60_000
  }

  function RetriesOf(stage: byte): byte
  {
    if stage == STAGE_ANNOUNCE then 5 else 20
  }

  // ── payloads ─────────────────────────────────────────────────────────

  function ContentLen(image: Bytes): nat
  {
    if |image| < CONTENT_START then 0 else |image| - CONTENT_START
  }

  /** The number of chunks, cut to 32 bits. */
  function TotalChunks(image: Bytes): u32
  {
    (ContentLen(image) + CHUNK_SIZE - 1) / CHUNK_SIZE % 0x1_0000_0000
  }

  lemma ChunkStart(image: Bytes, idx: nat)
    requires idx < TotalChunks(image)
    ensures CONTENT_START + idx * CHUNK_SIZE < |image|
  {
  }

  /** The bytes of chunk `idx`. */
  function Chunk(image: Bytes, idx: nat): (r: Bytes)
    requires idx < TotalChunks(image)
    ensures 0 < |r| <= CHUNK_SIZE
  {
    ChunkStart(image, idx);
    var offset := CONTENT_START + idx * CHUNK_SIZE;
    image[offset..Min(offset + CHUNK_SIZE, |image|)]
  }

  function AnnouncePayload(size: u32): Bytes { [STAGE_ANNOUNCE] + Be32(size) }

  function ChunkPayload(image: Bytes, idx: nat): Bytes
    requires idx < TotalChunks(image)
  {
    [STAGE_STREAM] + Be16(idx % 0x1_0000) + Chunk(image, idx)
  }

  // ── replies ──────────────────────────────────────────────────────────

  /** The opcode byte is dropped when the board echoes it. */
  function StripEcho(payload: Bytes, opcode: byte): Bytes
  {
    if payload != [] && payload[0] == opcode then payload[1..] else payload
  }

  /** The 32-bit field after the stage byte, when the reply is long enough to hold it. */
  function ReplyWord(reply: Bytes): Option<u32>
  {
    var data := StripEcho(reply, 8);
    if |data| >= 5 then Some(De32(data[1..5])) else None
  }

  function ReplyStatus(reply: Bytes): byte
  {
    var data := StripEcho(reply, 8);
    if |data| >= 6 then data[5] else 0
  }

  predicate Refused(reply: Bytes)
  {
    ReplyWord(reply).Some? && ReplyWord(reply).value != 0
  }

  // ── the state machine ────────────────────────────────────────────────

  datatype Progress = Progress(stage: byte, pct: byte)

  datatype Finish = Done(version: u32, status: byte) | Rejected | VerifyFailed | Broke(answer: Answer)

  datatype Phase = Announcing | Streaming(idx: u32, last: byte) | Verifying | Completing | Finished(finish: Finish)

  /** An ACK beyond the chunk just sent skips ahead; the index wraps at 32 bits. */
  function NextChunk(idx: u32, reply: Bytes): u32
  {
    var ack := ReplyWord(reply);
    ((if ack.Some? && ack.value > idx then ack.value else idx) + 1) % 0x1_0000_0000
  }

  /** The integer quotient, by repeated subtraction. */
  function Quotient(x: nat, d: nat): nat
    requires d > 0
  {
    if x < d then 0 else 1 + Quotient(x - d, d)
  }

  /** The percentage in 32-bit arithmetic, cut to 8 bits. */
  function Percent(idx: u32, total: u32): byte
  {
    Quotient(idx * 100 % 0x1_0000_0000, Max(total, 1)) % 0x100
  }

  predicate Reports(idx: u32, last: byte, total: u32)
  {
    Percent(idx, total) >= (last + 10) % 0x100 || idx == total
  }

  function StreamFrom(idx: u32, last: byte, total: u32): Phase
  {
    if idx < total then Streaming(idx, last) else Verifying
  }

  /** The phase after one answered request, and the progress reported. */
  function Advance(total: u32, p: Phase, a: Answer): (r: (Phase, seq<Progress>))
  {
    if p.Finished? then (p, [])
    else if !a.Ok? then (Finished(Broke(a)), [])
    else
      match p
      case Announcing =>
        if Refused(a.payload) then (Finished(Rejected), [])
        else (StreamFrom(0, 0, total), [Progress(STAGE_ANNOUNCE, 0)])
      case Streaming(idx, last) =>
        var next := NextChunk(idx, a.payload);
        if Reports(next, last, total) then
          (StreamFrom(next, Percent(next, total), total), [Progress(STAGE_STREAM, Percent(next, total))])
        else
          (StreamFrom(next, last, total), [])
      case Verifying =>
        if Refused(a.payload) then (Finished(VerifyFailed), [])
        else (Completing, [Progress(STAGE_VERIFY, 0)])
      case Completing =>
        var w := ReplyWord(a.payload);
        (Finished(Done(if w.Some? then w.value else 0, ReplyStatus(a.payload))), [Progress(STAGE_COMPLETE, 0)])
  }

  function PhaseAfter(total: u32, answers: seq<Answer>): Phase
  {
    if answers == [] then Announcing
    else
      var n := |answers| - 1;
      Advance(total, PhaseAfter(total, answers[..n]), answers[n]).0
  }

  function ReportsAfter(total: u32, answers: seq<Answer>): seq<Progress>
  {
    if answers == [] then []
    else
      var n := |answers| - 1;
      ReportsAfter(total, answers[..n]) + Advance(total, PhaseAfter(total, answers[..n]), answers[n]).1
  }

  predicate InRange(total: u32, p: Phase)
  {
    p.Streaming? ==> p.idx < total
  }

  lemma PhaseInRange(total: u32, answers: seq<Answer>)
    ensures InRange(total, PhaseAfter(total, answers))
  {
  }

  /** The stage a phase belongs to, and the first payload byte sent in it. */
  function Stage(p: Phase): byte
  {
    match p
    case Announcing => STAGE_ANNOUNCE
    case Streaming(_, _) => STAGE_STREAM
    case Verifying => STAGE_VERIFY
    case Completing => STAGE_COMPLETE
    case Finished(_) => 4
  }

  /** The payload of the request made in phase `p`. */
  function PayloadIn(image: Bytes, p: Phase): (r: Bytes)
    requires !p.Finished? && InRange(TotalChunks(image), p)
    ensures r != [] && r[0] == Stage(p)
  {
    match p
    case Announcing => AnnouncePayload(|image| % 0x1_0000_0000)
    case Streaming(idx, _) => ChunkPayload(image, idx)
    case Verifying => [STAGE_VERIFY]
    case Completing => [STAGE_COMPLETE]
  }

  /** Request number `i` of the upload with these answers. */
  function PayloadAt(image: Bytes, answers: seq<Answer>, i: nat): Bytes
    requires i <= |answers| && !PhaseAfter(TotalChunks(image), answers[..i]).Finished?
  {
    PhaseInRange(TotalChunks(image), answers[..i]);
    PayloadIn(image, PhaseAfter(TotalChunks(image), answers[..i]))
  }

  /** Every answer belongs to a request that was made. */
  ghost predicate AllAsked(total: u32, answers: seq<Answer>)
  {
    forall i :: 0 <= i < |answers| ==> !PhaseAfter(total, answers[..i]).Finished?
  }

  // ── stages ───────────────────────────────────────────────────────────

  /** 0, then 1 `n` times, then 2, 3. */
  function StageOf(i: nat, n: nat): byte
  {
    if i == 0 then 0 else if i <= n then 1 else if i == n + 1 then 2 else if i == n + 2 then 3 else 4
  }

  predicate StageFits(i: nat, n: nat, p: Phase) { p.Finished? || Stage(p) == StageOf(i, n) }

  ghost predicate StagesFollow(total: u32, answers: seq<Answer>, n: nat)
  {
    forall i :: 0 <= i <= |answers| ==> StageFits(i, n, PhaseAfter(total, answers[..i]))
  }

  lemma StageStep(total: u32, p: Phase, a: Answer)
    requires !p.Finished?
    ensures
      var q := Advance(total, p, a).0;
      q.Finished? || Stage(q) == Stage(p) + 1 || (q.Streaming? && p.Streaming?) || (q.Verifying? && p.Announcing?)
  {
    hide NextChunk, Percent, Reports, Refused;
  }

  lemma PhaseLast(total: u32, prior: seq<Answer>, a: Answer)
    ensures PhaseAfter(total, prior + [a]) == Advance(total, PhaseAfter(total, prior), a).0
    ensures ReportsAfter(total, prior + [a]) == ReportsAfter(total, prior) + Advance(total, PhaseAfter(total, prior), a).1
  {
    hide Advance;
    assert (prior + [a])[..|prior|] == prior;
  }

  /** What is known after `k` answers when `n` chunks have been asked for. */
  predicate StageKnown(k: nat, n: nat, p: Phase)
  {
    StageFits(k, n, p) && (p.Streaming? ==> k == n) && (p.Announcing? ==> k == n == 0)
  }

  lemma StageKnownStep(k: nat, n: nat, p: Phase, q: Phase) returns (m: nat)
    requires !p.Finished? && StageKnown(k, n, p)
    requires q.Finished? || Stage(q) == Stage(p) + 1 || (q.Streaming? && p.Streaming?) || (q.Verifying? && p.Announcing?)
    ensures StageKnown(k + 1, m, q)
    ensures forall i: nat, r: Phase :: i <= k && StageFits(i, n, r) ==> StageFits(i, m, r)
  {
    m := if q.Streaming? then k + 1 else n;
  }

  /** `n` counts the streaming phases up to the current one. */
  lemma {:induction false} StageRun(total: u32, answers: seq<Answer>) returns (n: nat)
    requires AllAsked(total, answers)
    ensures StagesFollow(total, answers, n)
    ensures StageKnown(|answers|, n, PhaseAfter(total, answers))
  {
    hide PhaseAfter, Advance, Stage, StageOf, StageKnown, StageFits;
    if answers == [] {
      n := 0;
      NothingKnown(total);
    } else {
      var k := |answers| - 1;
      var prior := answers[..k];
      assert forall i :: 0 <= i <= k ==> prior[..i] == answers[..i];
      var before := StageRun(total, prior);
      assert prior + [answers[k]] == answers && answers[..k + 1] == answers;
      PhaseLast(total, prior, answers[k]);
      StageStep(total, PhaseAfter(total, prior), answers[k]);
      n := StageKnownStep(k, before, PhaseAfter(total, prior), PhaseAfter(total, answers));
      KnownFits(k + 1, n, PhaseAfter(total, answers));
    }
  }

  lemma NothingKnown(total: u32)
    ensures StageKnown(0, 0, PhaseAfter(total, [])) && StageFits(0, 0, PhaseAfter(total, []))
  {
  }

  lemma KnownFits(k: nat, n: nat, p: Phase)
    requires StageKnown(k, n, p)
    ensures StageFits(k, n, p)
  {
  }

  /** The stages sent are a prefix of 0, 1*, 2, 3, whatever the answers are. */
  lemma StagesInOrder(image: Bytes, answers: seq<Answer>) returns (n: nat)
    requires AllAsked(TotalChunks(image), answers)
    ensures forall i :: 0 <= i <= |answers| && !PhaseAfter(TotalChunks(image), answers[..i]).Finished? ==>
      PayloadAt(image, answers, i)[0] == StageOf(i, n) < 4
  {
    hide PayloadIn, PhaseAfter, TotalChunks;
    n := StageRun(TotalChunks(image), answers);
    forall i | 0 <= i <= |answers| && !PhaseAfter(TotalChunks(image), answers[..i]).Finished?
      ensures PayloadAt(image, answers, i)[0] == StageOf(i, n) < 4
    {
      PhaseInRange(TotalChunks(image), answers[..i]);
    }
  }
}
