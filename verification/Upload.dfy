/** What the upload sends and reports, over every sequence of answers. */
module Upload {
  import opened Bytes
  import opened Options
  import opened Request
  import opened Firmware
  import Frame

  const WRAPPING_ACK: u32 := 0xFFFF_FFFF

  /** The sizes an accepted image can have. */
  /** 2 to 8 MB. */
  predicate InSize(image: Bytes) { 2 * 1024 * 1024 <= |image| <= 8 * 1024 * 1024 }

  /** Accepted images are of such a size. */
  lemma ValidSize(image: Bytes)
    requires ValidateImage(image).Valid?
    ensures InSize(image)
  {
    hide De32, Magic2Rdh;
  }

  /** Then the 32-bit arithmetic gives the number of chunks without loss. */
  lemma ChunkCount(image: Bytes)
    requires InSize(image)
    ensures 2048 <= TotalChunks(image) <= 8192
    ensures TotalChunks(image) == (|image| - 256 + 1023) / 1024
  {
  }

  /** An image is accepted exactly if its size is in range and its first twelve bytes are magic, header length and that size. */
  lemma ValidImageIs(data: Bytes)
    ensures ValidateImage(data).Valid? <==>
      && 2 * 1024 * 1024 <= |data| <= 8 * 1024 * 1024
      && data[..12] == ['2' as byte, 'R' as byte, 'D' as byte, 'H' as byte] + [0, 0, 1, 0] + Be32(|data|)
  {
    assert Be32(0x100) == [0, 0, 1, 0] && Magic2Rdh() == ['2' as byte, 'R' as byte, 'D' as byte, 'H' as byte];
    hide Be32, De32, Magic2Rdh;
    if 12 <= |data| <= MAX_IMAGE_SIZE {
      De32Be32(0x100);
      De32Be32(|data|);
      Be32De32(data[4..8]);
      Be32De32(data[8..12]);
      MagicLength();
      ThreeWords(data, Magic2Rdh(), Be32(0x100), Be32(|data|));
    }
  }

  /** Why an image is not accepted: the first of these that applies. */
  lemma ImageFaults(data: Bytes)
    ensures
      var v := ValidateImage(data);
      && (v == Invalid(TooShort) <==> |data| < 256)
      && (v == Invalid(NotFirmware) <==> |data| >= 256 && data[..4] != [0x32, 0x52, 0x44, 0x48])
      && (|data| >= 256 && data[..4] == [0x32, 0x52, 0x44, 0x48] ==>
            && (v == Invalid(BadHeaderLen) <==> De32(data[4..8]) != 256)
            && (v == Invalid(TooSmall) <==> De32(data[4..8]) == 256 && |data| < 2 * 1024 * 1024)
            && (v == Invalid(TooLarge) <==> De32(data[4..8]) == 256 && |data| > 8 * 1024 * 1024))
      && (v == Invalid(LengthMismatch) ==> De32(data[8..12]) != |data|)
  {
    hide De32;
  }

  lemma ThreeWords(d: Bytes, a: Bytes, b: Bytes, c: Bytes)
    requires |d| >= 12 && |a| == |b| == |c| == 4
    ensures d[..12] == a + b + c <==> d[..4] == a && d[4..8] == b && d[8..12] == c
  {
    assert d[..12] == d[..4] + d[4..8] + d[8..12];
    var t := a + b + c;
    assert t[..4] == a && t[4..8] == b && t[8..12] == c;
    assert d[..12][..4] == d[..4] && d[..12][4..8] == d[4..8] && d[..12][8..12] == d[8..12];
  }

  lemma MagicLength()
    ensures |Magic2Rdh()| == 4
  {
  }

  lemma PhaseNext(total: u32, answers: seq<Answer>, i: nat)
    requires i < |answers|
    ensures PhaseAfter(total, answers[..i + 1]) == Advance(total, PhaseAfter(total, answers[..i]), answers[i]).0
    ensures ReportsAfter(total, answers[..i + 1])
         == ReportsAfter(total, answers[..i]) + Advance(total, PhaseAfter(total, answers[..i]), answers[i]).1
  {
    hide Advance, PhaseAfter, ReportsAfter;
    assert answers[..i + 1] == answers[..i] + [answers[i]];
    PhaseLast(total, answers[..i], answers[i]);
  }

  // ── increasing indices ───────────────────────────────────────────────

  /** Between neighbouring chunk requests the index grows. */
  ghost predicate IndexGrows(total: u32, answers: seq<Answer>, i: nat)
    requires i < |answers|
  {
    var p, q := PhaseAfter(total, answers[..i]), PhaseAfter(total, answers[..i + 1]);
    p.Streaming? && q.Streaming? ==> p.idx < q.idx
  }

  /** Answer `i` acknowledges the largest 32-bit index. */
  ghost predicate AcksLargest(total: u32, answers: seq<Answer>, i: nat)
    requires i < |answers|
  {
    PhaseAfter(total, answers[..i]).Streaming? && answers[i].Ok? && ReplyWord(answers[i].payload) == Some(WRAPPING_ACK)
  }

  lemma NextGrows(idx: u32, reply: Bytes)
    requires idx < 8192
    ensures idx < NextChunk(idx, reply) <==> ReplyWord(reply) != Some(WRAPPING_ACK)
    ensures ReplyWord(reply) == Some(WRAPPING_ACK) ==> NextChunk(idx, reply) == 0
  {
    hide ReplyWord;
  }

  /** One step goes back exactly when its ACK makes the 32-bit index wrap. */
  lemma GrowsUnlessWrapped(total: u32, answers: seq<Answer>, i: nat)
    requires total <= 8192 && i < |answers|
    ensures IndexGrows(total, answers, i) <==> !AcksLargest(total, answers, i)
  {
    PhaseNext(total, answers, i);
    PhaseInRange(total, answers[..i]);
    hide PhaseAfter, ReplyWord, Reports, Percent, ReplyStatus, NextChunk, ReportsAfter;
    var p := PhaseAfter(total, answers[..i]);
    if p.Streaming? && answers[i].Ok? {
      NextGrows(p.idx, answers[i].payload);
    }
  }

  /** The chunk indices strictly increase if and only if no ACK names index 2^32 - 1. */
  lemma IndicesIncrease(image: Bytes, answers: seq<Answer>)
    requires InSize(image)
    ensures
      var total := TotalChunks(image);
      (forall i :: 0 <= i < |answers| ==> IndexGrows(total, answers, i)) <==>
      (forall i :: 0 <= i < |answers| ==> !AcksLargest(total, answers, i))
  {
    hide IndexGrows, AcksLargest, TotalChunks;
    var total := TotalChunks(image);
    ChunkCount(image);
    forall i | 0 <= i < |answers|
      ensures IndexGrows(total, answers, i) <==> !AcksLargest(total, answers, i)
    {
      GrowsUnlessWrapped(total, answers, i);
    }
  }

  /** Such an ACK for the very first chunk makes the upload start again. */
  lemma LargestAckRestarts(image: Bytes)
    requires InSize(image)
    ensures
      var total := TotalChunks(image);
      var answers := [Ok([]), Ok([1, 255, 255, 255, 255])];
      && AcksLargest(total, answers, 1) && !IndexGrows(total, answers, 1)
      && PhaseAfter(total, answers) == Streaming(0, 0)
  {
    hide TotalChunks, Advance, ReplyWord;
    ChunkCount(image);
    var total := TotalChunks(image);
    var answers := [Ok([]), Ok([1, 255, 255, 255, 255])];
    AllOnes();
    assert answers[..0] == [] && answers[..1] == [Ok([])] && answers[..2] == answers;
    Begins(total);
    BeginsAgain(total);
    PhaseNext(total, answers, 0);
    PhaseNext(total, answers, 1);
  }

  lemma Begins(total: u32)
    requires total > 0
    ensures Advance(total, Announcing, Ok([])).0 == Streaming(0, 0)
  {
    hide Percent, De32, Reports;
  }

  lemma BeginsAgain(total: u32)
    requires 0 < total < WRAPPING_ACK
    ensures Advance(total, Streaming(0, 0), Ok([1, 255, 255, 255, 255])).0 == Streaming(0, 0)
  {
    hide Percent, ReplyWord;
    AllOnes();
    PercentZero(total);
  }

  lemma AllOnes()
    ensures ReplyWord([1, 255, 255, 255, 255]) == Some(WRAPPING_ACK)
  {
    FourBytes([255, 255, 255, 255]);
    assert [1, 255, 255, 255, 255][1..5] == [255, 255, 255, 255];
  }

  lemma PercentZero(total: u32)
    ensures Percent(0, total) == 0
  {
  }

  // ── uploads that ask for every chunk in turn ─────────────────────────

  /** Answer `i` acknowledges beyond its chunk, while chunks are still to come. */
  ghost predicate RunsAhead(total: u32, answers: seq<Answer>, i: nat)
    requires i < |answers|
  {
    var p := PhaseAfter(total, answers[..i]);
    p.Streaming? && p.idx + 1 < total && answers[i].Ok? && Beyond(p.idx, answers[i].payload)
  }

  predicate Beyond(idx: u32, reply: Bytes) { ReplyWord(reply).Some? && ReplyWord(reply).value > idx }

  /** No answer runs ahead, and none makes the index wrap. */
  ghost predicate InStep(total: u32, answers: seq<Answer>)
  {
    forall i :: 0 <= i < |answers| ==> !RunsAhead(total, answers, i) && !AcksLargest(total, answers, i)
  }

  /** The first `k` streaming reports: 10, 20, ... percent. */
  function Tens(k: nat): (r: seq<Progress>)
    requires k <= 10
    ensures |r| == k
  {
    seq(k, j requires 0 <= j < k => Progress(STAGE_STREAM, 10 * (j + 1)))
  }

  /** Whole tens of percent done after `idx` of `total` chunks. */
  function TensDone(idx: nat, total: nat): nat
    requires total > 0
  {
    Quotient(idx * 100, total) / 10
  }

  lemma {:induction false} QuotientIs(x: nat, d: nat)
    requires d > 0
    ensures Quotient(x, d) == x / d
  {
    if x >= d {
      QuotientIs(x - d, d);
      OneMore(x, d);
    } else {
      DivBelow(x, d, 1);
    }
  }

  lemma OneMore(x: nat, d: nat)
    requires 0 < d <= x
    ensures x / d == 1 + (x - d) / d
  {
    var q := (x - d) / d;
    Between(x - d, d);
    assert (1 + q) * d == q * d + d && (q + 2) * d == q * d + d + d;
    DivAbove(x, d, 1 + q);
    DivBelow(x, d, q + 2);
  }

  lemma PercentStep(idx: nat, total: nat)
    requires 100 <= total && idx < total
    ensures Quotient(idx * 100, total) <= Quotient((idx + 1) * 100, total) <= Quotient(idx * 100, total) + 1
    ensures Quotient(idx * 100, total) < 100
    ensures Quotient((idx + 1) * 100, total) == 100 <==> idx + 1 == total
    ensures Quotient((idx + 1) * 100, total) <= 100
  {
    hide Quotient;
    var a, q := idx * 100, idx * 100 / total;
    var next := a + 100;
    QuotientIs(a, total);
    QuotientIs(next, total);
    Between(a, total);
    assert next == (idx + 1) * 100;
    DivBelow(next, total, q + 2) by { assert (q + 2) * total == q * total + total + total; }
    DivAbove(next, total, q);
    DivBelow(a, total, 100);
    if idx + 1 == total {
      DivAbove(next, total, 100);
      DivBelow(next, total, 101);
    } else {
      DivBelow(next, total, 100);
    }
  }

  lemma Between(a: nat, d: nat)
    requires d > 0
    ensures a / d * d <= a < a / d * d + d
  {
  }

  lemma TimesMonotone(a: nat, b: nat, d: nat)
    ensures a <= b ==> a * d <= b * d
  {
  }

  lemma DivBelow(x: nat, d: nat, q: nat)
    requires d > 0 && x < q * d
    ensures x / d < q
  {
    TimesMonotone(q, x / d, d);
  }

  lemma DivAbove(x: nat, d: nat, q: nat)
    requires d > 0 && x >= q * d
    ensures x / d >= q
  {
    TimesMonotone(x / d + 1, q, d);
  }

  /** The reports when the last chunk has been acknowledged. */
  function Closing(total: u32, reply: Bytes): seq<Progress>
    requires total > 0
  {
    var next := NextChunk(total - 1, reply);
    if Reports(next, 90, total) then [Progress(STAGE_STREAM, Percent(next, total))] else []
  }

  /** `closing` is what the answer to the last chunk, once it is there, makes the reports. */
  ghost predicate Closes(total: u32, answers: seq<Answer>, closing: seq<Progress>)
    requires total > 0
  {
    |answers| > total && answers[total].Ok? ==> closing == Closing(total, answers[total].payload)
  }

  function Streamed(closing: seq<Progress>): seq<Progress> { [Progress(STAGE_ANNOUNCE, 0)] + Tens(9) + closing }

  /** The state of an upload that is going well after `k` answers. */
  ghost predicate OnTrack(total: u32, k: nat, p: Phase, reports: seq<Progress>, closing: seq<Progress>)
    requires total > 0
  {
    match p
    case Announcing => k == 0 && reports == []
    case Streaming(idx, last) =>
      && k == idx + 1 && idx < total
      && TensDone(idx, total) < 10 && last == 10 * TensDone(idx, total)
      && reports == [Progress(STAGE_ANNOUNCE, 0)] + Tens(TensDone(idx, total))
    case Verifying => k == total + 1 && reports == Streamed(closing)
    case Completing => k == total + 2 && reports == Streamed(closing) + [Progress(STAGE_VERIFY, 0)]
    case Finished(f) =>
      f.Done? ==>
        k == total + 3 && reports == Streamed(closing) + [Progress(STAGE_VERIFY, 0), Progress(STAGE_COMPLETE, 0)]
  }

  /** Nothing wraps, and reaching the next ten percent is what makes a report due. */
  lemma ReportDue(idx: nat, last: byte, total: u32)
    requires 100 <= total <= 8192 && idx < total
    requires TensDone(idx, total) < 10 && last == 10 * TensDone(idx, total)
    ensures Percent(idx + 1, total) == (idx + 1) * 100 / total
    ensures TensDone(idx + 1, total) == TensDone(idx, total) + if Reports(idx + 1, last, total) then 1 else 0
    ensures Reports(idx + 1, last, total) ==> Percent(idx + 1, total) == 10 * (TensDone(idx, total) + 1)
    ensures TensDone(idx + 1, total) == 10 <==> idx + 1 == total
  {
    hide Quotient;
    PercentStep(idx, total);
    QuotientIs((idx + 1) * 100, total);
  }

  lemma NextInOrder(idx: u32, reply: Bytes)
    requires idx < 8192
    ensures NextChunk(idx, reply) == idx + 1 <==> !Beyond(idx, reply)
    ensures ReplyWord(reply) != Some(WRAPPING_ACK) ==> NextChunk(idx, reply) > idx
    ensures ReplyWord(reply) == Some(WRAPPING_ACK) ==> NextChunk(idx, reply) == 0 && Beyond(idx, reply)
  {
    hide ReplyWord;
  }

  /** One chunk before the last, not acknowledged ahead. */
  lemma StreamStep(total: u32, idx: u32, last: byte, reports: seq<Progress>, closing: seq<Progress>, reply: Bytes)
    requires 100 <= total <= 8192 && OnTrack(total, idx + 1, Streaming(idx, last), reports, closing)
    requires idx + 1 < total && !Beyond(idx, reply)
    ensures
      var next := Advance(total, Streaming(idx, last), Ok(reply));
      OnTrack(total, idx + 2, next.0, reports + next.1, closing)
  {
    hide ReplyWord, Refused, ReplyStatus, NextChunk, TensDone, Percent, Reports, Beyond;
    ReportDue(idx, last, total);
    NextInOrder(idx, reply);
    var t := TensDone(idx, total);
    var next := Advance(total, Streaming(idx, last), Ok(reply));
    if Reports(idx + 1, last, total) {
      assert Tens(t + 1) == Tens(t) + [Progress(STAGE_STREAM, 10 * (t + 1))];
      assert reports + next.1 == [Progress(STAGE_ANNOUNCE, 0)] + Tens(t + 1);
    } else {
      assert reports + next.1 == reports;
    }
  }

  /** The last chunk; an ACK beyond it changes no more than the percentage. */
  lemma LastStep(total: u32, last: byte, reports: seq<Progress>, closing: seq<Progress>, reply: Bytes)
    requires 100 <= total <= 8192 && OnTrack(total, total, Streaming(total - 1, last), reports, closing)
    requires ReplyWord(reply) != Some(WRAPPING_ACK) && closing == Closing(total, reply)
    ensures
      var next := Advance(total, Streaming(total - 1, last), Ok(reply));
      OnTrack(total, total + 1, next.0, reports + next.1, closing)
  {
    hide ReplyWord, Refused, ReplyStatus, NextChunk, TensDone, Percent, Reports, Beyond, Tens;
    ReportDue(total - 1, last, total);
    NextInOrder(total - 1, reply);
    assert TensDone(total - 1, total) == 9;
    var next := Advance(total, Streaming(total - 1, last), Ok(reply));
    assert next.1 == closing;
  }

  /** What holds of a run of answers holds of its beginnings. */
  lemma PrefixRun(total: u32, answers: seq<Answer>, k: nat)
    requires k <= |answers|
    ensures AllAsked(total, answers) ==> AllAsked(total, answers[..k])
    ensures InStep(total, answers) ==> InStep(total, answers[..k])
    ensures forall i :: 0 <= i <= k ==> answers[..k][..i] == answers[..i]
    ensures answers == answers[..k] + answers[k..]
  {
    hide PhaseAfter, ReplyWord, Beyond;
    assert forall i :: 0 <= i <= k ==> answers[..k][..i] == answers[..i];
    forall i | 0 <= i < k
      ensures RunsAhead(total, answers[..k], i) <==> RunsAhead(total, answers, i)
      ensures AcksLargest(total, answers[..k], i) <==> AcksLargest(total, answers, i)
    {
    }
  }

  lemma {:induction false} GoesWell(total: u32, answers: seq<Answer>, closing: seq<Progress>)
    requires 100 <= total <= 8192 && AllAsked(total, answers) && InStep(total, answers) && Closes(total, answers, closing)
    ensures OnTrack(total, |answers|, PhaseAfter(total, answers), ReportsAfter(total, answers), closing)
  {
    if answers == [] {
    } else {
      hide ReplyWord, Refused, Tens, ReplyStatus, Closing, RunsAhead, AcksLargest;
      var k := |answers| - 1;
      var prior := answers[..k];
      PrefixRun(total, answers, k);
      assert prior + [answers[k]] == answers;
      GoesWell(total, prior, closing);
      PhaseLast(total, prior, answers[k]);
      var p := PhaseAfter(total, prior);
      hide PhaseAfter, ReportsAfter;
      if p.Streaming? && answers[k].Ok? {
        ChunkStep(total, answers, p, ReportsAfter(total, prior), closing);
      } else {
        TrackStep(total, k, p, ReportsAfter(total, prior), closing, answers[k]);
      }
    }
  }

  lemma ChunkStep(total: u32, answers: seq<Answer>, p: Phase, reports: seq<Progress>, closing: seq<Progress>)
    requires 100 <= total <= 8192 && answers != [] && Closes(total, answers, closing)
    requires
      var k := |answers| - 1;
      && p == PhaseAfter(total, answers[..k]) && p.Streaming? && answers[k].Ok? && OnTrack(total, k, p, reports, closing)
      && !RunsAhead(total, answers, k) && !AcksLargest(total, answers, k)
    ensures
      var k := |answers| - 1;
      var next := Advance(total, p, answers[k]);
      OnTrack(total, k + 1, next.0, reports + next.1, closing)
  {
    hide PhaseAfter, ReplyWord, Advance, Closing, Tens, TensDone, Beyond;
    var k := |answers| - 1;
    if p.idx + 1 < total {
      StreamStep(total, p.idx, p.last, reports, closing, answers[k].payload);
    } else {
      LastStep(total, p.last, reports, closing, answers[k].payload);
    }
  }

  /** The steps outside the stream. */
  lemma TrackStep(total: u32, k: nat, p: Phase, reports: seq<Progress>, closing: seq<Progress>, a: Answer)
    requires 0 < total && OnTrack(total, k, p, reports, closing) && !p.Finished? && (p.Streaming? ==> !a.Ok?)
    ensures OnTrack(total, k + 1, Advance(total, p, a).0, reports + Advance(total, p, a).1, closing)
  {
    hide ReplyWord, Refused, ReplyStatus, Streamed;
    assert Tens(0) == [];
    assert TensDone(0, total) == 0;
    assert Streamed(closing) + [Progress(STAGE_VERIFY, 0)] + [Progress(STAGE_COMPLETE, 0)]
        == Streamed(closing) + [Progress(STAGE_VERIFY, 0), Progress(STAGE_COMPLETE, 0)];
  }

  /** Request `i` of an upload that goes well. */
  function PlannedPayload(image: Bytes, i: nat): Bytes
    requires InSize(image)
  {
    ChunkCount(image);
    var total := (|image| - 256 + 1023) / 1024;
    if i == 0 then AnnouncePayload(|image|)
    else if i <= total then [STAGE_STREAM] + Be16(i - 1) + Chunk(image, i - 1)
    else if i == total + 1 then [STAGE_VERIFY]
    else [STAGE_COMPLETE]
  }

  lemma OnTrackPayload(image: Bytes, k: nat, p: Phase, reports: seq<Progress>, closing: seq<Progress>)
    requires InSize(image) && TotalChunks(image) > 0
    requires OnTrack(TotalChunks(image), k, p, reports, closing) && !p.Finished?
    ensures InRange(TotalChunks(image), p) && PayloadIn(image, p) == PlannedPayload(image, k)
    ensures k <= (|image| - 256 + 1023) / 1024 + 2
  {
    hide TotalChunks, Chunk, Tens, TensDone, Be16, Be32, Streamed;
    ChunkCount(image);
  }

  /** Request `i` is the planned one. */
  ghost predicate AsPlanned(image: Bytes, answers: seq<Answer>, i: nat)
    requires InSize(image) && i <= |answers|
  {
    !PhaseAfter(TotalChunks(image), answers[..i]).Finished? ==> PayloadAt(image, answers, i) == PlannedPayload(image, i)
  }

  /** In step, every request is as planned. */
  lemma PlanKept(image: Bytes, answers: seq<Answer>, i: nat)
    requires InSize(image) && AllAsked(TotalChunks(image), answers) && InStep(TotalChunks(image), answers)
    requires i <= |answers|
    ensures AsPlanned(image, answers, i)
    ensures !PhaseAfter(TotalChunks(image), answers[..i]).Finished? ==> i <= (|image| - 256 + 1023) / 1024 + 2
  {
    hide PhaseAfter, TotalChunks, PlannedPayload, ReportsAfter, OnTrack, PayloadIn, AllAsked, InStep, Closing;
    var total := TotalChunks(image);
    ChunkCount(image);
    PrefixRun(total, answers, i);
    var prior := answers[..i];
    var closing := if |prior| > total && prior[total].Ok? then Closing(total, prior[total].payload) else [];
    GoesWell(total, prior, closing);
    if !PhaseAfter(total, prior).Finished? {
      OnTrackPayload(image, i, PhaseAfter(total, prior), ReportsAfter(total, prior), closing);
    }
  }

  lemma IndexRead(stage: byte, idx: u16, data: Bytes)
    ensures
      var p := [stage] + Be16(idx) + data;
      De16(p[1], p[2]) == idx && p[3..] == data
  {
    De16Be16(idx);
    hide Be16, De16;
    var p := [stage] + Be16(idx) + data;
    assert p[1] == Be16(idx)[0] && p[2] == Be16(idx)[1];
  }

  lemma DistinctChunks(image: Bytes, a: nat, b: nat)
    requires InSize(image) && a < TotalChunks(image) && b < TotalChunks(image)
    ensures ChunkPayload(image, a) == ChunkPayload(image, b) ==> a == b
  {
    ChunkCount(image);
    hide TotalChunks, Chunk, Be16, De16, InSize;
    assert a % 0x1_0000 == a && b % 0x1_0000 == b;
    IndexRead(STAGE_STREAM, a, Chunk(image, a));
    IndexRead(STAGE_STREAM, b, Chunk(image, b));
  }

  lemma PlannedChunk(image: Bytes, j: nat)
    requires InSize(image) && j < TotalChunks(image)
    ensures PlannedPayload(image, j + 1) == ChunkPayload(image, j)
  {
    ChunkCount(image);
    hide TotalChunks, Chunk, Be16;
  }

  lemma PlannedStage(image: Bytes, i: nat)
    requires InSize(image)
    ensures PlannedPayload(image, i) != []
    ensures PlannedPayload(image, i)[0] == STAGE_STREAM <==> 0 < i <= TotalChunks(image)
  {
    ChunkCount(image);
    hide TotalChunks, Chunk, Be16, Be32;
  }

  /** After an answer out of step the next request is another one. */
  lemma PlanLeft(image: Bytes, answers: seq<Answer>, i: nat)
    requires InSize(image) && i < |answers| && AsPlanned(image, answers, i)
    requires RunsAhead(TotalChunks(image), answers, i) || AcksLargest(TotalChunks(image), answers, i)
    ensures !AsPlanned(image, answers, i + 1)
  {
    hide PhaseAfter, TotalChunks, PlannedPayload, ChunkPayload, ReplyWord, Percent, Reports, NextChunk, Beyond;
    var total := TotalChunks(image);
    ChunkCount(image);
    PhaseNext(total, answers, i);
    PhaseInRange(total, answers[..i]);
    PhaseInRange(total, answers[..i + 1]);
    var p := PhaseAfter(total, answers[..i]);
    PlannedStage(image, i);
    PlannedChunk(image, i - 1);
    DistinctChunks(image, p.idx, i - 1);
    NextInOrder(p.idx, answers[i].payload);
    LargestBeyond(p.idx, answers[i].payload);
    PlannedStage(image, i + 1);
    var q := PhaseAfter(total, answers[..i + 1]);
    if p.idx + 1 < total {
      PlannedChunk(image, p.idx + 1);
      if q.Streaming? {
        DistinctChunks(image, q.idx, p.idx + 1);
      }
    }
  }

  lemma LargestBeyond(idx: u32, reply: Bytes)
    requires idx < 8192
    ensures ReplyWord(reply) == Some(WRAPPING_ACK) ==> Beyond(idx, reply)
  {
    hide ReplyWord;
  }

  /** The stream asks for chunks 0, 1, ... in order, one request each, and no index is cut to 16 bits, if and only if
      no answer runs ahead or makes the index wrap. */
  lemma ChunksInOrder(image: Bytes, answers: seq<Answer>)
    requires InSize(image) && AllAsked(TotalChunks(image), answers)
    ensures InStep(TotalChunks(image), answers) <==> forall i :: 0 <= i <= |answers| ==> AsPlanned(image, answers, i)
  {
    hide AsPlanned, TotalChunks, RunsAhead, AcksLargest, AllAsked;
    var total := TotalChunks(image);
    if InStep(total, answers) {
      forall i | 0 <= i <= |answers|
        ensures AsPlanned(image, answers, i)
      {
        PlanKept(image, answers, i);
      }
    } else {
      var i :| 0 <= i < |answers| && (RunsAhead(total, answers, i) || AcksLargest(total, answers, i));
      if AsPlanned(image, answers, i) {
        PlanLeft(image, answers, i);
      }
    }
  }

  /** The first request of every upload: a zero byte and the image's size, high byte first. */
  lemma SizeAnnounced(image: Bytes, answers: seq<Answer>)
    requires |image| < 0x1_0000_0000
    ensures PhaseAfter(TotalChunks(image), answers[..0]) == Announcing
    ensures
      var p := PayloadAt(image, answers, 0);
      |p| == 5 && p[0] == 0 && De32(p[1..5]) == |image|
  {
    De32Be32(|image|);
    hide Be32, De32, TotalChunks;
    assert PayloadAt(image, answers, 0)[1..5] == Be32(|image|);
  }

  /** The thirteen reports 0, then 10%, ..., 100%, then 2, 3. */
  predicate AllThirteen(reports: seq<Progress>)
  {
    && |reports| == 13 && reports[0] == Progress(STAGE_ANNOUNCE, 0)
    && (forall j :: 1 <= j <= 10 ==> reports[j] == Progress(STAGE_STREAM, 10 * j))
    && reports[11] == Progress(STAGE_VERIFY, 0) && reports[12] == Progress(STAGE_COMPLETE, 0)
  }

  /** A finished upload in step made total + 3 requests, and its reports are the thirteen exactly if the answer to the
      last chunk makes 100%, as it does unless it acknowledges beyond that chunk. */
  lemma FinishedReports(image: Bytes, answers: seq<Answer>)
    requires InSize(image) && AllAsked(TotalChunks(image), answers) && InStep(TotalChunks(image), answers)
    requires PhaseAfter(TotalChunks(image), answers).Finished? && PhaseAfter(TotalChunks(image), answers).finish.Done?
    ensures |answers| == (|image| - 256 + 1023) / 1024 + 3
    ensures
      var total := TotalChunks(image);
      && total < |answers| && answers[total].Ok?
      && (AllThirteen(ReportsAfter(total, answers)) <==> Percent(NextChunk(total - 1, answers[total].payload), total) == 100)
      && (!Beyond(total - 1, answers[total].payload) ==> AllThirteen(ReportsAfter(total, answers)))
  {
    hide TotalChunks, PhaseAfter, ReportsAfter, AllAsked, InStep, Closing, Percent, NextChunk, Beyond;
    ChunkCount(image);
    var total := TotalChunks(image);
    var closing := if |answers| > total && answers[total].Ok? then Closing(total, answers[total].payload) else [];
    GoesWell(total, answers, closing);
    DoneIsOk(total, answers, total);
    ClosingIs(total, answers[total].payload);
    ThirteenIff(ReportsAfter(total, answers), closing);
  }

  lemma DoneIsOk(total: u32, answers: seq<Answer>, i: nat)
    requires AllAsked(total, answers) && i < |answers|
    requires PhaseAfter(total, answers).Finished? && PhaseAfter(total, answers).finish.Done?
    ensures answers[i].Ok?
  {
    hide PhaseAfter, ReplyWord, Refused, ReplyStatus, NextChunk, Percent, Reports;
    PhaseNext(total, answers, i);
    if i + 1 == |answers| {
      assert answers[..i + 1] == answers;
    }
  }

  lemma ClosingIs(total: u32, reply: Bytes)
    requires 100 <= total <= 8192
    ensures Closing(total, reply) == [Progress(STAGE_STREAM, 100)] <==> Percent(NextChunk(total - 1, reply), total) == 100
    ensures !Beyond(total - 1, reply) ==> Percent(NextChunk(total - 1, reply), total) == 100
    ensures |Closing(total, reply)| <= 1 && forall p :: p in Closing(total, reply) ==> p.stage == STAGE_STREAM
  {
    hide Quotient, NextChunk, Beyond;
    NextInOrder(total - 1, reply);
    PercentStep(total - 1, total);
  }

  lemma ThirteenIff(reports: seq<Progress>, closing: seq<Progress>)
    requires reports == Streamed(closing) + [Progress(STAGE_VERIFY, 0), Progress(STAGE_COMPLETE, 0)]
    requires |closing| <= 1
    ensures AllThirteen(reports) <==> closing == [Progress(STAGE_STREAM, 100)]
  {
    assert |reports| == 12 + |closing|;
    if |closing| == 1 {
      assert reports[10] == closing[0] && reports[11] == Progress(STAGE_VERIFY, 0);
      assert forall j :: 1 <= j <= 9 ==> reports[j] == Tens(9)[j - 1];
    }
  }

  /** The version and status in the board's last reply, echoed opcode or not, are the ones returned. */
  lemma ResultDecoded(total: u32, version: u32, status: byte, rest: Bytes)
    ensures
      var reply := [STAGE_COMPLETE] + Be32(version) + [status] + rest;
      && Advance(total, Completing, Ok(reply)).0 == Finished(Done(version, status))
      && Advance(total, Completing, Ok([8] + reply)).0 == Finished(Done(version, status))
  {
    hide Be32, De32;
    var reply := [STAGE_COMPLETE] + Be32(version) + [status] + rest;
    De32Be32(version);
    assert reply[1..5] == Be32(version) && reply[5] == status;
    assert ([8] + reply)[1..] == reply;
  }

  /** What the board says in the announcement and verification stages: a reply with a status after the stage byte, the
      opcode echoed or not, is a refusal exactly if the status is not zero; one too short for a status is none. */
  lemma StatusDecides(total: u32, stage: byte, status: u32, rest: Bytes, echoed: bool)
    requires stage != 8 || echoed
    ensures
      var reply := (if echoed then [8] else []) + ([stage] + Be32(status) + rest);
      && (Advance(total, Announcing, Ok(reply)).0 == Finished(Rejected) <==> status != 0)
      && (Advance(total, Verifying, Ok(reply)).0 == Finished(VerifyFailed) <==> status != 0)
      && (Advance(total, Verifying, Ok(reply)).0 == Completing <==> status == 0)
  {
    hide Be32, De32;
    StatusRead(stage, status, rest, echoed);
  }

  lemma StatusRead(stage: byte, status: u32, rest: Bytes, echoed: bool)
    requires stage != 8 || echoed
    ensures ReplyWord((if echoed then [8] else []) + ([stage] + Be32(status) + rest)) == Some(status)
  {
    hide Be32, De32;
    De32Be32(status);
    var data := [stage] + Be32(status) + rest;
    assert data[1..5] == Be32(status);
    assert echoed ==> ([8] + data)[1..] == data;
    assert !echoed ==> [] + data == data;
  }

  lemma ShortReplyAccepted(total: u32, reply: Bytes)
    requires total > 0 && |StripEcho(reply, 8)| < 5
    ensures Advance(total, Announcing, Ok(reply)) == (Streaming(0, 0), [Progress(0, 0)])
    ensures Advance(total, Verifying, Ok(reply)) == (Completing, [Progress(2, 0)])
  {
  }

  /** An acknowledgement in a streaming reply: the upload goes on behind the larger of chunk sent and chunk acknowledged. */
  lemma AckDecides(idx: u32, stage: byte, ack: u32, rest: Bytes, echoed: bool)
    requires (stage != 8 || echoed) && idx < 0xFFFF_FFFF && ack < 0xFFFF_FFFF
    ensures NextChunk(idx, (if echoed then [8] else []) + ([stage] + Be32(ack) + rest)) == Max(idx, ack) + 1
  {
    hide ReplyWord, Be32;
    StatusRead(stage, ack, rest, echoed);
  }

  // ── the transmit buffer ──────────────────────────────────────────────

  /** The largest frame of an upload: header, stage, index and a full chunk. */
  const LARGEST_FRAME: nat := 24 + 3 + CHUNK_SIZE

  /** Every payload of an upload fits a transmit buffer of `LARGEST_FRAME` bytes. */
  lemma PayloadFits(image: Bytes, p: Phase)
    requires !p.Finished? && InRange(TotalChunks(image), p)
    ensures 24 + |PayloadIn(image, p)| <= LARGEST_FRAME
  {
    hide TotalChunks;
  }

  /** The first chunk is a full one, so its frame needs all of them. */
  lemma FirstChunkIsLargest(image: Bytes)
    requires InSize(image)
    ensures TotalChunks(image) > 0 && 24 + |ChunkPayload(image, 0)| == LARGEST_FRAME
  {
    ChunkCount(image);
  }

  /** Requests that do not fit `cap` bytes abort, and only those do. */
  ghost predicate AbortsBeyond(image: Bytes, answers: seq<Answer>, cap: nat)
    requires AllAsked(TotalChunks(image), answers)
  {
    forall i :: 0 <= i < |answers| ==> (answers[i].Panicked? <==> Frame.Overflows(PayloadAt(image, answers, i), cap))
  }

  /** With a smaller buffer no upload gets past its first chunk. */
  lemma {:induction false} SmallBufferNeverDone(image: Bytes, answers: seq<Answer>, cap: nat)
    requires InSize(image) && cap < LARGEST_FRAME
    requires AllAsked(TotalChunks(image), answers) && AbortsBeyond(image, answers, cap)
    ensures
      var p := PhaseAfter(TotalChunks(image), answers);
      p.Announcing? || p == Streaming(0, 0) || (p.Finished? && !p.finish.Done? && !p.finish.VerifyFailed?)
  {
    hide ReplyWord, Refused, TotalChunks, ReportsAfter, PhaseAfter, Chunk, ReplyStatus, NextChunk, Percent, Reports, Be16, Be32;
    FirstChunkIsLargest(image);
    var total := TotalChunks(image);
    if answers == [] {
      EmptyRun(total);
    } else {
      var k := |answers| - 1;
      var prior := answers[..k];
      PrefixRun(total, answers, k);
      assert forall i :: 0 <= i < k ==> PayloadAt(image, prior, i) == PayloadAt(image, answers, i);
      SmallBufferNeverDone(image, prior, cap);
      assert prior + [answers[k]] == answers;
      PhaseLast(total, prior, answers[k]);
      if PhaseAfter(total, prior) == Streaming(0, 0) {
        assert PayloadAt(image, answers, k) == ChunkPayload(image, 0);
      }
    }
  }

  lemma EmptyRun(total: u32)
    ensures PhaseAfter(total, []) == Announcing && ReportsAfter(total, []) == []
  {
  }

  /** Empty replies acknowledge everything. */
  function EmptyReplies(n: nat): (r: seq<Answer>)
    ensures |r| == n
  {
    seq(n, _ => Ok([]))
  }

  predicate ReachesPhase(total: u32, k: nat, p: Phase)
  {
    match p
    case Announcing => k == 0
    case Streaming(idx, _) => k == idx + 1 && idx < total
    case Verifying => k == total + 1
    case Completing => k == total + 2
    case Finished(f) => k >= total + 3 && f.Done?
  }

  lemma EmptyReplyStep(total: u32, k: nat, p: Phase)
    requires 0 < total <= 8192 && k < total + 3 && ReachesPhase(total, k, p)
    ensures ReachesPhase(total, k + 1, Advance(total, p, Ok([])).0)
  {
    hide Percent, Reports;
  }

  lemma {:induction false} EmptyRepliesRun(total: u32, k: nat)
    requires 0 < total <= 8192 && k <= total + 3
    ensures ReachesPhase(total, k, PhaseAfter(total, EmptyReplies(k)))
  {
    if k == 0 {
      assert EmptyReplies(0) == [];
      EmptyRun(total);
    } else {
      hide Advance, PhaseAfter, ReachesPhase, EmptyReplies;
      EmptyRepliesRun(total, k - 1);
      EmptyReplyStep(total, k - 1, PhaseAfter(total, EmptyReplies(k - 1)));
      EmptySnoc(k - 1);
      PhaseLast(total, EmptyReplies(k - 1), Ok([]));
    }
  }

  lemma EmptySnoc(n: nat)
    ensures EmptyReplies(n) + [Ok([])] == EmptyReplies(n + 1)
  {
  }

  /** With `LARGEST_FRAME` bytes or more there is an upload that is done, of every image; so that is exactly the room it takes. */
  lemma BufferSuffices(image: Bytes, cap: nat)
    requires InSize(image)
    ensures cap >= LARGEST_FRAME <==>
      exists answers ::
        && AllAsked(TotalChunks(image), answers) && AbortsBeyond(image, answers, cap)
        && PhaseAfter(TotalChunks(image), answers).Finished?
        && PhaseAfter(TotalChunks(image), answers).finish.Done?
  {
    hide PhaseAfter, TotalChunks, PayloadIn, ReachesPhase;
    ChunkCount(image);
    var total := TotalChunks(image);
    if cap >= LARGEST_FRAME {
      DoneRun(total);
      var answers := EmptyReplies(total + 3);
      forall i | 0 <= i < |answers|
        ensures answers[i].Panicked? <==> Frame.Overflows(PayloadAt(image, answers, i), cap)
      {
        PhaseInRange(total, answers[..i]);
        PayloadFits(image, PhaseAfter(total, answers[..i]));
      }
      assert AbortsBeyond(image, answers, cap);
    }
    forall answers | cap < LARGEST_FRAME && AllAsked(total, answers) && AbortsBeyond(image, answers, cap)
      ensures !(PhaseAfter(total, answers).Finished? && PhaseAfter(total, answers).finish.Done?)
    {
      SmallBufferNeverDone(image, answers, cap);
    }
  }

  lemma DoneRun(total: u32)
    requires 0 < total <= 8192
    ensures
      var answers := EmptyReplies(total + 3);
      && AllAsked(total, answers) && PhaseAfter(total, answers).Finished? && PhaseAfter(total, answers).finish.Done?
  {
    hide PhaseAfter;
    var answers := EmptyReplies(total + 3);
    forall i | 0 <= i < |answers|
      ensures !PhaseAfter(total, answers[..i]).Finished?
    {
      assert answers[..i] == EmptyReplies(i);
      EmptyRepliesRun(total, i);
    }
    EmptyRepliesRun(total, total + 3);
  }
}
