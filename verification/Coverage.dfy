/** Which chunks an upload asks for, over every sequence of answers. */
module Coverage {
  import opened Bytes
  import opened Options
  import opened Request
  import opened Firmware
  import opened Upload

  /** Request `i` carries chunk `j`. */
  ghost predicate Carries(total: u32, answers: seq<Answer>, i: nat, j: nat)
    requires i < |answers|
  {
    var p := PhaseAfter(total, answers[..i]);
    p.Streaming? && p.idx == j
  }

  /** The answer to request `i` acknowledges chunk `j` before it was asked for. */
  ghost predicate Skips(total: u32, answers: seq<Answer>, i: nat, j: nat)
    requires i < |answers|
  {
    var p := PhaseAfter(total, answers[..i]);
    p.Streaming? && answers[i].Ok? && p.idx < j < NextChunk(p.idx, answers[i].payload) && j < total
  }

  /** One of the requests from `lo` on, each of them answered, carries chunk `j`. */
  ghost predicate Asked(total: u32, answers: seq<Answer>, lo: nat, j: nat)
  {
    exists i :: lo <= i < |answers| && Carries(total, answers, i, j)
  }

  ghost predicate Skipped(total: u32, answers: seq<Answer>, lo: nat, j: nat)
  {
    exists i :: lo <= i < |answers| && Skips(total, answers, i, j)
  }

  /** The number of answers up to the last one that made the index wrap, after which the upload starts again. */
  ghost function LastRestart(total: u32, answers: seq<Answer>): (r: nat)
    ensures r <= |answers|
  {
    if answers == [] then 0
    else
      var n := |answers| - 1;
      if AcksLargest(total, answers, n) then n + 1 else LastRestart(total, answers[..n])
  }

  lemma AskedSnoc(total: u32, prior: seq<Answer>, a: Answer, lo: nat, j: nat)
    ensures Asked(total, prior + [a], lo, j) <==>
      Asked(total, prior, lo, j) || (lo <= |prior| && Carries(total, prior + [a], |prior|, j))
  {
    hide PhaseAfter;
    var now := prior + [a];
    forall i | 0 <= i < |prior|
      ensures Carries(total, now, i, j) <==> Carries(total, prior, i, j)
    {
      assert now[..i] == prior[..i];
    }
  }

  lemma SkippedSnoc(total: u32, prior: seq<Answer>, a: Answer, lo: nat, j: nat)
    ensures Skipped(total, prior + [a], lo, j) <==>
      Skipped(total, prior, lo, j) || (lo <= |prior| && Skips(total, prior + [a], |prior|, j))
  {
    hide PhaseAfter, NextChunk;
    var now := prior + [a];
    forall i | 0 <= i < |prior|
      ensures Skips(total, now, i, j) <==> Skips(total, prior, i, j)
    {
      assert now[..i] == prior[..i];
    }
  }

  lemma RestartSnoc(total: u32, prior: seq<Answer>, a: Answer)
    ensures
      LastRestart(total, prior + [a]) ==
      if AcksLargest(total, prior + [a], |prior|) then |prior| + 1 else LastRestart(total, prior)
  {
    hide AcksLargest;
    assert (prior + [a])[..|prior|] == prior;
  }

  // ── one pass ─────────────────────────────────────────────────────────

  /** The stream has not failed and is not followed by a later answer. */
  predicate Underway(p: Phase) { p.Announcing? || p.Streaming? || p.Verifying? }

  /** The chunks below this one are behind the upload. */
  function Reached(p: Phase, total: u32): nat
  {
    if p.Announcing? then 0 else if p.Streaming? then p.idx else total
  }

  /** In the pass since the last restart, every chunk behind the upload was either asked for or skipped, and no other. */
  ghost predicate OncePassed(total: u32, answers: seq<Answer>, j: nat)
  {
    var lo := LastRestart(total, answers);
    if j < Reached(PhaseAfter(total, answers), total) then
      Asked(total, answers, lo, j) <==> !Skipped(total, answers, lo, j)
    else
      !Asked(total, answers, lo, j) && !Skipped(total, answers, lo, j)
  }

  lemma UnderwayStep(total: u32, p: Phase, a: Answer)
    requires 0 < total && Underway(Advance(total, p, a).0)
    ensures a.Ok? && (p.Announcing? || p.Streaming?)
    ensures p.Announcing? ==> Advance(total, p, a).0 == Streaming(0, 0)
  {
    hide ReplyWord, NextChunk, Percent, Reports, Refused;
  }

  lemma UnderwayBefore(total: u32, prior: seq<Answer>, a: Answer)
    requires 0 < total && Underway(PhaseAfter(total, prior + [a]))
    ensures a.Ok? && (PhaseAfter(total, prior).Announcing? || PhaseAfter(total, prior).Streaming?)
    ensures PhaseAfter(total, prior).Announcing? ==> PhaseAfter(total, prior + [a]) == Streaming(0, 0)
  {
    hide PhaseAfter, Advance, Underway;
    PhaseLast(total, prior, a);
    UnderwayStep(total, PhaseAfter(total, prior), a);
  }

  lemma {:induction false} PassCovers(total: u32, answers: seq<Answer>, j: nat)
    requires 0 < total <= 8192 && j < total && Underway(PhaseAfter(total, answers))
    ensures OncePassed(total, answers, j)
  {
    hide PhaseAfter, LastRestart, OncePassed;
    if answers == [] {
      NothingPassed(total, j);
    } else {
      var n := |answers| - 1;
      var prior := answers[..n];
      assert prior + [answers[n]] == answers;
      UnderwayBefore(total, prior, answers[n]);
      PassCovers(total, prior, j);
      PassStep(total, prior, answers[n], j);
    }
  }

  lemma NothingPassed(total: u32, j: nat)
    ensures OncePassed(total, [], j)
  {
  }

  lemma PassStep(total: u32, prior: seq<Answer>, a: Answer, j: nat)
    requires 0 < total <= 8192 && j < total && Underway(PhaseAfter(total, prior + [a])) && OncePassed(total, prior, j)
    ensures OncePassed(total, prior + [a], j)
  {
    hide PhaseAfter, LastRestart, Asked, Skipped, ReplyWord, NextChunk, Percent, Reports, Refused;
    var now := prior + [a];
    assert now[..|prior|] == prior;
    UnderwayBefore(total, prior, a);
    PhaseLast(total, prior, a);
    PhaseInRange(total, prior);
    RestartSnoc(total, prior, a);
    var p := PhaseAfter(total, prior);
    if p.Streaming? {
      NextInOrder(p.idx, a.payload);
    }
    if AcksLargest(total, now, |prior|) {
      NothingSince(total, now, j);
    } else {
      var lo := LastRestart(total, prior);
      AskedSnoc(total, prior, a, lo, j);
      SkippedSnoc(total, prior, a, lo, j);
    }
  }

  lemma NothingSince(total: u32, answers: seq<Answer>, j: nat)
    ensures !Asked(total, answers, |answers|, j) && !Skipped(total, answers, |answers|, j)
  {
  }

  // ── every chunk ──────────────────────────────────────────────────────

  /** Every chunk behind the upload has been asked for. */
  ghost predicate AllBehindAsked(total: u32, answers: seq<Answer>)
  {
    forall j: nat :: j < Reached(PhaseAfter(total, answers), total) ==> Asked(total, answers, 0, j)
  }

  /** Every chunk skipped since the last restart had been asked for before it. */
  ghost predicate SkipsMended(total: u32, answers: seq<Answer>)
  {
    var lo := LastRestart(total, answers);
    forall j: nat ::
      j < Reached(PhaseAfter(total, answers), total) && Skipped(total, answers, lo, j) ==> Asked(total, answers[..lo], 0, j)
  }

  lemma AskedSplit(total: u32, answers: seq<Answer>, lo: nat, j: nat)
    requires lo <= |answers|
    ensures Asked(total, answers, 0, j) <==> Asked(total, answers[..lo], 0, j) || Asked(total, answers, lo, j)
  {
    hide PhaseAfter;
    forall i | 0 <= i < lo
      ensures Carries(total, answers, i, j) <==> Carries(total, answers[..lo], i, j)
    {
      assert answers[..lo][..i] == answers[..i];
    }
  }

  /** For every sequence of answers: the upload has asked for every chunk behind it if and only if each chunk skipped
      since the last restart had been asked for before. */
  lemma EveryChunkAsked(total: u32, answers: seq<Answer>)
    requires 0 < total <= 8192 && Underway(PhaseAfter(total, answers))
    ensures AllBehindAsked(total, answers) <==> SkipsMended(total, answers)
  {
    hide PhaseAfter, LastRestart, Asked, Skipped;
    var lo := LastRestart(total, answers);
    PhaseInRange(total, answers);
    forall j: nat | j < Reached(PhaseAfter(total, answers), total)
      ensures Asked(total, answers, 0, j) <==> (Skipped(total, answers, lo, j) ==> Asked(total, answers[..lo], 0, j))
    {
      PassCovers(total, answers, j);
      AskedSplit(total, answers, lo, j);
    }
  }

  ghost predicate NeverRestarts(total: u32, answers: seq<Answer>)
  {
    forall i :: 0 <= i < |answers| ==> !AcksLargest(total, answers, i)
  }

  lemma {:induction false} NoRestart(total: u32, answers: seq<Answer>)
    requires NeverRestarts(total, answers)
    ensures LastRestart(total, answers) == 0
  {
    hide PhaseAfter, ReplyWord;
    if answers != [] {
      var n := |answers| - 1;
      forall i | 0 <= i < n
        ensures !AcksLargest(total, answers[..n], i)
      {
        assert answers[..n][..i] == answers[..i];
        assert !AcksLargest(total, answers, i);
      }
      NoRestart(total, answers[..n]);
    }
  }

  /** Something is skipped by an answer that runs ahead and does not wrap, and by no other. */
  lemma SkipsIff(total: u32, answers: seq<Answer>, i: nat)
    requires total <= 8192 && i < |answers| && !AcksLargest(total, answers, i)
    ensures RunsAhead(total, answers, i) <==> exists j: nat :: Skips(total, answers, i, j)
  {
    hide PhaseAfter, ReplyWord, NextChunk, Beyond;
    var p := PhaseAfter(total, answers[..i]);
    PhaseInRange(total, answers[..i]);
    if p.Streaming? && answers[i].Ok? {
      NextInOrder(p.idx, answers[i].payload);
      if RunsAhead(total, answers, i) {
        assert Skips(total, answers, i, p.idx + 1);
      }
    }
  }

  /** Without a restart it has asked for every chunk behind it if and only if no answer runs ahead. */
  lemma EveryChunkIff(total: u32, answers: seq<Answer>)
    requires 0 < total <= 8192 && Underway(PhaseAfter(total, answers)) && NeverRestarts(total, answers)
    ensures AllBehindAsked(total, answers) <==> forall i :: 0 <= i < |answers| ==> !RunsAhead(total, answers, i)
  {
    hide PhaseAfter, LastRestart, Asked, AllBehindAsked, NeverRestarts, RunsAhead, Skips;
    EveryChunkAsked(total, answers);
    NoRestart(total, answers);
    assert answers[..0] == [];
    if i: nat :| i < |answers| && RunsAhead(total, answers, i) {
      NoneOf(total, answers, i);
      SkipsIff(total, answers, i);
      var j: nat :| Skips(total, answers, i, j);
      SkipIsBehind(total, answers, i, j);
      NoneAsked(total, j);
    } else {
      forall i, j: nat | 0 <= i < |answers|
        ensures !Skips(total, answers, i, j)
      {
        NoneOf(total, answers, i);
        SkipsIff(total, answers, i);
      }
    }
  }

  lemma NoneOf(total: u32, answers: seq<Answer>, i: nat)
    requires NeverRestarts(total, answers) && i < |answers|
    ensures !AcksLargest(total, answers, i)
  {
  }

  lemma NoneAsked(total: u32, j: nat)
    ensures !Asked(total, [], 0, j)
  {
  }

  /** Without a restart, what was skipped is behind the upload. */
  lemma SkipIsBehind(total: u32, answers: seq<Answer>, i: nat, j: nat)
    requires 0 < total <= 8192 && Underway(PhaseAfter(total, answers)) && NeverRestarts(total, answers)
    requires i < |answers| && Skips(total, answers, i, j)
    ensures j < Reached(PhaseAfter(total, answers), total) && Skipped(total, answers, 0, j)
  {
    hide PhaseAfter, LastRestart, Asked, NextChunk;
    NoRestart(total, answers);
    PassCovers(total, answers, j);
  }

  // ── runs that show it ────────────────────────────────────────────────

  /** The announcement is accepted, and the answer to chunk 0 acknowledges chunk `ack`. */
  function FirstAcks(ack: byte): seq<Answer> { [Ok([]), Ok([STAGE_STREAM, 0, 0, 0, ack])] }

  lemma AckRead(ack: byte)
    ensures ReplyWord([STAGE_STREAM, 0, 0, 0, ack]) == Some(ack)
  {
    FourBytes([0, 0, 0, ack]);
    assert [STAGE_STREAM, 0, 0, 0, ack][1..5] == [0, 0, 0, ack];
  }

  lemma AckAdvances(total: u32, ack: byte)
    requires ack < 20 && total >= 2048
    ensures Advance(total, Streaming(0, 0), Ok([STAGE_STREAM, 0, 0, 0, ack])).0 == Streaming(ack + 1, 0)
  {
    hide ReplyWord, Quotient;
    AckRead(ack);
    FewPercent(ack + 1, total);
  }

  lemma FewPercent(idx: u32, total: u32)
    requires idx <= 20 && total >= 2048
    ensures Percent(idx, total) == 0
  {
  }

  lemma FirstAcksPhase(total: u32, ack: byte)
    requires 2048 <= total && ack < 20
    ensures PhaseAfter(total, FirstAcks(ack)[..1]) == Streaming(0, 0) && PhaseAfter(total, FirstAcks(ack)) == Streaming(ack + 1, 0)
  {
    hide Advance, ReplyWord;
    var answers := FirstAcks(ack);
    assert answers[..0] == [] && answers[..1] == [Ok([])] && answers[..2] == answers;
    Begins(total);
    AckAdvances(total, ack);
    PhaseNext(total, answers, 0);
    PhaseNext(total, answers, 1);
  }

  /** When chunk 0 is answered with an ACK of chunk 5, the next request carries chunk 6, and chunks 1 to 5 are not asked
      for however the upload goes on, unless it restarts. */
  lemma AheadAckSkips(image: Bytes, more: seq<Answer>)
    requires InSize(image)
    ensures
      var total := TotalChunks(image);
      && PhaseAfter(total, FirstAcks(5)) == Streaming(6, 0) && RunsAhead(total, FirstAcks(5) + more, 1)
      && (Underway(PhaseAfter(total, FirstAcks(5) + more)) && NeverRestarts(total, FirstAcks(5) + more) ==>
            forall j: nat :: 1 <= j <= 5 ==> !Asked(total, FirstAcks(5) + more, 0, j))
  {
    hide PhaseAfter, TotalChunks, ReplyWord, Asked, LastRestart, FirstAcks;
    ChunkCount(image);
    var total := TotalChunks(image);
    var answers := FirstAcks(5) + more;
    FirstAcksPhase(total, 5);
    AckRead(5);
    FirstAcksAre(5, more);
    if Underway(PhaseAfter(total, answers)) && NeverRestarts(total, answers) {
      forall j: nat | 1 <= j <= 5
        ensures !Asked(total, answers, 0, j)
      {
        assert Skips(total, answers, 1, j);
        SkipIsBehind(total, answers, 1, j);
        NoRestart(total, answers);
        PassCovers(total, answers, j);
      }
    }
  }

  lemma FirstAcksAre(ack: byte, more: seq<Answer>)
    ensures
      var answers := FirstAcks(ack) + more;
      |answers| >= 2 && answers[..1] == FirstAcks(ack)[..1] && answers[1] == Ok([STAGE_STREAM, 0, 0, 0, ack])
  {
  }

  /** The last but one 32-bit index, acknowledged for chunk 0, ends the stream at once. */
  function OneChunkOnly(): seq<Answer> { [Ok([]), Ok([STAGE_STREAM, 255, 255, 255, 254]), Ok([]), Ok([])] }

  lemma FarAckEnds(total: u32)
    requires 2048 <= total <= 8192
    ensures Advance(total, Streaming(0, 0), OneChunkOnly()[1]).0 == Verifying
  {
    hide Percent, OfBytesBE;
    FourBytes([255, 255, 255, 254]);
    assert [STAGE_STREAM, 255, 255, 255, 254][1..5] == [255, 255, 255, 254];
  }

  /** Four requests make an upload that is done and has asked for chunk 0 alone. */
  lemma DoneWithOneChunk(total: u32)
    requires 2048 <= total <= 8192
    ensures
      var answers := OneChunkOnly();
      && AllAsked(total, answers) && PhaseAfter(total, answers) == Finished(Done(0, 0))
      && PhaseAfter(total, answers[..2]) == Verifying
      && forall j: nat :: Asked(total, answers[..2], 0, j) <==> j == 0
  {
    hide Advance, Percent, ReplyWord;
    var answers := OneChunkOnly();
    assert answers[..0] == [] && answers[..1] == [Ok([])] && answers[..4] == answers;
    Begins(total);
    FarAckEnds(total);
    EndsEmpty(total);
    PhaseNext(total, answers, 0);
    PhaseNext(total, answers, 1);
    PhaseNext(total, answers, 2);
    PhaseNext(total, answers, 3);
    hide PhaseAfter, OneChunkOnly;
    assert answers[..2][..0] == [] && answers[..2][..1] == answers[..1];
    assert Carries(total, answers[..2], 1, 0);
  }

  lemma EndsEmpty(total: u32)
    ensures Advance(total, Verifying, Ok([])).0 == Completing && Advance(total, Completing, Ok([])).0 == Finished(Done(0, 0))
  {
  }

  // ── a restart can mend a skip ────────────────────────────────────────

  /** Chunks 1 to 5 are skipped, chunk 6 makes the index wrap, and then nothing is acknowledged ahead. */
  function Mended(n: nat): seq<Answer> { FirstAcks(5) + [Ok([STAGE_STREAM, 255, 255, 255, 255])] + EmptyReplies(n) }

  lemma MendedStart(total: u32)
    requires 2048 <= total <= 8192
    ensures PhaseAfter(total, Mended(0)) == Streaming(0, 0)
    ensures AcksLargest(total, Mended(0), 2) && RunsAhead(total, Mended(0), 1)
  {
    hide Advance, PhaseAfter, ReplyWord;
    var answers := Mended(0);
    FirstAcksPhase(total, 5);
    AckRead(5);
    AllOnes();
    WrapsAtSix(total);
    assert answers == FirstAcks(5) + [Ok([STAGE_STREAM, 255, 255, 255, 255])];
    assert answers[..2] == FirstAcks(5) && answers[..1] == FirstAcks(5)[..1];
    PhaseLast(total, FirstAcks(5), answers[2]);
  }

  lemma WrapsAtSix(total: u32)
    requires 2048 <= total <= 8192
    ensures Advance(total, Streaming(6, 0), Ok([STAGE_STREAM, 255, 255, 255, 255])).0 == Streaming(0, 0)
  {
    hide ReplyWord, Percent;
    AllOnes();
    PercentZero(total);
  }

  lemma MendedMore(n: nat)
    ensures Mended(n + 1) == Mended(n) + [Ok([])]
  {
    hide FirstAcks;
    EmptySnoc(n);
    Regroup(FirstAcks(5) + [Ok([STAGE_STREAM, 255, 255, 255, 255])], EmptyReplies(n), [Ok([])]);
  }

  /** An empty reply neither skips nor restarts. */
  lemma EmptyReplyAt(total: u32, prior: seq<Answer>, j: nat)
    requires total <= 8192
    ensures !Skips(total, prior + [Ok([])], |prior|, j) && !AcksLargest(total, prior + [Ok([])], |prior|)
  {
    hide PhaseAfter;
    assert (prior + [Ok([])])[..|prior|] == prior;
    PhaseInRange(total, prior);
  }

  lemma {:induction false} MendedRun(total: u32, n: nat)
    requires 2048 <= total <= 8192 && n <= total
    ensures ReachesPhase(total, n + 1, PhaseAfter(total, Mended(n))) && LastRestart(total, Mended(n)) == 3
    ensures |Mended(n)| == n + 3 && forall j: nat :: !Skipped(total, Mended(n), 3, j)
  {
    hide Advance, PhaseAfter, ReplyWord, ReachesPhase, AcksLargest, Mended, Skips, LastRestart, FirstAcks;
    if n == 0 {
      MendedStart(total);
      MendedBegins(total);
    } else {
      MendedRun(total, n - 1);
      MendedMore(n - 1);
      var prior := Mended(n - 1);
      PhaseLast(total, prior, Ok([]));
      EmptyReplyStep(total, n, PhaseAfter(total, prior));
      RestartSnoc(total, prior, Ok([]));
      forall j: nat
        ensures !Skipped(total, Mended(n), 3, j)
      {
        EmptyReplyAt(total, prior, j);
        SkippedSnoc(total, prior, Ok([]), 3, j);
      }
      EmptyReplyAt(total, prior, 0);
    }
  }

  lemma MendedBegins(total: u32)
    requires total > 0 && PhaseAfter(total, Mended(0)) == Streaming(0, 0) && AcksLargest(total, Mended(0), 2)
    ensures ReachesPhase(total, 1, PhaseAfter(total, Mended(0)))
    ensures |Mended(0)| == 3 && LastRestart(total, Mended(0)) == 3
  {
    hide PhaseAfter, AcksLargest;
  }

  /** So an answer may run ahead and every chunk be asked for all the same, but only after a restart. */
  lemma RestartMends(total: u32)
    requires 2048 <= total <= 8192
    ensures PhaseAfter(total, Mended(total)) == Verifying && AllBehindAsked(total, Mended(total))
    ensures Skipped(total, Mended(total), 0, 1)
  {
    hide PhaseAfter, Mended, Skipped, Asked, LastRestart;
    MendedRun(total, total);
    EveryChunkAsked(total, Mended(total));
    MendedSkips(total, total);
  }

  lemma MendedSkips(total: u32, n: nat)
    requires 2048 <= total <= 8192
    ensures Skipped(total, Mended(n), 0, 1)
  {
    hide PhaseAfter, ReplyWord;
    FirstAcksPhase(total, 5);
    AckRead(5);
    NextInOrder(0, [STAGE_STREAM, 0, 0, 0, 5]);
    var answers := Mended(n);
    assert answers[..1] == FirstAcks(5)[..1];
    assert Skips(total, answers, 1, 1);
  }
}
