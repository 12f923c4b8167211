/** Uploads that happen: any replies can be the board's, a whole image can be stored, and one chunk can pass for it. */
module FlashRuns {
  import opened Bytes
  import opened Checksum
  import opened Frame
  import opened Options
  import opened Request
  import opened Firmware
  import opened Upload
  import opened Coverage
  import opened Protocol
  import opened ProtocolSafety
  import opened ProtocolLimits
  import opened ProtocolFlash

  /** Nothing is on its way. */
  predicate Quiet(s: State) { s.host.Idle? && s.up == [] && s.down == [] && |s.results| == |s.issued| }

  /** A request that is sent once, run and answered at once. */
  function Served(payload: Bytes, reply: Bytes): seq<Step> { [Begin(Req(8, payload), 0, Sent), Serve(reply, 0), Receive] }

  predicate FitsBoth(c: Config, payload: Bytes, reply: Bytes)
  {
    |payload| < 0x1_0000 && |reply| < 0x1_0000 && c.cap >= HEADER_LEN + |reply|
  }

  /** The request is on the link. */
  function OnItsWay(c: Config, s: State, payload: Bytes): State
  {
    var issued := s.issued + [Req(8, payload)];
    s.(host := Busy(1), issued := issued, up := [CommandMsg(c, Req(8, payload), |s.issued|)])
  }

  lemma Goes(c: Config, s: State, payload: Bytes, reply: Bytes)
    requires Quiet(s) && FitsBoth(c, payload, reply)
    ensures Next(c, s, Begin(Req(8, payload), 0, Sent)) == OnItsWay(c, s, payload)
  {
    hide NumberOf, CommandMsg;
    assert [] + [CommandMsg(c, Req(8, payload), |s.issued|)] == [CommandMsg(c, Req(8, payload), |s.issued|)];
  }

  /** It has run, and the reply is on the link. */
  lemma Runs(c: Config, s: State, payload: Bytes, reply: Bytes)
    requires Quiet(s) && FitsBoth(c, payload, reply)
    ensures
      var e := Exec(NumberOf(c, |s.issued|), 8, payload, reply);
      var t := Next(c, OnItsWay(c, s, payload), Serve(reply, 0));
      && t.host == Busy(1) && t.issued == s.issued + [Req(8, payload)] && t.results == s.results
      && t.up == [] && t.down == [Msg(ReplyFields(c, e), 0)]
  {
    hide NumberOf, Wire, Parses, VerifyChecksum;
    var m := CommandMsg(c, Req(8, payload), |s.issued|);
    RoundTrip(m.x, m.pad);
    assert [m][1..] == [];
  }

  lemma Arrives(c: Config, t: State, e: Exec)
    requires t.host == Busy(1) && t.issued != [] && t.down == [Msg(ReplyFields(c, e), 0)] && t.up == []
    requires e.number == NumberOf(c, |t.issued| - 1) && e.subtype == t.issued[|t.issued| - 1].subtype
    requires |e.reply| < 0x1_0000 && c.cap >= HEADER_LEN + |e.reply|
    ensures Next(c, t, Receive) == t.(host := Idle, results := t.results + [Ok(e.reply)], down := [])
  {
    hide NumberOf, Look, Wire;
    LookAtWire(QueryOf(c, t), ReplyFields(c, e), 0);
    assert t.down[1..] == [];
  }

  lemma OneServed(c: Config, s: State, payload: Bytes, reply: Bytes)
    requires Quiet(s) && FitsBoth(c, payload, reply)
    ensures
      var t := Run(c, s, Served(payload, reply));
      Quiet(t) && t.issued == s.issued + [Req(8, payload)] && t.results == s.results + [Ok(reply)]
  {
    hide Next, Run, NumberOf;
    RunThree(c, s, Begin(Req(8, payload), 0, Sent), Serve(reply, 0), Receive);
    Goes(c, s, payload, reply);
    Runs(c, s, payload, reply);
    var t := Next(c, OnItsWay(c, s, payload), Serve(reply, 0));
    Arrives(c, t, Exec(NumberOf(c, |s.issued|), 8, payload, reply));
  }

  /** Opcode 8 is never taken for a repeat. */
  lemma ServedUnmistaken(c: Config, s: State, payload: Bytes, reply: Bytes, last: u32)
    requires Quiet(s) && FitsBoth(c, payload, reply)
    ensures RunUnmistaken(c, s, Served(payload, reply), last)
  {
    hide Next, NumberOf, Wire;
    Goes(c, s, payload, reply);
    var steps := Served(payload, reply);
    var t := OnItsWay(c, s, payload);
    assert steps[1..][0] == Serve(reply, 0) && steps[1..][1..] == [Receive] && [Receive][1..] == [];
    assert Unmistaken(t, Serve(reply, 0), last);
    var u := Next(c, t, Serve(reply, 0));
    assert RunUnmistaken(c, Next(c, u, Receive), [], last);
    assert RunUnmistaken(c, u, [Receive], last);
    assert RunUnmistaken(c, t, steps[1..], last);
  }

  lemma {:induction false} UnmistakenAppend(c: Config, s: State, a: seq<Step>, b: seq<Step>, last: u32)
    requires RunUnmistaken(c, s, a, last) && RunUnmistaken(c, Run(c, s, a), b, last)
    ensures RunUnmistaken(c, s, a + b, last)
    decreases |a|
  {
    hide Next, Unmistaken;
    if a == [] {
      assert a + b == b;
    } else {
      UnmistakenAppend(c, Next(c, s, a[0]), a[1..], b, last);
      assert (a + b)[0] == a[0] && (a + b)[1..] == a[1..] + b;
    }
  }

  function Oks(replies: seq<Bytes>): (r: seq<Answer>)
    ensures |r| == |replies|
  {
    seq(|replies|, i requires 0 <= i < |replies| => Ok(replies[i]))
  }

  /** The run has made this upload's requests and got these replies, and nothing is left over. */
  ghost predicate Happened(c: Config, start: State, steps: seq<Step>, image: Bytes, replies: seq<Bytes>, last: u32)
    requires AllAsked(TotalChunks(image), Oks(replies))
  {
    var s := Run(c, start, steps);
    && Quiet(s) && s.results == Oks(replies) && RunUnmistaken(c, start, steps, last)
    && forall i :: 0 <= i < |s.issued| ==> s.issued[i] == Req(8, PayloadAt(image, Oks(replies), i))
  }

  /** Whatever a board could answer, there is a run in which it does. */
  lemma {:induction false} AnyUpload(c: Config, last: u32, cached: Msg, image: Bytes, replies: seq<Bytes>) returns (steps: seq<Step>)
    requires AllAsked(TotalChunks(image), Oks(replies))
    requires forall i :: 0 <= i < |replies| ==> |replies[i]| < 0x1_0000 && c.cap >= HEADER_LEN + |replies[i]|
    ensures Happened(c, Start(last, cached), steps, image, replies, last)
  {
    hide Next, Run, PhaseAfter, PayloadIn, TotalChunks, Served, RunUnmistaken;
    var start := Start(last, cached);
    if replies == [] {
      steps := [];
      NothingHappened(c, start, last);
    } else {
      var n := |replies| - 1;
      var prior := replies[..n];
      OksPrefix(image, replies, n);
      var before := AnyUpload(c, last, cached, image, prior);
      var s := Run(c, start, before);
      var payload := PayloadAt(image, Oks(replies), n);
      PhaseInRange(TotalChunks(image), Oks(replies)[..n]);
      PayloadFits(image, PhaseAfter(TotalChunks(image), Oks(replies)[..n]));
      var more := Served(payload, replies[n]);
      OneServed(c, s, payload, replies[n]);
      ServedUnmistaken(c, s, payload, replies[n], last);
      UnmistakenAppend(c, start, before, more, last);
      RunAppend(c, start, before, more);
      steps := before + more;
    }
  }

  lemma NothingHappened(c: Config, start: State, last: u32)
    ensures Run(c, start, []) == start && RunUnmistaken(c, start, [], last)
  {
  }

  lemma OksPrefix(image: Bytes, replies: seq<Bytes>, n: nat)
    requires n <= |replies| && AllAsked(TotalChunks(image), Oks(replies))
    ensures Oks(replies)[..n] == Oks(replies[..n]) && AllAsked(TotalChunks(image), Oks(replies[..n]))
    ensures n + 1 == |replies| ==> Oks(replies) == Oks(replies[..n]) + [Ok(replies[n])]
    ensures forall i :: 0 <= i <= n ==> Oks(replies[..n])[..i] == Oks(replies)[..i]
  {
    hide PhaseAfter, TotalChunks;
    assert Oks(replies)[..n] == Oks(replies[..n]);
    assert forall i :: 0 <= i <= n ==> Oks(replies[..n])[..i] == Oks(replies)[..i];
  }

  /** Such a run is an upload in the sense of the theorems about the stored image. */
  lemma HappenedFollows(c: Config, last: u32, cached: Msg, steps: seq<Step>, image: Bytes, replies: seq<Bytes>)
    requires InSize(image) && AllAsked(TotalChunks(image), Oks(replies))
    requires Happened(c, Start(last, cached), steps, image, replies, last)
    ensures
      var s := Run(c, Start(last, cached), steps);
      Follows(s, 0, image) && s.results[0..] == Oks(replies) && |s.issued| == |replies|
  {
    hide Run, PhaseAfter, TotalChunks, PayloadAt, Start, RunUnmistaken;
    var s := Run(c, Start(last, cached), steps);
    assert s.results[0..] == s.results;
  }

  // ── two of them ──────────────────────────────────────────────────────

  lemma EmptyOks(n: nat)
    ensures EmptyReplies(n) == Oks(seq(n, _ => []))
  {
  }

  lemma EmptyInStep(total: u32, n: nat, k: nat)
    requires k <= n
    ensures NeverRestarts(total, EmptyReplies(n)[..k])
    ensures forall i :: 0 <= i < k ==> !RunsAhead(total, EmptyReplies(n)[..k], i)
  {
    hide PhaseAfter;
    assert ReplyWord([]) == None;
  }

  /** A board whose replies are empty stores every image whole. */
  lemma WholeStored(c: Config, last: u32, cached: Msg, image: Bytes) returns (steps: seq<Step>)
    requires InSize(image) && c.cap >= HEADER_LEN
    ensures
      var s := Run(c, Start(last, cached), steps);
      && RunUnmistaken(c, Start(last, cached), steps, last) && Follows(s, 0, image)
      && StreamOver(TotalChunks(image), s.results[0..], TotalChunks(image) + 1)
      && PhaseAfter(TotalChunks(image), s.results[0..]).Finished?
      && PhaseAfter(TotalChunks(image), s.results[0..]).finish.Done?
      && Whole(Flash(s.log), image)
  {
    hide Run, PhaseAfter, Start, RunUnmistaken, Whole, Flash, Follows, NeverRestarts, RunsAhead, AllAsked, TotalChunks, Happened,
      EmptyReplies;
    ChunkCount(image);
    var total := TotalChunks(image);
    var replies := seq(total + 3, _ => []);
    DoneRun(total);
    EmptyOks(total + 3);
    steps := AnyUpload(c, last, cached, image, replies);
    HappenedIs(c, last, cached, steps, image, replies);
    HappenedFollows(c, last, cached, steps, image, replies);
    EmptyOver(total);
    EmptyInStep(total, total + 3, total + 1);
    StoredIff(c, last, cached, steps, 0, image, total + 1);
  }

  lemma HappenedIs(c: Config, last: u32, cached: Msg, steps: seq<Step>, image: Bytes, replies: seq<Bytes>)
    requires AllAsked(TotalChunks(image), Oks(replies)) && Happened(c, Start(last, cached), steps, image, replies, last)
    ensures RunUnmistaken(c, Start(last, cached), steps, last)
  {
    hide Run, PhaseAfter, TotalChunks, PayloadAt, Start, RunUnmistaken;
  }

  lemma EmptyOver(total: u32)
    requires 0 < total <= 8192
    ensures StreamOver(total, EmptyReplies(total + 3), total + 1)
  {
    hide PhaseAfter;
    EmptyRepliesRun(total, total + 1);
    assert EmptyReplies(total + 3)[..total + 1] == EmptyReplies(total + 1);
  }

  /** One far ACK, and the upload of any image is done with its first chunk alone stored. */
  lemma OneChunkStored(c: Config, last: u32, cached: Msg, image: Bytes) returns (steps: seq<Step>)
    requires InSize(image) && c.cap >= HEADER_LEN + 5
    ensures
      var s := Run(c, Start(last, cached), steps);
      && RunUnmistaken(c, Start(last, cached), steps, last) && Follows(s, 0, image)
      && PhaseAfter(TotalChunks(image), s.results[0..]) == Finished(Done(0, 0))
      && (forall j: nat :: j in Flash(s.log) <==> j == 0) && !Whole(Flash(s.log), image)
  {
    hide Run, PhaseAfter, Start, RunUnmistaken, Whole, Flash, Follows, AllAsked, TotalChunks, Happened, Asked, SkipsMended,
      OneChunkOnly;
    ChunkCount(image);
    var total := TotalChunks(image);
    var replies := [[], [STAGE_STREAM, 255, 255, 255, 254], [], []];
    DoneWithOneChunk(total);
    FourOks();
    steps := AnyUpload(c, last, cached, image, replies);
    HappenedIs(c, last, cached, steps, image, replies);
    HappenedFollows(c, last, cached, steps, image, replies);
    UploadStoresImage(c, last, cached, steps, 0, image, 2);
    NotWhole(Flash(Run(c, Start(last, cached), steps).log), image);
  }

  lemma FourOks()
    ensures Oks([[], [STAGE_STREAM, 255, 255, 255, 254], [], []]) == OneChunkOnly()
  {
  }

  lemma NotWhole(flash: map<nat, Bytes>, image: Bytes)
    requires InSize(image) && forall j: nat :: j in flash <==> j == 0
    ensures !Whole(flash, image)
  {
    ChunksCount(image);
    ChunkCount(image);
    hide Joined, TotalChunks, Chunks;
    assert 1 !in flash;
  }
}
