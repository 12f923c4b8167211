/** An upload that fails, and what it leaves behind. */
module BoardRuns {
  import opened Bytes
  import opened Checksum
  import opened Frame
  import opened Options
  import opened Request
  import opened Firmware
  import opened Upload
  import opened SharedState
  import opened Board
  import opened Protocol
  import Line

  const FULL_BUFFER: nat := 2000

  /** The board accepts the announcement, then the socket fails, and then nothing more comes. */
  function Script(reply: Fields, silence: nat): seq<Outcome>
  {
    [Data(Wire(reply)), Failed] + Silence(silence)
  }

  function Silence(n: nat): (r: seq<Outcome>)
    ensures |r| == n
  {
    seq(n, _ => WouldBlock)
  }

  /** The board's reply to the announcement, request number 1. */
  function Accepted(mac: Mac, boardMac: Mac): Fields
  {
    Fields(mac, boardMac, MAGIC_RESPONSE, 8, 1, [])
  }

  lemma AcceptedSeen(mac: Mac, boardMac: Mac, left: nat, rest: seq<Outcome>)
    requires left > 0
    ensures
      Attempts(Query(8, 1, FULL_BUFFER), left, [Data(Wire(Accepted(mac, boardMac)))] + rest, []) == Course(Ok([]), 1, 1, [])
  {
    hide Look, Wire;
    var x := Accepted(mac, boardMac);
    LookAtWire(Query(8, 1, FULL_BUFFER), x, 0);
    assert Wire(x) + Zeros(0) == Wire(x);
  }

  lemma FailureSeen(number: u32, left: nat, rest: seq<Outcome>)
    requires left > 0
    ensures Attempts(Query(8, number, FULL_BUFFER), left, [Failed] + rest, []) == Course(IoError, 1, 1, [])
  {
    hide Look;
  }

  lemma SilenceLong(q: Query, retries: nat, n: nat)
    requires n > retries
    ensures Attempts(q, retries + 1, Silence(n), []) == Course(Timeout, retries + 1, retries + 1, [])
  {
    var rx := Silence(n);
    SilenceTimeouts(retries);
    assert rx[..retries] == Silence(retries);
    SearchDecides(q, retries, rx, retries);
  }

  lemma {:induction false} SilenceTimeouts(n: nat)
    ensures Timeouts(Silence(n)) == n
  {
    if n > 0 {
      assert Silence(n)[..n - 1] == Silence(n - 1);
      SilenceTimeouts(n - 1);
    }
  }

  // ── the requests of the upload ───────────────────────────────────────

  lemma FirstGiven(t: Traffic, a: Asked, mac: Mac, boardMac: Mac, silence: nat)
    requires t.rx == Script(Accepted(mac, boardMac), silence) && t.tx == []
    requires a.number == 1 && a.subtype == 8 && !a.answer.Panicked? && Given(t, a, 5, FULL_BUFFER)
    ensures a.answer == Ok([])
    ensures
      var u := AfterRequest(t, a, 5, mac, FULL_BUFFER);
      u.rx == [Failed] + Silence(silence) && u.tx == [] && |u.sent| == |t.sent| + 1
  {
    hide Attempts, Wire, Silence, TxFrame;
    AcceptedSeen(mac, boardMac, 6, [Failed] + Silence(silence));
    assert t.rx == [Data(Wire(Accepted(mac, boardMac)))] + ([Failed] + Silence(silence));
    assert t.rx[1..] == [Failed] + Silence(silence);
  }

  lemma SecondGiven(t: Traffic, a: Asked, mac: Mac, silence: nat)
    requires t.rx == [Failed] + Silence(silence) && t.tx == []
    requires a.subtype == 8 && !a.answer.Panicked? && Given(t, a, 20, FULL_BUFFER)
    ensures a.answer == IoError
    ensures
      var u := AfterRequest(t, a, 20, mac, FULL_BUFFER);
      u.rx == Silence(silence) && u.tx == [] && |u.sent| == |t.sent| + 1
  {
    hide Attempts, Silence, TxFrame;
    FailureSeen(a.number, 21, Silence(silence));
    assert t.rx[1..] == Silence(silence);
  }

  lemma PollGiven(t: Traffic, a: Asked, mac: Mac)
    requires t.rx == Silence(21) && t.tx == [] && !a.answer.Panicked? && Given(t, a, 20, FULL_BUFFER)
    ensures a.answer == Timeout && |AfterRequest(t, a, 20, mac, FULL_BUFFER).sent| == |t.sent| + 21
  {
    hide Attempts, Silence, TxFrame;
    SilenceLong(Query(a.subtype, a.number, FULL_BUFFER), 20, 21);
  }

  /** What is recorded of request `i`. */
  lemma RecordedAt(image: Bytes, news: seq<Asked>, i: nat, cap: nat)
    requires Recorded(image, news, cap) && cap >= LARGEST_FRAME && i < |news|
    ensures news[i].subtype == 8 && !news[i].answer.Panicked? && !PhaseOf(image, news[..i]).Finished?
    ensures
      PhaseOf(image, news[..i + 1]) == Advance(TotalChunks(image), PhaseOf(image, news[..i]), news[i].answer).0
  {
    hide PhaseAfter, TotalChunks, PayloadIn, Advance;
    assert Answers(news[..i]) == Answers(news)[..i] && Answers(news[..i + 1]) == Answers(news)[..i + 1];
    PhaseInRange(TotalChunks(image), Answers(news)[..i]);
    PayloadFits(image, PhaseAfter(TotalChunks(image), Answers(news)[..i]));
    PhaseNext(TotalChunks(image), Answers(news), i);
  }

  lemma NothingRecorded(image: Bytes)
    ensures PhaseOf(image, []) == Announcing
  {
  }

  lemma Upto(image: Bytes, t: Traffic, news: seq<Asked>, i: nat, mac: Mac, rxCap: nat)
    requires i < |news|
    ensures
      AfterUpload(image, t, news[..i + 1], mac, rxCap) ==
      AfterRequest(AfterUpload(image, t, news[..i], mac, rxCap), news[i], RetriesAt(image, news, i), mac, rxCap)
  {
    hide AfterRequest, PhaseOf;
    assert news[..i + 1][..i] == news[..i];
  }

  /** Under that script every upload is broken off at its first chunk. */
  lemma {:induction false} BreaksInStream(image: Bytes, mac: Mac, boardMac: Mac, news: seq<Asked>, silence: nat)
    requires InSize(image) && Recorded(image, news, FULL_BUFFER) && PhaseOf(image, news).Finished?
    requires AllGiven(image, Traffic(Script(Accepted(mac, boardMac), silence), [], []), 0, news, mac, FULL_BUFFER)
    ensures |news| == 2 && PhaseOf(image, news) == Finished(Broke(IoError)) && news[1].answer == IoError
    ensures PhaseOf(image, news[..1]) == Streaming(0, 0)
    ensures
      var t := AfterUpload(image, Traffic(Script(Accepted(mac, boardMac), silence), [], []), news, mac, FULL_BUFFER);
      t.rx == Silence(silence) && t.tx == [] && |t.sent| == 2
  {
    hide AfterRequest, Given, PhaseOf, Attempts, Wire, TxFrame, PhaseAfter, TotalChunks, Recorded, AfterUpload, Script, Accepted,
      Silence;
    var t := Traffic(Script(Accepted(mac, boardMac), silence), [], []);
    ChunkCount(image);
    NothingRecorded(image);
    assert news[..0] == [] && news[..|news|] == news;
    assert AfterUpload(image, t, [], mac, FULL_BUFFER) == t by { AfterNone(image, t, 0, mac, FULL_BUFFER); }
    RecordedAt(image, news, 0, FULL_BUFFER);
    assert GivenAt(image, t, 0, news, 0, mac, FULL_BUFFER);
    FirstGiven(t, news[0], mac, boardMac, silence);
    Begins(TotalChunks(image));
    Upto(image, t, news, 0, mac, FULL_BUFFER);
    var u := AfterUpload(image, t, news[..1], mac, FULL_BUFFER);
    RecordedAt(image, news, 1, FULL_BUFFER);
    assert GivenAt(image, t, 0, news, 1, mac, FULL_BUFFER);
    SecondGiven(u, news[1], mac, silence);
    Upto(image, t, news, 1, mac, FULL_BUFFER);
    if |news| > 2 {
      RecordedAt(image, news, 2, FULL_BUFFER);
      assert false;
    }
  }

  /** A board that falls silent: the request then made is sent 6 times in the announcement stage and 21 times in any
      other, and the upload breaks off with a timeout. */
  lemma SilentFromHere(image: Bytes, t: Traffic, number: u32, news: seq<Asked>, mac: Mac, rxCap: nat, n: nat)
    requires news != [] && AllGiven(image, t, number, news, mac, rxCap) && !news[|news| - 1].answer.Panicked? && n >= 21
    requires
      var before := AfterUpload(image, t, news[..|news| - 1], mac, rxCap);
      before.rx == Silence(n) && before.tx == []
    ensures news[|news| - 1].answer == Timeout
    ensures
      var before := AfterUpload(image, t, news[..|news| - 1], mac, rxCap);
      |AfterUpload(image, t, news, mac, rxCap).sent| ==
      |before.sent| + if PhaseOf(image, news[..|news| - 1]).Announcing? then 6 else 21
  {
    hide Attempts, PhaseOf, Silence, TxFrame;
    var k := |news| - 1;
    var a, r := news[k], RetriesAt(image, news, k);
    assert GivenAt(image, t, number, news, k, mac, rxCap);
    SilenceLong(Query(a.subtype, a.number, rxCap), r, n);
  }

  /** With the settings it starts with, and the buffers of the source, a poll of a silent board sends 4 frames. */
  method FreshPoll(mac: Mac) returns (board: Board)
    ensures fresh(board) && fresh(board.sock) && board.retries == 3 && board.timeout == 2000
    ensures |board.asked| == 1 && board.asked[0].answer == Timeout && |board.sock.sent| == 4
  {
    hide AfterRequest, Given, TxFrame, Silence;
    var sock := new Socket(Silence(21), []);
    board := new Board(sock, mac, BUF_SIZE, BUF_SIZE);
    ghost var t := board.Sock();
    var answer := board.Request(2, [2]);
    FreshGiven(t, board.asked[0], mac);
  }

  lemma FreshGiven(t: Traffic, a: Asked, mac: Mac)
    requires t.rx == Silence(21) && t.tx == [] && t.sent == [] && !a.answer.Panicked? && Given(t, a, 3, BUF_SIZE)
    ensures a.answer == Timeout && |AfterRequest(t, a, 3, mac, BUF_SIZE).sent| == 4
  {
    hide Attempts, Silence, TxFrame;
    SilenceLong(Query(a.subtype, a.number, BUF_SIZE), 3, 21);
  }

  /** The buffers of the source have 212 bytes, which hold every request but those that carry more than 188; so no upload
      of an image of an acceptable size is ever done with them, or even answered for its first chunk. */
  lemma OwnBufferNeverDone(image: Bytes, news: seq<Asked>)
    requires Recorded(image, news, BUF_SIZE) && InSize(image) && PhaseOf(image, news).Finished?
    ensures BUF_SIZE == 212
    ensures forall payload: Bytes :: Overflows(payload, BUF_SIZE) <==> |payload| > 188
    ensures !PhaseOf(image, news).finish.Done? && !PhaseOf(image, news).finish.VerifyFailed?
  {
    RecordedOverflow(image, news, BUF_SIZE);
  }

  // ── the settings left behind ─────────────────────────────────────────

  /** After an upload that broke off in the stream stage, a poll of a silent board sends 21 frames where it sent 4
      before. */
  method SilentPoll(image: Bytes, mac: Mac, boardMac: Mac, state: DslState) returns (board: Board)
    requires InSize(image)
    modifies state
    ensures fresh(board) && fresh(board.sock) && board.retries == 20 && board.timeout == 300
    ensures |board.asked| == 3 && board.asked[1].answer == IoError && board.asked[2].payload == [2]
    ensures board.asked[2].answer == Timeout && |board.sock.sent| == 2 + 21
  {
    hide AfterRequest, Given, PhaseOf, Attempts, Wire, TxFrame, PhaseAfter, TotalChunks, Recorded, AfterUpload, Script, Accepted,
      Silence, AllGiven, Due;
    var sock := new Socket(Script(Accepted(mac, boardMac), 21), []);
    board := new Board(sock, mac, FULL_BUFFER, FULL_BUFFER);
    var outbox := new Outbox();
    var ear := new Requester(0, state, outbox);
    var finish;
    ghost var news;
    finish, news := board.FirmwareUpgrade(image, ear);
    assert [] + news == news;
    BreaksInStream(image, mac, boardMac, news, 21);
    ghost var t := board.Sock();
    var answer := board.Request(2, [2]);
    PollGiven(t, board.asked[2], mac);
  }
}
