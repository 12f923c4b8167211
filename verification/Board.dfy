/** The board controller: one request, and the firmware upload built from requests. */
module Board {
  import opened Bytes
  import opened Checksum
  import opened Frame
  import opened Request
  import opened Firmware
  import opened Upload
  import opened SharedState

  const DEFAULT_RETRIES: byte := 3
  const MAX_PAYLOAD: nat := 128

  /** Both buffers of the source: 24 + 128 + 60 bytes. */
  const BUF_SIZE: nat := HEADER_LEN + MAX_PAYLOAD + MIN_FRAME

  /** What the scripts still hold, and every frame sent. */
  datatype Traffic = Traffic(rx: seq<Outcome>, tx: seq<bool>, sent: seq<Bytes>)

  /** A raw socket with scripted outcomes; sends beyond the script succeed. */
  class Socket {
    var rx: seq<Outcome>
    var tx: seq<bool>
    var sent: seq<Bytes>

    constructor (rx: seq<Outcome>, tx: seq<bool>)
      ensures this.rx == rx && this.tx == tx && sent == []
    {
      this.rx, this.tx, sent := rx, tx, [];
    }

    method Send(data: Bytes) returns (ok: bool)
      modifies this
      ensures ok == (old(tx) == [] || old(tx)[0])
      ensures tx == (if old(tx) == [] then [] else old(tx)[1..])
      ensures sent == (if ok then old(sent) + [data] else old(sent)) && rx == old(rx)
    {
      ok := tx == [] || tx[0];
      tx := if tx == [] then [] else tx[1..];
      if ok {
        sent := sent + [data];
      }
    }

    method Recv() returns (o: Outcome)
      requires rx != []
      modifies this
      ensures o == old(rx)[0] && rx == old(rx)[1..] && tx == old(tx) && sent == old(sent)
    {
      o := rx[0];
      rx := rx[1..];
    }
  }

  /** `n` copies of a frame. */
  function Copies(f: Bytes, n: nat): (r: seq<Bytes>)
    ensures |r| == n
  {
    seq(n, _ => f)
  }

  lemma CopiesNone(f: Bytes)
    ensures Copies(f, 0) == []
  {
  }

  lemma CopiesAdd(f: Bytes, m: nat, n: nat)
    ensures Copies(f, m) + Copies(f, n) == Copies(f, m + n)
  {
  }

  lemma CopiesSnoc(f: Bytes, n: nat)
    ensures Copies(f, n) + [f] == Copies(f, n + 1)
  {
  }

  /** A course that starts after `used` outcomes and `sent` frames. */
  function After(c: Course, used: nat, sent: nat): Course
  {
    Course(c.answer, used + c.used, sent + c.sent, c.txLeft)
  }

  /** After `used` outcomes and `sent` frames, `left` attempts remain of the course `whole`. */
  predicate Reached(q: Query, whole: Course, rx0: seq<Outcome>, rx: seq<Outcome>, tx: seq<bool>, used: nat, sent: nat, left: nat)
  {
    && used <= |rx0| && rx == rx0[used..]
    && whole == if left > 0 then After(Attempts(q, left, rx, tx), used, sent) else Course(Timeout, used, sent, tx)
  }

  /** One more attempt has timed out. */
  lemma ReachedMore(q: Query, whole: Course, rx0: seq<Outcome>, rx: seq<Outcome>, tx: seq<bool>, used: nat, sent: nat, left: nat,
                    rx': seq<Outcome>, tx': seq<bool>, more: nat, moreSent: nat)
    requires left > 0 && Reached(q, whole, rx0, rx, tx, used, sent, left)
    requires more <= |rx| && rx' == rx[more..]
    requires left == 1 ==> Attempts(q, left, rx, tx) == Course(Timeout, more, moreSent, tx')
    requires left > 1 ==> Attempts(q, left, rx, tx) == After(Attempts(q, left - 1, rx', tx'), more, moreSent)
    ensures Reached(q, whole, rx0, rx', tx', used + more, sent + moreSent, left - 1)
  {
    hide Attempts;
    assert rx0[used..][more..] == rx0[used + more..];
  }

  /** An attempt has ended the course. */
  lemma ReachedEnd(q: Query, whole: Course, rx0: seq<Outcome>, rx: seq<Outcome>, tx: seq<bool>, used: nat, sent: nat, left: nat,
                   rx': seq<Outcome>, tx': seq<bool>, answer: Answer, more: nat, moreSent: nat)
    requires left > 0 && Reached(q, whole, rx0, rx, tx, used, sent, left)
    requires more <= |rx| && rx' == rx[more..] && Attempts(q, left, rx, tx) == Course(answer, more, moreSent, tx')
    ensures whole == Course(answer, used + more, sent + moreSent, tx') && used + more <= |rx0| && rx' == rx0[used + more..]
  {
    hide Attempts;
    assert rx0[used..][more..] == rx0[used + more..];
  }

  lemma ReachedNone(q: Query, rx: seq<Outcome>, tx: seq<bool>, left: nat)
    requires left > 0
    ensures Reached(q, Attempts(q, left, rx, tx), rx, rx, tx, 0, 0, left)
  {
    hide Attempts;
    assert rx[0..] == rx;
  }

  lemma ReachedLast(q: Query, whole: Course, rx0: seq<Outcome>, rx: seq<Outcome>, tx: seq<bool>, used: nat, sent: nat)
    requires Reached(q, whole, rx0, rx, tx, used, sent, 0)
    ensures whole == Course(Timeout, used, sent, tx) && used <= |rx0| && rx == rx0[used..]
  {
  }

  lemma SentMore(before: seq<Bytes>, f: Bytes, m: nat, n: nat)
    ensures before + Copies(f, 0) == before
    ensures before + Copies(f, m) + Copies(f, n) == before + Copies(f, m + n)
  {
    hide Copies;
    CopiesNone(f);
    CopiesAdd(f, m, n);
    assert before + Copies(f, m) + Copies(f, n) == before + (Copies(f, m) + Copies(f, n));
  }

  lemma AttemptsStep(q: Query, left: nat, rx: seq<Outcome>, tx: seq<bool>)
    requires left > 0
    ensures Attempts(q, left, rx, tx) ==
      if tx != [] && !tx[0] then Course(IoError, 0, 0, tx[1..])
      else After(Drain(q, left, rx, if tx == [] then [] else tx[1..]), 0, 1)
  {
    hide Drain;
  }

  /** One request made to the board and its answer. */
  datatype Asked = Asked(subtype: byte, number: u32, payload: Bytes, answer: Answer)

  /** The frame put on the wire: built in a zeroed buffer, so padded with zeros to 60 bytes. */
  function TxFrame(subtype: byte, number: u32, mac: Mac, payload: Bytes): Bytes
  {
    var f := Wire(Command(subtype, number, mac, payload));
    f + Zeros(Max(MIN_FRAME, |f|) - |f|)
  }

  /** A request on the wire: at least 60 bytes, to everyone, from the host, EtherType 0x88B5, magic 0x11, opcode, number and
      payload, with a right checksum. */
  lemma RequestOnWire(subtype: byte, number: u32, mac: Mac, payload: Bytes)
    requires |payload| < 0x1_0000
    ensures
      var f := TxFrame(subtype, number, mac, payload);
      && |f| == Max(60, 24 + |payload|) && Parses(f) && VerifyChecksum(f)
      && f[0..6] == [255, 255, 255, 255, 255, 255] && f[6..12] == mac && f[12..14] == [0x88, 0xB5]
      && f[14] == 0x11 && f[15] == subtype && De32(f[16..20]) == number && De16(f[20], f[21]) == |payload|
      && f[24..24 + |payload|] == payload
  {
    hide Wire, VerifyChecksum, De32;
    var x := Command(subtype, number, mac, payload);
    WireFields(x, Max(MIN_FRAME, |Wire(x)|) - |Wire(x)|);
    assert payload[..|payload|] == payload;
  }

  function Answers(news: seq<Asked>): (r: seq<Answer>)
    ensures |r| == |news|
  {
    seq(|news|, i requires 0 <= i < |news| => news[i].answer)
  }

  function PhaseOf(image: Bytes, news: seq<Asked>): Phase { PhaseAfter(TotalChunks(image), Answers(news)) }

  function ReportsOf(image: Bytes, news: seq<Asked>): seq<Progress> { ReportsAfter(TotalChunks(image), Answers(news)) }

  /** Reports given when `at` requests have been made. */
  function Stamped(reports: seq<Progress>, at: nat): (r: seq<Timed>)
    ensures |r| == |reports|
  {
    seq(|reports|, i requires 0 <= i < |reports| => (reports[i], at))
  }

  /** The reports that are due, each as soon as the answer calling for it is there; `made` requests came before. */
  function Due(image: Bytes, news: seq<Asked>, made: nat): seq<Timed>
  {
    if news == [] then []
    else
      var n := |news| - 1;
      Due(image, news[..n], made)
      + Stamped(Advance(TotalChunks(image), PhaseOf(image, news[..n]), news[n].answer).1, made + |news|)
  }

  lemma DueNone(image: Bytes, made: nat)
    ensures Due(image, [], made) == []
  {
  }

  lemma StampedFew(at: nat, p: Progress, log: seq<Timed>)
    ensures log + Stamped([], at) == log && Stamped([p], at) == [(p, at)]
  {
  }

  lemma {:induction false} DueReports(image: Bytes, news: seq<Asked>, made: nat)
    ensures Firsts(Due(image, news, made)) == ReportsOf(image, news)
  {
    hide Advance, PhaseAfter, TotalChunks;
    if news != [] {
      var n := |news| - 1;
      DueReports(image, news[..n], made);
      assert Answers(news)[..n] == Answers(news[..n]);
      var more := Advance(TotalChunks(image), PhaseOf(image, news[..n]), news[n].answer).1;
      ReportsSum(Due(image, news[..n], made), more, made + |news|);
    }
  }

  lemma ReportsSum(log: seq<Timed>, more: seq<Progress>, at: nat)
    ensures Firsts(log + Stamped(more, at)) == Firsts(log) + more
  {
  }

  /** `payload` is what an upload in phase `p` asks next. */
  predicate Asks(image: Bytes, p: Phase, payload: Bytes)
  {
    !p.Finished? && InRange(TotalChunks(image), p) && payload == PayloadIn(image, p)
  }

  /** These requests are the ones the upload makes when it gets these answers. */
  ghost predicate Recorded(image: Bytes, news: seq<Asked>, cap: nat)
  {
    && AllAsked(TotalChunks(image), Answers(news))
    && forall i :: 0 <= i < |news| ==>
         && news[i].subtype == 8
         && news[i].payload == PayloadAt(image, Answers(news), i)
         && (news[i].answer.Panicked? <==> Overflows(news[i].payload, cap))
  }

  lemma RecordedNone(image: Bytes, cap: nat)
    ensures Recorded(image, [], cap) && PhaseOf(image, []) == Announcing
  {
  }

  /** The first request recorded tells the board the image's size. */
  lemma RecordedSize(image: Bytes, news: seq<Asked>, cap: nat)
    requires Recorded(image, news, cap) && news != [] && |image| < 0x1_0000_0000
    ensures |news[0].payload| == 5 && news[0].payload[0] == 0 && De32(news[0].payload[1..5]) == |image|
  {
    hide PayloadAt, De32, TotalChunks, Overflows;
    SizeAnnounced(image, Answers(news));
  }

  lemma RecordedSnoc(image: Bytes, news: seq<Asked>, a: Asked, cap: nat)
    requires Recorded(image, news, cap) && a.subtype == 8 && Asks(image, PhaseOf(image, news), a.payload)
    requires a.answer.Panicked? <==> Overflows(a.payload, cap)
    ensures Recorded(image, news + [a], cap)
    ensures PhaseOf(image, news + [a]) == Advance(TotalChunks(image), PhaseOf(image, news), a.answer).0
  {
    hide PhaseAfter, Advance, Overflows, PayloadIn, InRange;
    var now := news + [a];
    assert Answers(now) == Answers(news) + [a.answer];
    PhaseLast(TotalChunks(image), Answers(news), a.answer);
    assert forall i :: 0 <= i <= |news| ==> Answers(now)[..i] == Answers(news)[..i];
    assert Answers(news)[..|news|] == Answers(news);
    forall i | 0 <= i < |now|
      ensures !PhaseAfter(TotalChunks(image), Answers(now)[..i]).Finished?
      ensures now[i].payload == PayloadAt(image, Answers(now), i)
    {
    }
  }

  lemma DueSnoc(image: Bytes, news: seq<Asked>, a: Asked, made: nat)
    ensures Due(image, news + [a], made)
         == Due(image, news, made)
            + Stamped(Advance(TotalChunks(image), PhaseOf(image, news), a.answer).1, made + |news| + 1)
  {
    hide PhaseOf, Advance, TotalChunks, Stamped;
    assert (news + [a])[..|news|] == news;
  }

  // ── the traffic of many requests ─────────────────────────────────────

  /** What a request makes of the scripts and of the frames sent. */
  function AfterRequest(t: Traffic, a: Asked, retries: byte, mac: Mac, rxCap: nat): Traffic
  {
    if a.answer.Panicked? then t
    else
      var c := Attempts(Query(a.subtype, a.number, rxCap), retries + 1, t.rx, t.tx);
      Traffic(t.rx[c.used..], c.txLeft, t.sent + Copies(TxFrame(a.subtype, a.number, mac, a.payload), c.sent))
  }

  /** The answer is the one that the scripts give. */
  predicate Given(t: Traffic, a: Asked, retries: byte, rxCap: nat)
  {
    a.answer.Panicked? || a.answer == Attempts(Query(a.subtype, a.number, rxCap), retries + 1, t.rx, t.tx).answer
  }

  /** The retries in force for request `i` of an upload. */
  function RetriesAt(image: Bytes, news: seq<Asked>, i: nat): byte
    requires i <= |news|
  {
    RetriesOf(Stage(PhaseOf(image, news[..i])))
  }

  /** The traffic after all requests of an upload, one after the other. */
  function AfterUpload(image: Bytes, t: Traffic, news: seq<Asked>, mac: Mac, rxCap: nat): Traffic
  {
    if news == [] then t
    else
      var n := |news| - 1;
      AfterRequest(AfterUpload(image, t, news[..n], mac, rxCap), news[n], RetriesAt(image, news, n), mac, rxCap)
  }

  /** The number of the `i`-th request after one numbered `number`. */
  function Later(number: u32, i: nat): u32 { (number + i) % 0x1_0000_0000 }

  /** Request `i` has the next number and the answer that the scripts give by then. */
  ghost predicate GivenAt(image: Bytes, t: Traffic, number: u32, news: seq<Asked>, i: nat, mac: Mac, rxCap: nat)
    requires i < |news|
  {
    && news[i].number == Later(number, i + 1)
    && Given(AfterUpload(image, t, news[..i], mac, rxCap), news[i], RetriesAt(image, news, i), rxCap)
  }

  ghost predicate AllGiven(image: Bytes, t: Traffic, number: u32, news: seq<Asked>, mac: Mac, rxCap: nat)
  {
    forall i :: 0 <= i < |news| ==> GivenAt(image, t, number, news, i, mac, rxCap)
  }

  /** Where an upload started: the requests made before, the traffic and the counter. */
  datatype Base = Base(made: nat, traffic: Traffic, number: u32)

  lemma AfterSnoc(image: Bytes, t: Traffic, number: u32, news: seq<Asked>, a: Asked, mac: Mac, rxCap: nat)
    requires AllGiven(image, t, number, news, mac, rxCap) && a.number == Later(number, |news| + 1)
    requires Given(AfterUpload(image, t, news, mac, rxCap), a, RetriesAt(image, news, |news|), rxCap)
    ensures AllGiven(image, t, number, news + [a], mac, rxCap)
    ensures
      AfterUpload(image, t, news + [a], mac, rxCap) ==
      AfterRequest(AfterUpload(image, t, news, mac, rxCap), a, RetriesAt(image, news, |news|), mac, rxCap)
  {
    hide AfterRequest, Given, PhaseOf, RetriesOf, Later, Stage;
    var now := news + [a];
    assert now[..|news|] == news && news[..|news|] == news;
    forall i | 0 <= i < |now|
      ensures GivenAt(image, t, number, now, i, mac, rxCap)
    {
      if i < |news| {
        assert GivenAt(image, t, number, news, i, mac, rxCap);
        assert now[..i] == news[..i] && now[i] == news[i];
      }
    }
  }

  lemma LaterNext(number: u32, i: nat)
    ensures NextNumber(Later(number, i)) == Later(number, i + 1)
  {
  }

  lemma AfterNone(image: Bytes, t: Traffic, number: u32, mac: Mac, rxCap: nat)
    ensures AfterUpload(image, t, [], mac, rxCap) == t && AllGiven(image, t, number, [], mac, rxCap)
  {
  }

  /** With too small a buffer the recorded upload is not done. */
  lemma RecordedOverflow(image: Bytes, news: seq<Asked>, cap: nat)
    requires Recorded(image, news, cap) && InSize(image) && cap < LARGEST_FRAME
    requires PhaseOf(image, news).Finished?
    ensures !PhaseOf(image, news).finish.Done? && !PhaseOf(image, news).finish.VerifyFailed?
  {
    hide PhaseAfter, PayloadAt;
    SmallBufferNeverDone(image, Answers(news), cap);
  }

  class Board {
    const sock: Socket
    const mac: Mac
    const txCap: nat
    const rxCap: nat
    var seqNumber: u32
    var timeout: nat
    var retries: byte
    ghost var asked: seq<Asked>

    constructor (sock: Socket, mac: Mac, txCap: nat, rxCap: nat)
      ensures this.sock == sock && this.mac == mac && this.txCap == txCap && this.rxCap == rxCap
      ensures seqNumber == 0 && timeout == 2000 && retries == DEFAULT_RETRIES && asked == []
    {
      this.sock, this.mac, this.txCap, this.rxCap := sock, mac, txCap, rxCap;
      seqNumber, timeout, retries, asked := 0, 2000, DEFAULT_RETRIES, [];
    }

    ghost function Sock(): Traffic
      reads sock
    {
      Traffic(sock.rx, sock.tx, sock.sent)
    }

    /** Retransmit the same frame until a matching reply, an error, or the last timeout. */
    method Request(subtype: byte, payload: Bytes) returns (answer: Answer)
      modifies this`seqNumber, this`asked, sock
      ensures seqNumber == NextNumber(old(seqNumber))
      ensures asked == old(asked) + [Asked(subtype, seqNumber, payload, answer)]
      ensures answer.Panicked? <==> Overflows(payload, txCap)
      ensures Given(old(Sock()), Asked(subtype, seqNumber, payload, answer), retries, rxCap)
      ensures Sock() == AfterRequest(old(Sock()), Asked(subtype, seqNumber, payload, answer), retries, mac, rxCap)
      ensures answer.Ok? ==> |sock.rx| < |old(sock.rx)|
      ensures sock.rx == old(sock.rx)[|old(sock.rx)| - |sock.rx|..]
      ensures Heard(Query(subtype, seqNumber, rxCap), old(sock.rx)[..|old(sock.rx)| - |sock.rx|], answer)
    {
      hide TxFrame, Attempts, Copies, Overflows, NextNumber, Heard;
      seqNumber := NextNumber(seqNumber);
      if Overflows(payload, txCap) {
        answer := Panicked;
        HeardNothing(Query(subtype, seqNumber, rxCap));
      } else {
        ghost var q, before := Query(subtype, seqNumber, rxCap), Sock();
        AnswerHeard(q, retries + 1, before.rx, before.tx);
        answer := Exchange(subtype, payload);
      }
      asked := asked + [Asked(subtype, seqNumber, payload, answer)];
    }

    /** The frame in a fresh transmit buffer. */
    method Build(subtype: byte, payload: Bytes) returns (frame: Bytes)
      requires !Overflows(payload, txCap)
      ensures frame == TxFrame(subtype, seqNumber, mac, payload)
    {
      var txBuf := new byte[txCap](_ => 0);
      var total := BuildCommandFrame(txBuf, subtype, seqNumber, mac, payload);
      var n := if total > MIN_FRAME then total else MIN_FRAME;
      hide Wire;
      frame := txBuf[..n];
    }

    /** Receive until a matching reply, an error or a timeout; `left` attempts remain with this one. */
    method DrainQueue(q: Query, ghost left: nat) returns (timedOut: bool, answer: Answer, ghost used: nat)
      requires left > 0
      modifies sock
      ensures used <= |old(sock.rx)| && sock.rx == old(sock.rx)[used..] && sock.tx == old(sock.tx) && sock.sent == old(sock.sent)
      ensures !answer.Panicked?
      ensures !timedOut ==> Drain(q, left, old(sock.rx), sock.tx) == Course(answer, used, 0, sock.tx)
      ensures timedOut && left == 1 ==> Drain(q, left, old(sock.rx), sock.tx) == Course(Timeout, used, 0, sock.tx)
      ensures timedOut && left > 1 ==>
        Drain(q, left, old(sock.rx), sock.tx) == After(Attempts(q, left - 1, sock.rx, sock.tx), used, 0)
      ensures !timedOut ==> Heard(q, old(sock.rx)[..used], answer)
    {
      hide Look, Attempts, Heard;
      DrainHeard(q, left, sock.rx, sock.tx);
      ghost var rx0 := sock.rx;
      used := 0;
      while sock.rx != []
        invariant used <= |rx0| && sock.rx == rx0[used..] && sock.tx == old(sock.tx) && sock.sent == old(sock.sent)
        invariant Drain(q, left, rx0, sock.tx) == After(Drain(q, left, sock.rx, sock.tx), used, 0)
        decreases |sock.rx|
      {
        var o := sock.Recv();
        used := used + 1;
        assert rx0[used - 1..][1..] == rx0[used..];
        match o
        case Failed => return false, IoError, used;
        case WouldBlock => return true, Timeout, used;
        case Data(bytes) =>
          match Look(q, bytes)
          case Skip =>
          case Corrupt => return false, BadFrame, used;
          case Accept(p) => return false, Ok(p), used;
      }
      return false, Starved, used;
    }

    /** One send and the draining after it. */
    method OneAttempt(frame: Bytes, q: Query, ghost left: nat)
      returns (timedOut: bool, answer: Answer, ghost used: nat, ghost sent: nat)
      requires left > 0
      modifies sock
      ensures used <= |old(sock.rx)| && sock.rx == old(sock.rx)[used..] && sock.sent == old(sock.sent) + Copies(frame, sent)
      ensures !answer.Panicked?
      ensures !timedOut ==> Attempts(q, left, old(sock.rx), old(sock.tx)) == Course(answer, used, sent, sock.tx)
      ensures timedOut && left == 1 ==> Attempts(q, left, old(sock.rx), old(sock.tx)) == Course(Timeout, used, sent, sock.tx)
      ensures timedOut && left > 1 ==>
        Attempts(q, left, old(sock.rx), old(sock.tx)) == After(Attempts(q, left - 1, sock.rx, sock.tx), used, sent)
    {
      hide Drain, Attempts, Copies;
      AttemptsStep(q, left, sock.rx, sock.tx);
      CopiesNone(frame);
      CopiesSnoc(frame, 0);
      var ok := sock.Send(frame);
      if !ok {
        return false, IoError, 0, 0;
      }
      timedOut, answer, used := DrainQueue(q, left);
      sent := 1;
    }

    /** The attempts of one request. */
    method Exchange(subtype: byte, payload: Bytes) returns (answer: Answer)
      requires !Overflows(payload, txCap)
      modifies sock
      ensures
        var c := Attempts(Query(subtype, seqNumber, rxCap), retries + 1, old(sock.rx), old(sock.tx));
        && answer == c.answer && !answer.Panicked? && sock.rx == old(sock.rx)[c.used..] && sock.tx == c.txLeft
        && sock.sent == old(sock.sent) + Copies(TxFrame(subtype, seqNumber, mac, payload), c.sent)
    {
      hide TxFrame, Drain, Attempts, Copies, Overflows, After, Reached;
      var frame := Build(subtype, payload);
      var q := Query(subtype, seqNumber, rxCap);
      ghost var rx0, sent0 := sock.rx, sock.sent;
      ghost var whole := Attempts(q, retries + 1, sock.rx, sock.tx);
      ghost var used: nat, sent: nat := 0, 0;
      SentMore(sent0, frame, 0, 0);
      ReachedNone(q, rx0, sock.tx, retries + 1);
      for attempt := 0 to retries + 1
        invariant sock.sent == sent0 + Copies(frame, sent)
        invariant Reached(q, whole, rx0, sock.rx, sock.tx, used, sent, retries + 1 - attempt)
      {
        ghost var left, rx, tx := retries + 1 - attempt, sock.rx, sock.tx;
        ghost var more, moreSent;
        var timedOut;
        timedOut, answer, more, moreSent := OneAttempt(frame, q, left);
        SentMore(sent0, frame, sent, moreSent);
        if !timedOut {
          ReachedEnd(q, whole, rx0, rx, tx, used, sent, left, sock.rx, sock.tx, answer, more, moreSent);
          return answer;
        }
        ReachedMore(q, whole, rx0, rx, tx, used, sent, left, sock.rx, sock.tx, more, moreSent);
        used, sent := used + more, sent + moreSent;
      }
      ReachedLast(q, whole, rx0, sock.rx, sock.tx, used, sent);
      answer := Timeout;
    }

    /** The traffic so far is that of the requests so far. */
    ghost predicate Passed(image: Bytes, news: seq<Asked>, base: Base)
      reads this`seqNumber, sock
    {
      && Sock() == AfterUpload(image, base.traffic, news, mac, rxCap)
      && AllGiven(image, base.traffic, base.number, news, mac, rxCap)
      && seqNumber == Later(base.number, |news|)
    }

    lemma PassedNone(image: Bytes, base: Base)
      requires base.traffic == Sock() && base.number == seqNumber
      ensures Passed(image, [], base)
    {
      AfterNone(image, base.traffic, base.number, mac, rxCap);
    }

    /** One opcode-8 request of an upload. */
    method Ask(image: Bytes, payload: Bytes, ghost news: seq<Asked>, ghost base: Base)
      returns (answer: Answer, ghost a: Asked)
      requires Recorded(image, news, txCap) && Asks(image, PhaseOf(image, news), payload)
      requires Passed(image, news, base) && retries == RetriesOf(Stage(PhaseOf(image, news)))
      modifies this`seqNumber, this`asked, sock
      ensures asked == old(asked) + [a] && a.answer == answer
      ensures Recorded(image, news + [a], txCap) && Passed(image, news + [a], base)
      ensures PhaseOf(image, news + [a]) == Advance(TotalChunks(image), PhaseOf(image, news), answer).0
      ensures answer.Ok? ==> |sock.rx| < |old(sock.rx)|
    {
      hide Advance, PhaseOf, Asks, Attempts, TxFrame, Overflows, Copies, Recorded, AfterUpload, AfterRequest, AllGiven, Given,
        RetriesOf, Stage, Later, NextNumber;
      assert news[..|news|] == news;
      LaterNext(base.number, |news|);
      answer := Request(8, payload);
      a := Asked(8, seqNumber, payload, answer);
      RecordedSnoc(image, news, a, txCap);
      AfterSnoc(image, base.traffic, base.number, news, a, mac, rxCap);
    }

    /** The reports due so far have been given. */
    ghost predicate Told(ear: Requester, image: Bytes, news: seq<Asked>, base: Base)
      reads this`asked, ear, ear.state, ear.outbox
    {
      ear.Valid() && ear.log == Due(image, news, base.made) && |asked| == base.made + |news|
    }

    /** The report that the last answer calls for. */
    method Tell(ear: Requester, p: Progress, image: Bytes, ghost news: seq<Asked>, ghost a: Asked, ghost base: Base)
      requires ear.Valid() && ear.log == Due(image, news, base.made) && |asked| == base.made + |news| + 1
      requires Advance(TotalChunks(image), PhaseOf(image, news), a.answer).1 == [p]
      modifies ear`log, ear.state, ear.outbox
      ensures Told(ear, image, news + [a], base)
    {
      hide Advance, PhaseOf, Due, Stamped, TotalChunks;
      DueSnoc(image, news, a, base.made);
      StampedFew(|asked|, p, ear.log);
      ear.Hear(p, |asked|);
    }

    /** The last answer calls for no report. */
    lemma TellNothing(ear: Requester, image: Bytes, news: seq<Asked>, a: Asked, base: Base)
      requires ear.Valid() && ear.log == Due(image, news, base.made) && |asked| == base.made + |news| + 1
      requires Advance(TotalChunks(image), PhaseOf(image, news), a.answer).1 == []
      ensures Told(ear, image, news + [a], base)
    {
      hide Advance, PhaseOf, Due, Stamped, TotalChunks;
      DueSnoc(image, news, a, base.made);
      StampedFew(|asked|, Progress(0, 0), ear.log);
    }

    /** The four stages. Requests, reports and result are those of the state machine fed with the answers, each
        report given as soon as it is due; the timeout and the retries are put back except when a request fails. */
    method FirmwareUpgrade(image: Bytes, ear: Requester) returns (finish: Finish, ghost news: seq<Asked>)
      requires ear.Valid() && ear.log == []
      modifies this`seqNumber, this`asked, this`timeout, this`retries, sock, ear`log, ear.state, ear.outbox
      ensures asked == old(asked) + news && Recorded(image, news, txCap) && news != []
      ensures PhaseOf(image, news) == Finished(finish)
      ensures
        var base := Base(|old(asked)|, old(Sock()), old(seqNumber));
        Told(ear, image, news, base) && Passed(image, news, base)
      ensures !finish.Broke? ==> timeout == old(timeout) && retries == old(retries)
      ensures finish.Broke? ==> Settings(Stage(PhaseOf(image, news[..|news| - 1])))
      ensures InSize(image) && txCap < LARGEST_FRAME ==> !finish.Done? && !finish.VerifyFailed?
    {
      hide Passed, PhaseOf, Due, Refused, ReplyWord, ReplyStatus, TotalChunks, Recorded, Percent, Reports, NextChunk,
        ChunkPayload, AnnouncePayload, PhaseAfter, Overflows;
      var savedTimeout, savedRetries := timeout, retries;
      var total := TotalChunks(image);
      ghost var base := Base(|asked|, Sock(), seqNumber);
      news := [];
      RecordedNone(image, txCap);
      DueNone(image, base.made);
      PassedNone(image, base);

      timeout, retries := TimeoutOf(STAGE_ANNOUNCE), RetriesOf(STAGE_ANNOUNCE);
      var answer;
      ghost var a;
      answer, a := Ask(image, AnnouncePayload(|image| % 0x1_0000_0000), [], base);
      news := [a];
      assert news[..0] == [] && [] + [a] == news;
      if !answer.Ok? {
        TellNothing(ear, image, [], a, base);
        finish := Broke(answer);
      } else if Refused(answer.payload) {
        TellNothing(ear, image, [], a, base);
        timeout, retries := savedTimeout, savedRetries;
        finish := Rejected;
      } else {
        Tell(ear, Progress(STAGE_ANNOUNCE, 0), image, [], a, base);
        finish, news := Proceed(image, total, ear, news, base, savedTimeout, savedRetries);
      }
      if InSize(image) && txCap < LARGEST_FRAME {
        RecordedOverflow(image, news, txCap);
      }
    }

    /** Stages 1 to 3. */
    method Proceed(image: Bytes, total: u32, ear: Requester, ghost before: seq<Asked>, ghost base: Base,
                   savedTimeout: nat, savedRetries: byte)
      returns (finish: Finish, ghost news: seq<Asked>)
      requires total == TotalChunks(image) && Recorded(image, before, txCap) && Told(ear, image, before, base) && Passed(image, before, base)
      requires PhaseOf(image, before) == StreamFrom(0, 0, total)
      modifies this`seqNumber, this`asked, this`timeout, this`retries, sock, ear`log, ear.state, ear.outbox
      ensures |before| <= |news| && news[..|before|] == before && asked == old(asked) + news[|before|..]
      ensures Recorded(image, news, txCap) && Told(ear, image, news, base) && Passed(image, news, base)
      ensures news != [] && PhaseOf(image, news) == Finished(finish)
      ensures !finish.Broke? ==> timeout == savedTimeout && retries == savedRetries
      ensures finish.Broke? ==> Settings(Stage(PhaseOf(image, news[..|news| - 1])))
    {
      hide Passed, PhaseOf, Due, TotalChunks, Recorded, StreamFrom;
      timeout, retries := TimeoutOf(STAGE_STREAM), RetriesOf(STAGE_STREAM);
      var streamed, answer;
      streamed, answer, news := Stream(image, total, ear, before, base);
      if !streamed {
        finish := Broke(answer);
      } else {
        ghost var rest;
        finish, rest := Conclude(image, ear, news, base, savedTimeout, savedRetries);
        assert (news + rest)[..|news + rest| - 1] == news + rest[..|rest| - 1];
        assert (news + rest)[..|before|] == before;
        news := news + rest;
      }
    }

    /** Stages 2 and 3. */
    method Conclude(image: Bytes, ear: Requester, ghost before: seq<Asked>, ghost base: Base,
                    savedTimeout: nat, savedRetries: byte)
      returns (finish: Finish, ghost rest: seq<Asked>)
      requires Recorded(image, before, txCap) && PhaseOf(image, before) == Verifying && Told(ear, image, before, base) && Passed(image, before, base)
      modifies this`seqNumber, this`asked, this`timeout, this`retries, sock, ear`log, ear.state, ear.outbox
      ensures rest != [] && asked == old(asked) + rest && Recorded(image, before + rest, txCap)
      ensures PhaseOf(image, before + rest) == Finished(finish) && Told(ear, image, before + rest, base) && Passed(image, before + rest, base)
      ensures !finish.Broke? ==> timeout == savedTimeout && retries == savedRetries
      ensures finish.Broke? ==> Settings(Stage(PhaseOf(image, before + rest[..|rest| - 1])))
    {
      hide Passed, PhaseOf, Due, Refused, ReplyWord, ReplyStatus, TotalChunks, Recorded, Overflows, StreamFrom, Reports, NextChunk;
      timeout, retries := TimeoutOf(STAGE_VERIFY), RetriesOf(STAGE_VERIFY);
      var answer;
      ghost var a;
      answer, a := Ask(image, [STAGE_VERIFY], before, base);
      rest := [a];
      assert before + rest[..0] == before;
      if !answer.Ok? {
        TellNothing(ear, image, before, a, base);
        finish := Broke(answer);
      } else if Refused(answer.payload) {
        TellNothing(ear, image, before, a, base);
        timeout, retries := savedTimeout, savedRetries;
        finish := VerifyFailed;
      } else {
        Tell(ear, Progress(STAGE_VERIFY, 0), image, before, a, base);
        ghost var b;
        finish, b := Complete(image, ear, before + [a], base, savedTimeout, savedRetries);
        rest := [a, b];
        assert rest[..1] == [a] && before + [a] + [b] == before + rest;
      }
    }

    /** Stage 3. */
    method Complete(image: Bytes, ear: Requester, ghost before: seq<Asked>, ghost base: Base,
                    savedTimeout: nat, savedRetries: byte)
      returns (finish: Finish, ghost a: Asked)
      requires Recorded(image, before, txCap) && PhaseOf(image, before) == Completing && Told(ear, image, before, base) && Passed(image, before, base)
      modifies this`seqNumber, this`asked, this`timeout, this`retries, sock, ear`log, ear.state, ear.outbox
      ensures asked == old(asked) + [a] && Recorded(image, before + [a], txCap)
      ensures PhaseOf(image, before + [a]) == Finished(finish)
      ensures Told(ear, image, before + [a], base) && Passed(image, before + [a], base)
      ensures !finish.Broke? ==> timeout == savedTimeout && retries == savedRetries
      ensures finish.Broke? ==> Settings(STAGE_COMPLETE)
    {
      hide Passed, PhaseOf, Due, Refused, ReplyWord, ReplyStatus, TotalChunks, Recorded, Overflows, StreamFrom, Reports, NextChunk;
      timeout, retries := TimeoutOf(STAGE_COMPLETE), RetriesOf(STAGE_COMPLETE);
      var answer;
      answer, a := Ask(image, [STAGE_COMPLETE], before, base);
      if !answer.Ok? {
        TellNothing(ear, image, before, a, base);
        finish := Broke(answer);
      } else {
        var word := ReplyWord(answer.payload);
        Tell(ear, Progress(STAGE_COMPLETE, 0), image, before, a, base);
        timeout, retries := savedTimeout, savedRetries;
        finish := Done(if word.Some? then word.value else 0, ReplyStatus(answer.payload));
      }
    }

    /** The documented timeout, in milliseconds, and retries of a stage are in force. */
    ghost predicate Settings(stage: byte)
      reads this
    {
      if stage == 0 then timeout == 1500 && retries == 5
      else if stage == 1 then timeout == 300 && retries == 20
      else timeout == 60_000 && retries == 20
    }

    /** Stage 1: one request for each chunk that the acknowledgements leave to be sent. */
    method Stream(image: Bytes, total: u32, ear: Requester, ghost before: seq<Asked>, ghost base: Base)
      returns (streamed: bool, answer: Answer, ghost news: seq<Asked>)
      requires total == TotalChunks(image) && Recorded(image, before, txCap) && Told(ear, image, before, base) && Passed(image, before, base)
      requires PhaseOf(image, before) == StreamFrom(0, 0, total) && retries == RetriesOf(STAGE_STREAM)
      modifies this`seqNumber, this`asked, sock, ear`log, ear.state, ear.outbox
      ensures |before| <= |news| && news[..|before|] == before && asked == old(asked) + news[|before|..]
      ensures Recorded(image, news, txCap) && Told(ear, image, news, base) && Passed(image, news, base)
      ensures streamed ==> PhaseOf(image, news) == Verifying
      ensures !streamed ==> news != [] && PhaseOf(image, news) == Finished(Broke(answer))
      ensures !streamed ==> PhaseOf(image, news[..|news| - 1]).Streaming?
    {
      hide Passed, PhaseOf, Due, ReplyWord, ReplyStatus, Refused, TotalChunks, Recorded, Percent, Chunk, Be16;
      var chunkIdx: u32 := 0;
      var lastPct: byte := 0;
      news := before;
      while chunkIdx < total
        invariant |before| <= |news| && news[..|before|] == before && asked == old(asked) + news[|before|..]
        invariant Recorded(image, news, txCap) && Told(ear, image, news, base) && Passed(image, news, base)
        invariant PhaseOf(image, news) == StreamFrom(chunkIdx, lastPct, total)
        decreases |sock.rx|, total - chunkIdx
      {
        ghost var a;
        ghost var sent := news;
        answer, a := Ask(image, ChunkPayload(image, chunkIdx), news, base);
        assert (news + [a])[..|news|] == news;
        news := news + [a];
        if !answer.Ok? {
          TellNothing(ear, image, sent, a, base);
          return false, answer, news;
        }
        chunkIdx := NextChunk(chunkIdx, answer.payload);
        var pct := Percent(chunkIdx, total);
        if pct >= (lastPct + 10) % 0x100 || chunkIdx == total {
          lastPct := pct;
          Tell(ear, Progress(STAGE_STREAM, pct), image, sent, a, base);
        } else {
          TellNothing(ear, image, sent, a, base);
        }
      }
      streamed := true;
      answer := Starved;
    }
  }
}
