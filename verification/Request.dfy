/** One request to the board: retransmission, draining, and what decides the answer. */
module Request {
  import opened Bytes
  import opened Checksum
  import opened Frame
  import CrcDetect

  /** What one receive call returns; `WouldBlock` is the 2 s timeout. */
  datatype Outcome = Data(bytes: Bytes) | WouldBlock | Failed

  /** `Starved` means the script of outcomes ended while the call was still waiting;
      `Panicked` that the process aborted. */
  datatype Answer = Ok(payload: Bytes) | Timeout | BadFrame | IoError | Panicked | Starved

  /** The fields a reply must repeat, and the size of the receive buffer. */
  datatype Query = Query(subtype: byte, number: u32, cap: nat)

  datatype Sight = Skip | Accept(payload: Bytes) | Corrupt

  /** What the drain loop makes of one received frame, cut to the receive buffer. */
  function Look(q: Query, bytes: Bytes): Sight
  {
    var f := bytes[..Min(|bytes|, q.cap)];
    if !Parses(f) then Skip
    else if Magic(f) != MAGIC_RESPONSE || Subtype(f) != q.subtype || Number(f) != q.number then Skip
    else if !VerifyChecksum(f) then Corrupt
    else Accept(Payload(f))
  }

  /** The answer, the receive outcomes used up, the frames handed to the link, and the send outcomes left. */
  datatype Course = Course(answer: Answer, used: nat, sent: nat, txLeft: seq<bool>)

  /** A send and all that follows it, with `left` attempts still allowed. */
  function Attempts(q: Query, left: nat, rx: seq<Outcome>, tx: seq<bool>): (c: Course)
    requires left > 0
    ensures c.used <= |rx| && c.sent <= left && (c.answer.Ok? ==> c.used > 0)
    decreases |rx|, 1
  {
    if tx != [] && !tx[0] then Course(IoError, 0, 0, tx[1..])
    else
      var c := Drain(q, left, rx, if tx == [] then [] else tx[1..]);
      c.(sent := c.sent + 1)
  }

  function Drain(q: Query, left: nat, rx: seq<Outcome>, tx: seq<bool>): (c: Course)
    requires left > 0
    ensures c.used <= |rx| && c.sent < left && (c.answer.Ok? ==> c.used > 0)
    decreases |rx|, 0
  {
    if rx == [] then Course(Starved, 0, 0, tx)
    else
      match rx[0]
      case Failed => Course(IoError, 1, 0, tx)
      case WouldBlock =>
        if left == 1 then Course(Timeout, 1, 0, tx)
        else
          var c := Attempts(q, left - 1, rx[1..], tx);
          c.(used := c.used + 1)
      case Data(b) =>
        match Look(q, b)
        case Skip =>
          var c := Drain(q, left, rx[1..], tx);
          c.(used := c.used + 1)
        case Corrupt => Course(BadFrame, 1, 0, tx)
        case Accept(p) => Course(Ok(p), 1, 0, tx)
  }

  // ── the simple search ────────────────────────────────────────────────

  /** An outcome that ends the request whatever the number of attempts. */
  predicate Decisive(q: Query, o: Outcome)
  {
    o.Failed? || (o.Data? && !Look(q, o.bytes).Skip?)
  }

  /** How many timeouts there are among `rx`. */
  function Timeouts(rx: seq<Outcome>): nat
  {
    if rx == [] then 0 else Timeouts(rx[..|rx| - 1]) + if rx[|rx| - 1].WouldBlock? then 1 else 0
  }

  lemma {:induction false} TimeoutsCons(o: Outcome, rx: seq<Outcome>)
    ensures Timeouts([o] + rx) == (if o.WouldBlock? then 1 else 0) + Timeouts(rx)
  {
    if rx == [] {
      assert ([o] + rx)[..0] == [];
    } else {
      var n := |rx|;
      assert ([o] + rx)[..n] == [o] + rx[..n - 1];
      TimeoutsCons(o, rx[..n - 1]);
    }
  }

  /** Outcome `k` is the first decisive one, or timeout number `retries + 1`. */
  ghost predicate Stops(q: Query, retries: nat, rx: seq<Outcome>, k: nat)
  {
    && k < |rx|
    && (forall j :: 0 <= j < k ==> !Decisive(q, rx[j]))
    && Timeouts(rx[..k]) <= retries
    && (Decisive(q, rx[k]) || (rx[k].WouldBlock? && Timeouts(rx[..k]) == retries))
  }

  function Verdict(q: Query, o: Outcome): Answer
    requires Decisive(q, o) || o.WouldBlock?
  {
    match o
    case Failed => IoError
    case WouldBlock => Timeout
    case Data(b) => if Look(q, b).Corrupt? then BadFrame else Ok(Look(q, b).payload)
  }

  /** The request is that search: outcome `k` and nothing else decides it, after one frame
      for each timeout before it and one more. Sending succeeds here. */
  lemma {:induction false} SearchDecides(q: Query, retries: nat, rx: seq<Outcome>, k: nat)
    requires Stops(q, retries, rx, k)
    ensures Attempts(q, retries + 1, rx, []) == Course(Verdict(q, rx[k]), k + 1, Timeouts(rx[..k]) + 1, [])
    decreases |rx|
  {
    hide Look;
    if k == 0 {
    } else {
      StopsTail(q, retries, rx, k);
      if rx[0].WouldBlock? {
        SearchDecides(q, retries - 1, rx[1..], k - 1);
      } else {
        SearchDecides(q, retries, rx[1..], k - 1);
      }
      TimeoutsCons(rx[0], rx[1..k]);
      assert rx[..k] == [rx[0]] + rx[1..k] && rx[1..][..k - 1] == rx[1..k];
    }
  }

  lemma StopsTail(q: Query, retries: nat, rx: seq<Outcome>, k: nat)
    requires Stops(q, retries, rx, k) && k > 0
    ensures rx[0].WouldBlock? ==> retries > 0 && Stops(q, retries - 1, rx[1..], k - 1)
    ensures !rx[0].WouldBlock? ==> Stops(q, retries, rx[1..], k - 1)
  {
    hide Look;
    TimeoutsCons(rx[0], rx[1..k]);
    assert rx[..k] == [rx[0]] + rx[1..k] && rx[1..][..k - 1] == rx[1..k];
    assert forall j :: 0 <= j < k - 1 ==> rx[1..][j] == rx[j + 1];
  }

  lemma StopsCons(q: Query, retries: nat, fewer: int, rx: seq<Outcome>, k: nat)
    requires rx != [] && !Decisive(q, rx[0]) && fewer >= 0
    requires fewer == if rx[0].WouldBlock? then retries - 1 else retries
    ensures Stops(q, fewer, rx[1..], k) ==> Stops(q, retries, rx, k + 1)
  {
    hide Look;
    if Stops(q, fewer, rx[1..], k) {
      TimeoutsCons(rx[0], rx[1..k + 1]);
      assert rx[..k + 1] == [rx[0]] + rx[1..k + 1] && rx[1..][..k] == rx[1..k + 1];
      assert forall j :: 0 < j < k + 1 ==> rx[j] == rx[1..][j - 1];
    }
  }

  /** Without such an outcome the request is still waiting when the script ends. */
  lemma {:induction false} SearchStarves(q: Query, retries: nat, rx: seq<Outcome>)
    requires forall k :: 0 <= k < |rx| ==> !Stops(q, retries, rx, k)
    ensures Attempts(q, retries + 1, rx, []) == Course(Starved, |rx|, Timeouts(rx) + 1, [])
    decreases |rx|
  {
    hide Look;
    if rx != [] {
      assert !Stops(q, retries, rx, 0);
      assert rx[..0] == [] && rx == [rx[0]] + rx[1..];
      TimeoutsCons(rx[0], rx[1..]);
      var fewer := if rx[0].WouldBlock? then retries - 1 else retries;
      forall k | 0 <= k < |rx[1..]|
        ensures !Stops(q, fewer, rx[1..], k)
      {
        StopsCons(q, retries, fewer, rx, k);
      }
      SearchStarves(q, fewer, rx[1..]);
    }
  }

  // ── one outcome at a time ────────────────────────────────────────────

  /** A request in progress with attempts left, this one included, or its answer. */
  datatype Reaction = Waiting(left: nat) | Answered(answer: Answer)

  /** How a waiting request takes one receive outcome; fewer attempts left means a retransmission. */
  function React(q: Query, left: nat, o: Outcome): (r: Reaction)
    requires left > 0
    ensures r.Waiting? ==> 0 < r.left <= left
  {
    match o
    case Failed => Answered(IoError)
    case WouldBlock => if left == 1 then Answered(Timeout) else Waiting(left - 1)
    case Data(b) =>
      match Look(q, b)
      case Skip => Waiting(left)
      case Corrupt => Answered(BadFrame)
      case Accept(p) => Answered(Ok(p))
  }

  function ReactAll(q: Query, left: nat, rx: seq<Outcome>): Reaction
    requires left > 0
    decreases |rx|
  {
    if rx == [] then Waiting(left)
    else
      var r := React(q, left, rx[0]);
      if r.Answered? then r else ReactAll(q, r.left, rx[1..])
  }

  /** Reacting to the outcomes one by one is running the request on them. */
  lemma {:induction false} ReactIsRequest(q: Query, left: nat, rx: seq<Outcome>)
    requires left > 0
    ensures
      var answer := Attempts(q, left, rx, []).answer;
      var r := ReactAll(q, left, rx);
      if r.Answered? then answer == r.answer else answer.Starved?
    decreases |rx|
  {
    hide Look;
    if rx != [] {
      var r := React(q, left, rx[0]);
      if r.Waiting? {
        ReactIsRequest(q, r.left, rx[1..]);
      }
    }
  }

  // ── what an answer tells ─────────────────────────────────────────────

  /** As much of a frame as the receive buffer holds. */
  function Held(q: Query, bytes: Bytes): Bytes { bytes[..Min(|bytes|, q.cap)] }

  /** The outcome is a frame that parses as a response with the query's opcode and number. */
  predicate Replies(q: Query, o: Outcome)
  {
    o.Data? && Parses(Held(q, o.bytes)) && Magic(Held(q, o.bytes)) == 0x10
    && Subtype(Held(q, o.bytes)) == q.subtype && Number(Held(q, o.bytes)) == q.number
  }

  /** How an answer comes from the outcomes consumed: the first reply among them is the last outcome consumed; it is the
      answer, payload and all, if its checksum is right, and a bad frame if it is not. */
  ghost predicate Heard(q: Query, consumed: seq<Outcome>, answer: Answer)
  {
    && (forall j :: 0 <= j < |consumed| - 1 ==> !Replies(q, consumed[j]) && !consumed[j].Failed?)
    && (consumed != [] && consumed[|consumed| - 1].Failed? ==> answer == IoError)
    && var reply := consumed != [] && Replies(q, consumed[|consumed| - 1]);
       && (answer.Ok? <==> reply && VerifyChecksum(Held(q, consumed[|consumed| - 1].bytes)))
       && (answer.Ok? ==> answer.payload == Payload(Held(q, consumed[|consumed| - 1].bytes)))
       && (answer.BadFrame? <==> reply && !VerifyChecksum(Held(q, consumed[|consumed| - 1].bytes)))
  }

  lemma HeardCons(q: Query, o: Outcome, consumed: seq<Outcome>, answer: Answer)
    requires Heard(q, consumed, answer) && !Replies(q, o) && !o.Failed?
    ensures Heard(q, [o] + consumed, answer)
  {
    hide VerifyChecksum, Parses, Magic, Subtype, Number, Payload, Held;
    var now := [o] + consumed;
    assert forall j :: 0 < j < |now| ==> now[j] == consumed[j - 1];
  }

  lemma HeardNothing(q: Query)
    ensures Heard(q, [], Panicked)
  {
  }

  lemma LookReplies(q: Query, bytes: Bytes)
    ensures
      var f := Held(q, bytes);
      && (Look(q, bytes).Skip? <==> !Replies(q, Data(bytes)))
      && (Look(q, bytes).Corrupt? <==> Replies(q, Data(bytes)) && !VerifyChecksum(f))
      && (Look(q, bytes).Accept? ==> Look(q, bytes).payload == Payload(f))
  {
    hide VerifyChecksum, Parses;
  }

  /** Every request, whatever is sent and received, is answered like that. */
  lemma {:induction false} AnswerHeard(q: Query, left: nat, rx: seq<Outcome>, tx: seq<bool>)
    requires left > 0
    ensures
      var c := Attempts(q, left, rx, tx);
      Heard(q, rx[..c.used], c.answer)
    decreases |rx|, 1
  {
    hide Replies, VerifyChecksum, Payload;
    if tx == [] || tx[0] {
      DrainHeard(q, left, rx, if tx == [] then [] else tx[1..]);
    }
  }

  lemma {:induction false} DrainHeard(q: Query, left: nat, rx: seq<Outcome>, tx: seq<bool>)
    requires left > 0
    ensures
      var c := Drain(q, left, rx, tx);
      Heard(q, rx[..c.used], c.answer)
    decreases |rx|, 0
  {
    hide Look, VerifyChecksum, Parses, Held, Attempts, Magic, Subtype, Number, Payload;
    if rx != [] {
      var c := Drain(q, left, rx, tx);
      if rx[0].Data? {
        LookReplies(q, rx[0].bytes);
      }
      if rx[0].WouldBlock? && left > 1 {
        AnswerHeard(q, left - 1, rx[1..], tx);
        assert rx[1..][..c.used - 1] == rx[1..c.used];
        HeardCons(q, rx[0], rx[1..c.used], c.answer);
      } else if rx[0].Data? && Look(q, rx[0].bytes).Skip? {
        DrainHeard(q, left, rx[1..], tx);
        assert rx[1..][..c.used - 1] == rx[1..c.used];
        HeardCons(q, rx[0], rx[1..c.used], c.answer);
      }
      assert c.used > 0 ==> rx[..c.used] == [rx[0]] + rx[1..c.used];
    }
  }

  /** The first reply before the timeouts run out decides the request. */
  lemma FirstReplyDecides(q: Query, retries: nat, rx: seq<Outcome>, k: nat)
    requires k < |rx| && Replies(q, rx[k]) && Timeouts(rx[..k]) <= retries
    requires forall j :: 0 <= j < k ==> !Replies(q, rx[j]) && !rx[j].Failed?
    ensures
      var f := Held(q, rx[k].bytes);
      Attempts(q, retries + 1, rx, []) ==
      Course(if VerifyChecksum(f) then Ok(Payload(f)) else BadFrame, k + 1, Timeouts(rx[..k]) + 1, [])
  {
    hide Look, VerifyChecksum, Parses, Attempts, Timeouts;
    forall j | 0 <= j <= k && rx[j].Data?
      ensures Look(q, rx[j].bytes).Skip? <==> !Replies(q, rx[j])
    {
      LookReplies(q, rx[j].bytes);
    }
    LookReplies(q, rx[k].bytes);
    SearchDecides(q, retries, rx, k);
  }

  /** Only payload bytes differ. */
  predicate PayloadHit(f: Bytes, g: Bytes)
    requires Parses(f)
  {
    |f| == |g| && forall i :: 0 <= i < |f| && f[i] != g[i] ==> OFF_PAYLOAD <= i < OFF_PAYLOAD + PayloadLen(f)
  }

  lemma HitReplies(q: Query, f: Bytes, g: Bytes)
    requires Parses(f) && PayloadHit(f, g) && |f| <= q.cap
    ensures Held(q, f) == f && Held(q, g) == g
    ensures PayloadLen(f) == PayloadLen(g) && (Replies(q, Data(f)) <==> Replies(q, Data(g)))
  {
    hide De16, De32;
    assert f[OFF_SEQ..OFF_SEQ + 4] == g[OFF_SEQ..OFF_SEQ + 4];
  }

  /** A good reply whose payload is hit on the way by a burst of at most 16 bits, or in an odd number of bits, makes the
      request a bad frame; it is neither skipped nor answered. */
  lemma DamagedReply(q: Query, retries: nat, rx: seq<Outcome>, k: nat, f: Bytes, p: nat)
    requires k < |rx| && rx[k].Data? && Timeouts(rx[..k]) <= retries
    requires forall j :: 0 <= j < k ==> !Replies(q, rx[j]) && !rx[j].Failed?
    requires Replies(q, Data(f)) && VerifyChecksum(f) && |f| <= q.cap && PayloadHit(f, rx[k].bytes)
    requires
      Burst(f, rx[k].bytes, p)
      || CrcDetect.Odd(XorBits(CrcDetect.DataBits(f[OFF_MAGIC..CoverEnd(f)]), CrcDetect.DataBits(rx[k].bytes[OFF_MAGIC..CoverEnd(f)])))
    ensures Attempts(q, retries + 1, rx, []) == Course(BadFrame, k + 1, Timeouts(rx[..k]) + 1, [])
  {
    hide Replies, VerifyChecksum, Attempts, Timeouts, Burst, CrcDetect.Odd, CrcDetect.DataBits;
    var g := rx[k].bytes;
    HeldWhole(q, f);
    HitReplies(q, f, g);
    FirstReplyDecides(q, retries, rx, k);
    if Burst(f, g, p) {
      BurstRejected(f, g, p);
    } else {
      OddFlipsRejected(f, g);
    }
  }

  lemma HeldWhole(q: Query, f: Bytes)
    requires Replies(q, Data(f)) && |f| <= q.cap
    ensures Held(q, f) == f && Parses(f)
  {
  }
}
