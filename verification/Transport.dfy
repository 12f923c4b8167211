/** Reassembling frames from a byte stream that the kernel cuts anywhere. */
module Transport {
  import opened Bytes

  /** What the codec makes of a buffer: a frame and its length, too few bytes, or an error. */
  datatype ReadResult<F> = Whole(frame: F, consumed: nat) | Short | Malformed

  /** The framing codec is an external library; any prefix code will do. */
  datatype Codec<!F> = Codec(encode: F -> Bytes, read: Bytes -> ReadResult<F>)

  ghost predicate PrefixCode<F(!new)>(c: Codec<F>)
  {
    && (forall f: F, rest: Bytes :: c.read(c.encode(f) + rest) == Whole(f, |c.encode(f)|))
    && (forall f: F, n: nat :: n < |c.encode(f)| ==> c.read(c.encode(f)[..n]) == Short)
    && c.read([]) == Short
    && (forall buf: Bytes, f: F, n: nat :: c.read(buf) == Whole(f, n) ==> n <= |buf| && buf[..n] == c.encode(f))
  }

  /** A frame of fewer than 256 bytes. */
  datatype Packet = Packet(body: ShortBody)

  type ShortBody = s: Bytes | |s| < 256 witness []

  /** A packet behind its length. */
  function LengthPrefixed(): Codec<Packet>
  {
    Codec(
      (f: Packet) => [|f.body|] + f.body,
      (buf: Bytes) =>
        if buf == [] || |buf| - 1 < buf[0] then Short
        else
          var n: nat := buf[0];
          Whole(Packet(buf[1..1 + n]), 1 + n))
  }

  /** There are such codes. */
  lemma LengthPrefixedFits()
    ensures PrefixCode(LengthPrefixed())
  {
    var c := LengthPrefixed();
    forall f: Packet, rest: Bytes
      ensures c.read(c.encode(f) + rest) == Whole(f, |c.encode(f)|)
    {
      assert (c.encode(f) + rest)[1..1 + |f.body|] == f.body;
    }
    forall buf: Bytes, f: Packet, n: nat | c.read(buf) == Whole(f, n)
      ensures n <= |buf| && buf[..n] == c.encode(f)
    {
      assert buf[..n] == [buf[0]] + buf[1..n];
    }
  }

  function EncodeAll<F>(c: Codec<F>, fs: seq<F>): Bytes
  {
    if fs == [] then [] else c.encode(fs[0]) + EncodeAll(c, fs[1..])
  }

  lemma {:induction false} EncodeSnoc<F>(c: Codec<F>, fs: seq<F>, f: F)
    ensures EncodeAll(c, fs + [f]) == EncodeAll(c, fs) + c.encode(f)
  {
    if fs == [] {
    } else {
      EncodeSnoc(c, fs[1..], f);
      assert (fs + [f])[1..] == fs[1..] + [f];
    }
  }

  // ── the kernel's side ────────────────────────────────────────────────

  /** The outcome of one read. No bytes means that the peer has closed the stream. */
  datatype ReadEvent = Chunk(bytes: Bytes) | WouldBlock | Interrupted | ReadFailed

  /** The outcome of one write: the kernel takes `n` bytes, or fewer if fewer were offered;
      `Blocked(expired)` says whether the send deadline has passed. */
  datatype WriteEvent = Wrote(n: nat) | Blocked(expired: bool) | WriteInterrupted | WriteFailed

  datatype Error = Closed | CapExceeded | Garbled | Io | TimedOut

  datatype Fill = Drained(eof: bool) | FillError(error: Error)

  /** `SendPending`: the script of write outcomes ended first. */
  datatype Sent = SentAll | SendPending | SendError(error: Error)

  /** All the bytes that a run of reads brings in. */
  function BytesIn(events: seq<ReadEvent>): Bytes
  {
    if events == [] then []
    else BytesIn(events[..|events| - 1]) + (if events[|events| - 1].Chunk? then events[|events| - 1].bytes else [])
  }

  /** Reading goes on after this event. */
  predicate GoesOn(event: ReadEvent)
  {
    event.Interrupted? || (event.Chunk? && event.bytes != [])
  }

  predicate AllGoOn(events: seq<ReadEvent>)
  {
    forall event :: event in events ==> GoesOn(event)
  }

  /** The result that fits the reads made: all but the last go on, and the last one decides. */
  predicate Filled(r: Fill, used: seq<ReadEvent>, unread: nat, buffered: nat, cap: nat)
  {
    if AllGoOn(used) && unread == 0 && r.Drained? then !r.eof
    else
      && used != [] && AllGoOn(used[..|used| - 1])
      && match used[|used| - 1] {
           case WouldBlock => r == Drained(false)
           case ReadFailed => r == FillError(Io)
           case Interrupted => false
           case Chunk(bytes) =>
             if bytes == [] then r == Drained(true)
             else r == FillError(CapExceeded) && buffered + |BytesIn(used)| > cap
         }
  }

  lemma Fills(before: seq<ReadEvent>, event: ReadEvent, unread: nat, buffered: nat, cap: nat)
    requires AllGoOn(before)
    ensures event == WouldBlock ==> Filled(Drained(false), before + [event], unread, buffered, cap)
    ensures event == ReadFailed ==> Filled(FillError(Io), before + [event], unread, buffered, cap)
    ensures event == Chunk([]) ==> Filled(Drained(true), before + [event], unread, buffered, cap)
    ensures GoesOn(event) ==> AllGoOn(before + [event])
    ensures event.Chunk? && event.bytes != [] && buffered + |BytesIn(before + [event])| > cap ==>
      Filled(FillError(CapExceeded), before + [event], unread, buffered, cap)
  {
    assert (before + [event])[..|before|] == before;
    assert !GoesOn(event) ==> !AllGoOn(before + [event]) by { assert event in before + [event]; }
  }

  lemma NoMore(used: seq<ReadEvent>, buffered: nat, cap: nat)
    requires AllGoOn(used)
    ensures Filled(Drained(false), used, 0, buffered, cap)
  {
  }

  /** Writing ends with an error after this event. */
  predicate Refuses(event: WriteEvent)
  {
    event == Wrote(0) || event == Blocked(true) || event == WriteFailed
  }

  function Refusal(event: WriteEvent): Error
    requires Refuses(event)
  {
    if event == Wrote(0) then Closed else if event == Blocked(true) then TimedOut else Io
  }

  datatype Recv<F> = Got(frame: F) | NoFrame | RecvError(error: Error)

  class UnixUbusTransport<F(!new)> {
    const codec: Codec<F>
    const cap: nat
    var rxBuf: Bytes
    var readScript: seq<ReadEvent>
    var writeScript: seq<WriteEvent>
    /** Bytes the kernel has accepted for sending. */
    var out: Bytes
    /** Bytes put into the buffer, frames returned, and whether an error has thrown bytes away. */
    ghost var taken: Bytes
    ghost var delivered: seq<F>
    ghost var lost: bool

    ghost predicate Valid()
      reads this
    {
      && PrefixCode(codec)
      && |rxBuf| <= cap
      && (!lost ==> EncodeAll(codec, delivered) + rxBuf == taken)
    }

    constructor (codec: Codec<F>, cap: nat, readScript: seq<ReadEvent>, writeScript: seq<WriteEvent>)
      requires PrefixCode(codec)
      ensures Valid() && !lost && delivered == [] && taken == [] && rxBuf == [] && out == []
      ensures this.codec == codec && this.cap == cap && this.readScript == readScript && this.writeScript == writeScript
    {
      this.codec, this.cap, this.readScript, this.writeScript := codec, cap, readScript, writeScript;
      rxBuf, out, taken, delivered, lost := [], [], [], [], false;
    }

    /** Read until the kernel has no more; beyond the cap everything buffered is dropped. */
    method FillRx() returns (r: Fill)
      requires Valid()
      modifies this`rxBuf, this`readScript, this`taken, this`lost
      ensures Valid()
      ensures |readScript| <= |old(readScript)| && old(taken) <= taken
      ensures readScript == old(readScript)[|old(readScript)| - |readScript|..]
      ensures
        Filled(r, old(readScript)[..|old(readScript)| - |readScript|], |readScript|, |old(rxBuf)|, cap)
      ensures
        var used := old(readScript)[..|old(readScript)| - |readScript|];
        r.Drained? ==> taken == old(taken) + BytesIn(used) && rxBuf == old(rxBuf) + BytesIn(used)
      ensures lost <==> old(lost) || r == FillError(CapExceeded)
      ensures r.FillError? ==> r.error == Io || r.error == CapExceeded
    {
      hide EncodeAll, PrefixCode, BytesIn, Filled;
      var script := readScript;
      ghost var before, start := rxBuf, taken;
      ghost var k: nat := 0;
      BytesInNone();
      while readScript != []
        invariant Valid() && lost == old(lost)
        invariant k <= |script| && readScript == script[k..]
        invariant AllGoOn(script[..k])
        invariant rxBuf == before + BytesIn(script[..k]) && taken == start + BytesIn(script[..k])
        decreases |readScript|
      {
        var event := readScript[0];
        readScript := readScript[1..];
        k := k + 1;
        BytesInMore(script, k);
        assert script[..|script| - |readScript|] == script[..k];
        assert script[..k] == script[..k - 1] + [event];
        Fills(script[..k - 1], event, |readScript|, |before|, cap);
        match event
        case WouldBlock => return Drained(false);
        case Interrupted =>
        case ReadFailed => return FillError(Io);
        case Chunk(bytes) =>
          if bytes == [] {
            return Drained(true);
          }
          if |rxBuf| + |bytes| > cap {
            rxBuf, lost := [], true;
            return FillError(CapExceeded);
          }
          Regroup(EncodeAll(codec, delivered), rxBuf, bytes);
          Regroup(before, BytesIn(script[..k - 1]), bytes);
          Regroup(start, BytesIn(script[..k - 1]), bytes);
          rxBuf, taken := rxBuf + bytes, taken + bytes;
      }
      assert script[..k] == script;
      NoMore(script, |before|, cap);
      return Drained(false);
    }

    /** One frame if a whole one is buffered; a closed stream is reported only when none is left. */
    method Receive() returns (r: Recv<F>)
      requires Valid()
      modifies this`rxBuf, this`readScript, this`taken, this`lost, this`delivered
      ensures Valid()
      ensures old(taken) <= taken && (!lost ==> EncodeAll(codec, delivered) + rxBuf == taken) && |rxBuf| <= cap
      ensures delivered == if r.Got? then old(delivered) + [r.frame] else old(delivered)
      ensures |readScript| <= |old(readScript)|
      ensures
        var used := old(readScript)[..|old(readScript)| - |readScript|];
        match r
        case Got(frame) => codec.read(old(rxBuf) + BytesIn(used)).Whole?
        case NoFrame => Filled(Drained(false), used, |readScript|, |old(rxBuf)|, cap)
        case RecvError(Closed) => Filled(Drained(true), used, |readScript|, |old(rxBuf)|, cap)
        case RecvError(Garbled) => codec.read(old(rxBuf) + BytesIn(used)) == Malformed
        case RecvError(e) => Filled(FillError(e), used, |readScript|, |old(rxBuf)|, cap)
      ensures !lost && (r == NoFrame || r == RecvError(Closed)) ==> codec.read(rxBuf) == Short
      ensures lost ==> old(lost) || (r.RecvError? && r.error != Closed)
      ensures r.RecvError? && r.error != Closed ==> rxBuf == [] && lost
    {
      hide EncodeAll, BytesIn, Filled;
      var filled := FillRx();
      if filled.FillError? {
        rxBuf, lost := [], true;
        return RecvError(filled.error);
      }
      var result := codec.read(rxBuf);
      match result
      case Whole(frame, consumed) =>
        EncodeSnoc(codec, delivered, frame);
        assert rxBuf == rxBuf[..consumed] + rxBuf[consumed..];
        Regroup(EncodeAll(codec, delivered), rxBuf[..consumed], rxBuf[consumed..]);
        rxBuf := rxBuf[consumed..];
        delivered := delivered + [frame];
        return Got(frame);
      case Short =>
        return if filled.eof then RecvError(Closed) else NoFrame;
      case Malformed =>
        rxBuf, lost := [], true;
        return RecvError(Garbled);
    }

    /** Write the whole frame or fail; the kernel accepts a prefix of what is offered. */
    method Send(frame: F) returns (r: Sent)
      modifies this`out, this`writeScript
      ensures |writeScript| <= |old(writeScript)|
      ensures writeScript == old(writeScript)[|old(writeScript)| - |writeScript|..]
      ensures r == SentAll ==> out == old(out) + codec.encode(frame)
      ensures r != SentAll ==> exists n: nat :: n < |codec.encode(frame)| && out == old(out) + codec.encode(frame)[..n]
      ensures
        var used := old(writeScript)[..|old(writeScript)| - |writeScript|];
        && (forall i :: 0 <= i < |used| - 1 ==> !Refuses(used[i]))
        && if used != [] && Refuses(used[|used| - 1]) then r == SendError(Refusal(used[|used| - 1]))
           else r == SentAll || (r == SendPending && writeScript == [])
    {
      var script := writeScript;
      var bytes := codec.encode(frame);
      var sent: nat := 0;
      ghost var k: nat := 0;
      while sent < |bytes|
        invariant sent <= |bytes| && out == old(out) + bytes[..sent]
        invariant k <= |script| && writeScript == script[k..]
        invariant forall i :: 0 <= i < k ==> !Refuses(script[i])
        decreases |writeScript|, |bytes| - sent
      {
        if writeScript == [] {
          return SendPending;
        }
        var event := writeScript[0];
        writeScript := writeScript[1..];
        k := k + 1;
        match event
        case Wrote(n) =>
          if n == 0 {
            return SendError(Closed);
          }
          var m := Min(n, |bytes| - sent);
          Further(old(out), bytes, sent, m);
          out := out + bytes[sent..sent + m];
          sent := sent + m;
        case WriteInterrupted =>
        case Blocked(expired) =>
          if expired {
            return SendError(TimedOut);
          }
        case WriteFailed => return SendError(Io);
      }
      assert bytes[..|bytes|] == bytes;
      r := SentAll;
    }
  }

  lemma Further(before: Bytes, bytes: Bytes, sent: nat, m: nat)
    requires sent + m <= |bytes|
    ensures before + bytes[..sent] + bytes[sent..sent + m] == before + bytes[..sent + m]
  {
    assert bytes[..sent] + bytes[sent..sent + m] == bytes[..sent + m];
    Regroup(before, bytes[..sent], bytes[sent..sent + m]);
  }

  lemma BytesInNone()
    ensures forall events: seq<ReadEvent> :: BytesIn(events[..0]) == []
  {
  }

  lemma BytesInMore(events: seq<ReadEvent>, k: nat)
    requires 0 < k <= |events|
    ensures BytesIn(events[..k]) ==
      BytesIn(events[..k - 1]) + (if events[k - 1].Chunk? then events[k - 1].bytes else [])
  {
    assert events[..k][..k - 1] == events[..k - 1];
  }

  // ── what has been delivered ──────────────────────────────────────────

  /** A stream of frames cut after `|taken|` bytes: what is returned is a beginning of the stream, and when
      the buffer holds no whole frame, every frame whose last byte has been read has been returned. */
  lemma {:induction false} InOrderAndComplete<F(!new)>(c: Codec<F>, stream: seq<F>, delivered: seq<F>, rxBuf: Bytes, taken: Bytes)
    requires PrefixCode(c) && taken <= EncodeAll(c, stream)
    requires EncodeAll(c, delivered) + rxBuf == taken
    ensures delivered <= stream
    ensures c.read(rxBuf) != Malformed
    ensures c.read(rxBuf) == Short ==>
      forall k: nat :: k <= |stream| && |EncodeAll(c, stream[..k])| <= |taken| ==> k <= |delivered|
    decreases |stream|
  {
    hide *;
    if delivered == [] {
      NothingDelivered(c, stream, rxBuf, taken);
    } else {
      SameFirst(c, stream, delivered, rxBuf, taken);
      var n := |c.encode(delivered[0])|;
      InOrderAndComplete(c, stream[1..], delivered[1..], rxBuf, taken[n..]);
      assert delivered == [delivered[0]] + delivered[1..] && stream == [stream[0]] + stream[1..];
      if c.read(rxBuf) == Short {
        forall k: nat | k <= |stream| && |EncodeAll(c, stream[..k])| <= |taken|
          ensures k <= |delivered|
        {
          if k > 0 {
            FirstOf(c, stream, k);
          }
        }
      }
    }
  }

  lemma FirstOf<F>(c: Codec<F>, stream: seq<F>, k: nat)
    requires 0 < k <= |stream|
    ensures |EncodeAll(c, stream[..k])| == |c.encode(stream[0])| + |EncodeAll(c, stream[1..][..k - 1])|
  {
    assert stream[..k][1..] == stream[1..][..k - 1];
  }

  lemma NothingDelivered<F(!new)>(c: Codec<F>, stream: seq<F>, rxBuf: Bytes, taken: Bytes)
    requires PrefixCode(c) && taken <= EncodeAll(c, stream)
    requires EncodeAll(c, []) + rxBuf == taken
    ensures c.read(rxBuf) != Malformed
    ensures c.read(rxBuf) == Short ==>
      forall k: nat :: k <= |stream| && |EncodeAll(c, stream[..k])| <= |taken| ==> k == 0
  {
    hide PrefixCode;
    assert rxBuf == taken;
    NeverMalformed(c, stream, taken);
    forall k: nat | 0 < k <= |stream| && |EncodeAll(c, stream[..k])| <= |taken|
      ensures c.read(rxBuf) != Short
    {
      WholeFrameBuffered(c, stream, taken, k);
    }
  }

  /** If the first frame has been read whole, the codec sees it. */
  lemma WholeFrameBuffered<F(!new)>(c: Codec<F>, stream: seq<F>, taken: Bytes, k: nat)
    requires PrefixCode(c) && taken <= EncodeAll(c, stream) && 0 < k <= |stream|
    requires |EncodeAll(c, stream[..k])| <= |taken|
    ensures c.read(taken).Whole?
  {
    var e := c.encode(stream[0]);
    assert |e| <= |EncodeAll(c, stream[..k])| by { assert stream[..k][0] == stream[0]; }
    assert taken == e + taken[|e|..];
  }

  /** The beginning of a stream of frames is never refused by the codec. */
  lemma NeverMalformed<F(!new)>(c: Codec<F>, stream: seq<F>, taken: Bytes)
    requires PrefixCode(c) && taken <= EncodeAll(c, stream)
    ensures c.read(taken) != Malformed
  {
    if stream != [] {
      var e := c.encode(stream[0]);
      if |taken| < |e| {
        assert taken == e[..|taken|];
      } else {
        assert taken == e + taken[|e|..];
      }
    }
  }

  /** Two ways of reading the same bytes start with the same frame. */
  lemma SameFirst<F(!new)>(c: Codec<F>, stream: seq<F>, delivered: seq<F>, rxBuf: Bytes, taken: Bytes)
    requires PrefixCode(c) && taken <= EncodeAll(c, stream) && delivered != []
    requires EncodeAll(c, delivered) + rxBuf == taken
    ensures stream != [] && stream[0] == delivered[0]
    ensures |c.encode(delivered[0])| <= |taken|
    ensures taken[|c.encode(delivered[0])|..] <= EncodeAll(c, stream[1..])
    ensures EncodeAll(c, delivered[1..]) + rxBuf == taken[|c.encode(delivered[0])|..]
  {
    var e := c.encode(delivered[0]);
    var whole := EncodeAll(c, stream);
    Peel(e, EncodeAll(c, delivered[1..]), rxBuf, taken, whole);
    StartsWith(c, delivered[0], whole);
    if stream == [] {
      assert false;
    } else {
      var e' := c.encode(stream[0]);
      Regroup(e', EncodeAll(c, stream[1..]), []);
      Peel(e', EncodeAll(c, stream[1..]), [], whole, whole);
      StartsWith(c, stream[0], whole);
    }
  }

  lemma Peel(e: Bytes, b: Bytes, d: Bytes, taken: Bytes, whole: Bytes)
    requires e + b + d == taken && taken <= whole
    ensures |e| <= |taken| && taken[|e|..] == b + d && e == whole[..|e|]
    ensures taken[|e|..] <= whole[|e|..]
  {
    assert taken == e + (b + d);
  }

  lemma StartsWith<F(!new)>(c: Codec<F>, f: F, whole: Bytes)
    requires PrefixCode(c) && |c.encode(f)| <= |whole| && c.encode(f) == whole[..|c.encode(f)|]
    ensures c.read(whole) == Whole(f, |c.encode(f)|)
  {
    assert whole == c.encode(f) + whole[|c.encode(f)|..];
  }
}
