/**
 The host, the board and the link between them as a state machine: a FIFO link that may
 lose and repeat frames and echoes what the host sends, and a board that answers a frame
 with its last sequence number (opcode 8 excepted) from its cached reply.
 */
module Protocol {
  import opened Bytes
  import opened Checksum
  import opened Frame
  import opened Request

  /** `first` is the host's counter before the run. */
  datatype Config = Config(first: u32, mac: Mac, boardMac: Mac, cap: nat)

  datatype Req = Req(subtype: byte, payload: Bytes)

  datatype Msg = Msg(x: Fields, pad: nat)

  /** One execution of a handler on the board, and the reply it produced. */
  datatype Exec = Exec(number: u32, subtype: byte, payload: Bytes, reply: Bytes)

  datatype Host = Idle | Busy(left: nat)

  datatype State = State(
    host: Host, issued: seq<Req>, results: seq<Answer>,
    up: seq<Msg>, down: seq<Msg>,
    last: u32, cached: Msg, log: seq<Exec>)

  /** What becomes of one attempt to send: the kernel takes the frame, echoes it as well, or fails. */
  datatype Sending = Sent | Echoed | Unsent

  datatype Step =
    | Begin(req: Req, retries: byte, sending: Sending)
    | Expire(sending: Sending)
    | Receive
    | Break
    | Serve(reply: Bytes, pad: nat)
    | LoseUp(i: nat) | LoseDown(i: nat) | RepeatUp(i: nat) | RepeatDown(i: nat)

  /** The sequence number of request `i`. */
  function NumberOf(c: Config, i: nat): u32 { (c.first + 1 + i) % 0x1_0000_0000 }

  /** The request that first uses a sequence number. */
  function IndexOf(c: Config, number: u32): nat { (number - c.first - 1) % 0x1_0000_0000 }

  function OnWire(m: Msg): Bytes { Wire(m.x) + Zeros(m.pad) }

  /** Request `i` as the host sends it. */
  function CommandMsg(c: Config, r: Req, i: nat): Msg
  {
    Msg(Command(r.subtype, NumberOf(c, i), c.mac, r.payload), Max(MIN_FRAME, HEADER_LEN + |r.payload|) - (HEADER_LEN + |r.payload|))
  }

  function ReplyFields(c: Config, e: Exec): Fields
  {
    Fields(c.mac, c.boardMac, MAGIC_RESPONSE, e.subtype, e.number, e.reply)
  }

  /** What the request in progress looks for. */
  function QueryOf(c: Config, s: State): Query
    requires s.issued != []
  {
    Query(s.issued[|s.issued| - 1].subtype, NumberOf(c, |s.issued| - 1), c.cap)
  }

  function Finish(s: State, a: Answer): State { s.(host := Idle, results := s.results + [a]) }

  /** Send the frame of the current request; an error ends the request. */
  function Send(c: Config, s: State, sending: Sending): State
    requires s.issued != []
  {
    var m := CommandMsg(c, s.issued[|s.issued| - 1], |s.issued| - 1);
    match sending
    case Sent => s.(up := s.up + [m])
    case Echoed => s.(up := s.up + [m], down := s.down + [m])
    case Unsent => Finish(s, IoError)
  }

  /** The board takes the frame at the head of the link. */
  function ServeStep(c: Config, s: State, reply: Bytes, pad: nat): State
    requires s.up != []
  {
    var f := OnWire(s.up[0]);
    var t := s.(up := s.up[1..]);
    if !Parses(f) || !VerifyChecksum(f) then t
    else if Number(f) == s.last && Subtype(f) != 8 then t.(down := s.down + [s.cached])
    else
      var e := Exec(Number(f), Subtype(f), Payload(f), reply);
      var m := Msg(ReplyFields(c, e), pad);
      t.(log := s.log + [e], last := e.number, cached := m, down := s.down + [m])
  }

  function Without(q: seq<Msg>, i: nat): seq<Msg> requires i < |q| { q[..i] + q[i + 1..] }

  function Doubled(q: seq<Msg>, i: nat): seq<Msg> requires i < |q| { q[..i + 1] + q[i..] }

  /** One step; a step that is not possible changes nothing. */
  function Next(c: Config, s: State, step: Step): State
  {
    match step
    case Begin(req, retries, sending) =>
      if s.host.Idle? && |req.payload| < 0x1_0000 then
        Send(c, s.(host := Busy(retries + 1), issued := s.issued + [req]), sending)
      else s
    case Expire(sending) =>
      if s.host.Busy? && s.issued != [] && s.host.left > 0 then
        match React(QueryOf(c, s), s.host.left, WouldBlock)
        case Answered(a) => Finish(s, a)
        case Waiting(left) => Send(c, s.(host := Busy(left)), sending)
      else s
    case Receive =>
      if s.host.Busy? && s.issued != [] && s.host.left > 0 && s.down != [] then
        match React(QueryOf(c, s), s.host.left, Data(OnWire(s.down[0])))
        case Answered(a) => Finish(s.(down := s.down[1..]), a)
        case Waiting(left) => s.(down := s.down[1..])
      else s
    case Break =>
      if s.host.Busy? && s.issued != [] && s.host.left > 0 then
        match React(QueryOf(c, s), s.host.left, Failed)
        case Answered(a) => Finish(s, a)
        case Waiting(_) => s
      else s
    case Serve(reply, pad) =>
      if s.up != [] && |reply| < 0x1_0000 then ServeStep(c, s, reply, pad) else s
    case LoseUp(i) => if i < |s.up| then s.(up := Without(s.up, i)) else s
    case LoseDown(i) => if i < |s.down| then s.(down := Without(s.down, i)) else s
    case RepeatUp(i) => if i < |s.up| then s.(up := Doubled(s.up, i)) else s
    case RepeatDown(i) => if i < |s.down| then s.(down := Doubled(s.down, i)) else s
  }

  function Run(c: Config, s: State, steps: seq<Step>): State
    decreases |steps|
  {
    if steps == [] then s else Run(c, Next(c, s, steps[0]), steps[1..])
  }

  /** Nothing sent yet; the board remembers some earlier number and reply. */
  function Start(last: u32, cached: Msg): State { State(Idle, [], [], [], [], last, cached, []) }

  // ── what is promised ─────────────────────────────────────────────────

  /** The board ran `r` as number `number` and answered `reply`. */
  ghost predicate Executed(log: seq<Exec>, number: u32, r: Req, reply: Bytes)
  {
    exists k :: 0 <= k < |log| && log[k] == Exec(number, r.subtype, r.payload, reply)
  }

  /** No request but opcode 8 runs twice. */
  ghost predicate AtMostOnce(log: seq<Exec>)
  {
    forall a, b :: 0 <= a < b < |log| && log[a].number == log[b].number ==> log[a].subtype == 8
  }

  /** A request answered Ok has run, and the answer is that run's reply. */
  ghost predicate OkMeansExecuted(c: Config, s: State)
    requires |s.results| <= |s.issued|
  {
    forall i :: 0 <= i < |s.results| && s.results[i].Ok? ==>
      Executed(s.log, NumberOf(c, i), s.issued[i], s.results[i].payload)
  }

  ghost predicate Good(c: Config, s: State)
  {
    |s.results| <= |s.issued| && AtMostOnce(s.log) && OkMeansExecuted(c, s)
  }

  /** The board's initial number is not among those of the first `n` requests. */
  ghost predicate Fresh(c: Config, n: nat, last: u32)
  {
    forall i :: 0 <= i < n ==> NumberOf(c, i) != last
  }

  /** The board does not take this frame for a repeat: it carries another number, or something has run before. */
  ghost predicate Unmistaken(s: State, step: Step, last: u32)
  {
    step.Serve? && s.up != [] && s.up[0].x.number == last && s.up[0].x.subtype != 8 ==> s.log != []
  }

  /** So it is throughout the run. */
  ghost predicate RunUnmistaken(c: Config, s: State, steps: seq<Step>, last: u32)
    decreases |steps|
  {
    steps != [] ==> Unmistaken(s, steps[0], last) && RunUnmistaken(c, Next(c, s, steps[0]), steps[1..], last)
  }

  // ── numbers ──────────────────────────────────────────────────────────

  lemma NumbersInvert(c: Config, i: nat, number: u32)
    ensures i < 0x1_0000_0000 ==> IndexOf(c, NumberOf(c, i)) == i
    ensures NumberOf(c, IndexOf(c, number)) == number
  {
  }

  /** A fresh run is shorter than the number space. */
  lemma FreshIsShort(c: Config, n: nat, last: u32)
    requires Fresh(c, n, last)
    ensures n < 0x1_0000_0000
  {
    NumbersInvert(c, 0, last);
    assert NumberOf(c, IndexOf(c, last)) == last;
  }

  // ── frames through the receiver ──────────────────────────────────────

  /** A well-formed frame, cut or not, is skipped or gives exactly its own payload. */
  lemma LookAtWire(q: Query, x: Fields, pad: nat)
    requires |x.payload| < 0x1_0000
    ensures
      var l := Look(q, Wire(x) + Zeros(pad));
      var matches := x.magic == MAGIC_RESPONSE && x.subtype == q.subtype && x.number == q.number;
      && (l.Skip? || (matches && l == Accept(x.payload)))
      && (matches && q.cap >= HEADER_LEN + |x.payload| ==> l == Accept(x.payload))
  {
    hide Wire, VerifyChecksum, De32;
    RoundTrip(x, pad);
    var whole := Wire(x) + Zeros(pad);
    if Parses(whole[..Min(|whole|, q.cap)]) {
      CutFrame(whole, Min(|whole|, q.cap));
    }
  }

  /** A frame cut behind its covered region reads the same. */
  lemma CutFrame(whole: Bytes, m: nat)
    requires m <= |whole| && Parses(whole[..m])
    ensures
      var f := whole[..m];
      && Parses(whole) && Magic(f) == Magic(whole) && Subtype(f) == Subtype(whole) && Number(f) == Number(whole)
      && Payload(f) == Payload(whole) && VerifyChecksum(f) == VerifyChecksum(whole)
  {
    hide VerifyChecksum, De32;
    var f := whole[..m];
    var n := PayloadLen(f);
    assert n == PayloadLen(whole);
    assert f[OFF_SEQ..OFF_SEQ + 4] == whole[OFF_SEQ..OFF_SEQ + 4];
    assert f[OFF_PAYLOAD..OFF_PAYLOAD + n] == whole[OFF_PAYLOAD..OFF_PAYLOAD + n];
    assert f[OFF_MAGIC..CoverEnd(whole)] == whole[OFF_MAGIC..CoverEnd(whole)];
    UncoveredIgnored(whole, f);
  }
}
