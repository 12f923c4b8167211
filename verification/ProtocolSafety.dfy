/** Exactly-once execution over every run of the protocol, and exactly when it holds. */
module ProtocolSafety {
  import opened Bytes
  import opened Checksum
  import opened Frame
  import opened Request
  import opened Protocol

  // ── the invariant ────────────────────────────────────────────────────

  /** A frame on the way to the board is the frame of an issued request. */
  ghost predicate Travelling(c: Config, issued: seq<Req>, m: Msg)
  {
    var i := IndexOf(c, m.x.number);
    i < |issued| && m == CommandMsg(c, issued[i], i)
  }

  ghost predicate UpOk(c: Config, issued: seq<Req>, up: seq<Msg>)
  {
    && (forall k :: 0 <= k < |up| ==> Travelling(c, issued, up[k]))
    && (forall a, b :: 0 <= a < b < |up| ==> IndexOf(c, up[a].x.number) <= IndexOf(c, up[b].x.number))
  }

  /** A logged execution is one of an issued request. */
  ghost predicate Logged(c: Config, issued: seq<Req>, e: Exec)
  {
    var i := IndexOf(c, e.number);
    i < |issued| && e.subtype == issued[i].subtype && e.payload == issued[i].payload && |e.reply| < 0x1_0000
  }

  /** Executions are logged in the order of their requests. */
  ghost predicate LogOk(c: Config, issued: seq<Req>, log: seq<Exec>)
  {
    && (forall k :: 0 <= k < |log| ==> Logged(c, issued, log[k]))
    && (forall a, b :: 0 <= a < b < |log| ==> IndexOf(c, log[a].number) <= IndexOf(c, log[b].number))
    && AtMostOnce(log)
  }

  /** The link holds nothing older than the last execution. */
  ghost predicate NotStale(c: Config, up: seq<Msg>, log: seq<Exec>)
  {
    log != [] ==> forall k :: 0 <= k < |up| ==> IndexOf(c, log[|log| - 1].number) <= IndexOf(c, up[k].x.number)
  }

  ghost predicate BoardOk(c: Config, s: State, last: u32)
  {
    if s.log == [] then s.last == last
    else s.last == s.log[|s.log| - 1].number && s.cached.x == ReplyFields(c, s.log[|s.log| - 1])
  }

  ghost predicate Replied(c: Config, log: seq<Exec>, x: Fields)
  {
    exists k :: 0 <= k < |log| && x == ReplyFields(c, log[k])
  }

  /** A frame on the way to the host is an echo or a logged reply. */
  ghost predicate DownOk(c: Config, log: seq<Exec>, down: seq<Msg>)
  {
    forall k :: 0 <= k < |down| ==>
      |down[k].x.payload| < 0x1_0000 && (down[k].x.magic == MAGIC_COMMAND || Replied(c, log, down[k].x))
  }

  ghost predicate HostOk(s: State)
  {
    && (forall i :: 0 <= i < |s.issued| ==> |s.issued[i].payload| < 0x1_0000)
    && |s.results| == |s.issued| - (if s.host.Busy? then 1 else 0)
  }

  ghost predicate Inv(c: Config, s: State, last: u32)
  {
    && HostOk(s) && UpOk(c, s.issued, s.up) && LogOk(c, s.issued, s.log) && NotStale(c, s.up, s.log)
    && BoardOk(c, s, last) && DownOk(c, s.log, s.down) && OkMeansExecuted(c, s)
    && (forall i :: 0 <= i < |s.results| ==> !s.results[i].BadFrame?)
  }

  // ── steps of the host ────────────────────────────────────────────────

  lemma TravellingGrows(c: Config, issued: seq<Req>, r: Req, up: seq<Msg>, log: seq<Exec>)
    requires UpOk(c, issued, up) && LogOk(c, issued, log)
    ensures UpOk(c, issued + [r], up) && LogOk(c, issued + [r], log)
  {
    hide IndexOf, CommandMsg;
    assert forall k :: 0 <= k < |up| ==> Travelling(c, issued, up[k]) && Travelling(c, issued + [r], up[k]);
    assert forall k :: 0 <= k < |log| ==> Logged(c, issued, log[k]) && Logged(c, issued + [r], log[k]);
  }

  /** The frame of the current request is the newest on the link. */
  lemma NewestSent(c: Config, issued: seq<Req>, up: seq<Msg>, log: seq<Exec>, m: Msg)
    requires UpOk(c, issued, up) && LogOk(c, issued, log) && NotStale(c, up, log)
    requires issued != [] && |issued| < 0x1_0000_0000 && m == CommandMsg(c, issued[|issued| - 1], |issued| - 1)
    ensures UpOk(c, issued, up + [m]) && NotStale(c, up + [m], log)
  {
    NumbersInvert(c, |issued| - 1, 0);
    hide IndexOf, NumberOf, AtMostOnce;
    assert Travelling(c, issued, m);
    assert forall k :: 0 <= k < |up| ==> Travelling(c, issued, up[k]);
    assert forall k :: 0 <= k < |log| ==> Logged(c, issued, log[k]);
  }

  lemma EchoOk(c: Config, log: seq<Exec>, down: seq<Msg>, m: Msg)
    requires DownOk(c, log, down) && |m.x.payload| < 0x1_0000 && m.x.magic == MAGIC_COMMAND
    ensures DownOk(c, log, down + [m])
  {
    hide Replied;
  }

  /** Sending the current request keeps the link in order. */
  lemma SendKeeps(c: Config, s: State, sending: Sending, last: u32)
    requires Inv(c, s, last) && s.host.Busy? && s.issued != [] && |s.issued| < 0x1_0000_0000
    ensures Inv(c, Send(c, s, sending), last)
  {
    hide NumberOf, OkMeansExecuted, UpOk, LogOk, NotStale, DownOk;
    if sending.Unsent? {
      FinishKeeps(c, s, IoError, last);
    } else {
      var i := |s.issued| - 1;
      var m := CommandMsg(c, s.issued[i], i);
      NewestSent(c, s.issued, s.up, s.log, m);
      EchoOk(c, s.log, s.down, m);
      SameResults(c, s, Send(c, s, sending));
    }
  }

  lemma SameResults(c: Config, s: State, t: State)
    requires HostOk(s) && OkMeansExecuted(c, s) && t.issued == s.issued && t.results == s.results && t.log == s.log
    ensures OkMeansExecuted(c, t)
  {
  }

  lemma FinishKeeps(c: Config, s: State, a: Answer, last: u32)
    requires Inv(c, s, last) && s.host.Busy? && !a.BadFrame?
    requires a.Ok? ==> Executed(s.log, NumberOf(c, |s.issued| - 1), s.issued[|s.issued| - 1], a.payload)
    ensures Inv(c, Finish(s, a), last)
  {
    hide IndexOf, NumberOf, AtMostOnce, UpOk, LogOk, NotStale, DownOk, Executed;
  }

  lemma BeginKeeps(c: Config, s: State, req: Req, retries: byte, sending: Sending, last: u32)
    requires Inv(c, s, last) && s.host.Idle? && |req.payload| < 0x1_0000 && |s.issued| + 1 < 0x1_0000_0000
    ensures Inv(c, Next(c, s, Begin(req, retries, sending)), last)
  {
    hide UpOk, LogOk, NotStale, DownOk, Executed, AtMostOnce, NumberOf;
    TravellingGrows(c, s.issued, req, s.up, s.log);
    var t := s.(host := Busy(retries + 1), issued := s.issued + [req]);
    assert Inv(c, t, last);
    SendKeeps(c, t, sending, last);
  }

  lemma SameNumber(c: Config, i: nat, j: nat, number: u32)
    requires i == IndexOf(c, number) && number == NumberOf(c, j) && j < 0x1_0000_0000
    ensures i == j
  {
    NumbersInvert(c, j, number);
  }

  /** A logged reply with the number of request `i` is a reply to request `i`. */
  lemma ReplyBelongs(c: Config, s: State, x: Fields, i: nat)
    requires LogOk(c, s.issued, s.log) && Replied(c, s.log, x)
    requires i < |s.issued| < 0x1_0000_0000 && x.number == NumberOf(c, i)
    ensures Executed(s.log, NumberOf(c, i), s.issued[i], x.payload)
  {
    hide IndexOf, NumberOf, AtMostOnce;
    var k :| 0 <= k < |s.log| && x == ReplyFields(c, s.log[k]);
    var e := s.log[k];
    assert Logged(c, s.issued, e);
    SameNumber(c, IndexOf(c, e.number), i, e.number);
    assert e == Exec(NumberOf(c, i), s.issued[i].subtype, s.issued[i].payload, e.reply);
  }

  /** A matching reply to the current request is a logged reply to it. */
  lemma AcceptedIsExecuted(c: Config, s: State, last: u32)
    requires Inv(c, s, last) && s.host.Busy? && s.down != [] && |s.issued| < 0x1_0000_0000
    ensures s.issued != []
    ensures
      var l := Look(QueryOf(c, s), OnWire(s.down[0]));
      !l.Corrupt? && (l.Accept? ==> Executed(s.log, NumberOf(c, |s.issued| - 1), s.issued[|s.issued| - 1], l.payload))
  {
    hide Look, Wire, UpOk, LogOk, NotStale, BoardOk, OkMeansExecuted, NumberOf, Executed, Replied;
    var m := s.down[0];
    LookAtWire(QueryOf(c, s), m.x, m.pad);
    if Look(QueryOf(c, s), OnWire(m)).Accept? {
      ReplyBelongs(c, s, m.x, |s.issued| - 1);
    }
  }

  lemma ReceiveKeeps(c: Config, s: State, last: u32)
    requires Inv(c, s, last) && |s.issued| < 0x1_0000_0000
    ensures Inv(c, Next(c, s, Receive), last)
  {
    hide Look, Wire, UpOk, LogOk, NotStale, OkMeansExecuted, NumberOf, Executed, Replied, QueryOf;
    if s.host.Busy? && s.host.left > 0 && s.down != [] {
      AcceptedIsExecuted(c, s, last);
      var t := s.(down := s.down[1..]);
      assert Inv(c, t, last) by { OkTail(c, s, t); }
      var r := React(QueryOf(c, s), s.host.left, Data(OnWire(s.down[0])));
      if r.Answered? {
        FinishKeeps(c, t, r.answer, last);
      }
    }
  }

  lemma OkTail(c: Config, s: State, t: State)
    requires HostOk(s) && OkMeansExecuted(c, s) && t.issued == s.issued && t.results == s.results && s.log <= t.log
    ensures OkMeansExecuted(c, t)
  {
    hide NumberOf;
    forall i | 0 <= i < |t.results| && t.results[i].Ok?
      ensures Executed(t.log, NumberOf(c, i), t.issued[i], t.results[i].payload)
    {
      var k :| 0 <= k < |s.log| && s.log[k] == Exec(NumberOf(c, i), s.issued[i].subtype, s.issued[i].payload, s.results[i].payload);
      assert t.log[k] == s.log[k];
    }
  }

  lemma ExpireKeeps(c: Config, s: State, sending: Sending, last: u32)
    requires Inv(c, s, last) && |s.issued| < 0x1_0000_0000
    ensures Inv(c, Next(c, s, Expire(sending)), last)
  {
    hide Look, Wire, UpOk, LogOk, NotStale, DownOk, NumberOf, Executed, QueryOf, Send;
    if s.host.Busy? && s.issued != [] && s.host.left > 0 {
      var r := React(QueryOf(c, s), s.host.left, WouldBlock);
      if r.Answered? {
        FinishKeeps(c, s, r.answer, last);
      } else {
        var t := s.(host := Busy(r.left));
        assert Inv(c, t, last);
        SendKeeps(c, t, sending, last);
      }
    }
  }

  /** A receive error ends the request while its frames are still travelling. */
  lemma BreakKeeps(c: Config, s: State, last: u32)
    requires Inv(c, s, last)
    ensures Inv(c, Next(c, s, Break), last)
  {
    hide Inv, QueryOf;
    if s.host.Busy? && s.issued != [] && s.host.left > 0 {
      FinishKeeps(c, s, IoError, last);
    }
  }

  // ── steps of the link ────────────────────────────────────────────────

  lemma UpSubset(c: Config, issued: seq<Req>, up: seq<Msg>, log: seq<Exec>, i: nat)
    requires UpOk(c, issued, up) && NotStale(c, up, log) && i < |up|
    ensures UpOk(c, issued, Without(up, i)) && NotStale(c, Without(up, i), log)
    ensures UpOk(c, issued, Doubled(up, i)) && NotStale(c, Doubled(up, i), log)
  {
    hide IndexOf, Travelling;
    var w, d := Without(up, i), Doubled(up, i);
    assert forall k :: 0 <= k < |w| ==> w[k] == up[if k < i then k else k + 1];
    assert forall k :: 0 <= k < |d| ==> d[k] == up[if k <= i then k else k - 1];
  }

  lemma DownSubset(c: Config, log: seq<Exec>, down: seq<Msg>, i: nat)
    requires DownOk(c, log, down) && i < |down|
    ensures DownOk(c, log, Without(down, i)) && DownOk(c, log, Doubled(down, i))
  {
    hide Replied;
    var w, d := Without(down, i), Doubled(down, i);
    assert forall k :: 0 <= k < |w| ==> w[k] == down[if k < i then k else k + 1];
    assert forall k :: 0 <= k < |d| ==> d[k] == down[if k <= i then k else k - 1];
  }

  lemma LinkKeeps(c: Config, s: State, step: Step, last: u32)
    requires Inv(c, s, last) && (step.LoseUp? || step.LoseDown? || step.RepeatUp? || step.RepeatDown?)
    ensures Inv(c, Next(c, s, step), last)
  {
    hide UpOk, LogOk, NotStale, DownOk, Executed, NumberOf, Without, Doubled, BoardOk;
    if (step.LoseUp? || step.RepeatUp?) && step.i < |s.up| {
      UpSubset(c, s.issued, s.up, s.log, step.i);
    }
    if (step.LoseDown? || step.RepeatDown?) && step.i < |s.down| {
      DownSubset(c, s.log, s.down, step.i);
    }
    assert BoardOk(c, Next(c, s, step), last) by { SameBoard(c, s, Next(c, s, step), last); }
  }

  lemma SameBoard(c: Config, s: State, t: State, last: u32)
    requires BoardOk(c, s, last) && t.log == s.log && t.last == s.last && t.cached == s.cached
    ensures BoardOk(c, t, last)
  {
  }

  // ── steps of the board ───────────────────────────────────────────────

  /** The board reads exactly what was sent. */
  lemma ServedFields(c: Config, s: State)
    requires HostOk(s) && UpOk(c, s.issued, s.up) && s.up != []
    ensures
      var f := OnWire(s.up[0]);
      var i := IndexOf(c, s.up[0].x.number);
      && i < |s.issued| && Parses(f) && VerifyChecksum(f) && Number(f) == s.up[0].x.number
      && Subtype(f) == s.up[0].x.subtype == s.issued[i].subtype && Payload(f) == s.issued[i].payload
  {
    hide Wire, IndexOf, NumberOf, Parses, VerifyChecksum;
    assert Travelling(c, s.issued, s.up[0]);
    RoundTrip(s.up[0].x, s.up[0].pad);
  }

  /** The rest of the link after its head has been taken. */
  lemma UpTail(c: Config, issued: seq<Req>, up: seq<Msg>, log: seq<Exec>)
    requires UpOk(c, issued, up) && NotStale(c, up, log) && up != []
    ensures UpOk(c, issued, up[1..]) && NotStale(c, up[1..], log)
    ensures forall k :: 0 <= k < |up[1..]| ==> IndexOf(c, up[0].x.number) <= IndexOf(c, up[1..][k].x.number)
    ensures log != [] ==> IndexOf(c, log[|log| - 1].number) <= IndexOf(c, up[0].x.number)
  {
    hide IndexOf, Travelling;
    assert forall k :: 0 <= k < |up[1..]| ==> up[1..][k] == up[k + 1];
  }

  /** A new execution is the newest, and of a number not yet logged unless it is opcode 8. */
  lemma LogGrows(c: Config, issued: seq<Req>, log: seq<Exec>, e: Exec)
    requires LogOk(c, issued, log) && Logged(c, issued, e)
    requires log != [] ==> IndexOf(c, log[|log| - 1].number) <= IndexOf(c, e.number)
    requires log != [] && e.number == log[|log| - 1].number ==> e.subtype == 8
    ensures LogOk(c, issued, log + [e])
  {
    var now := log + [e];
    forall a | 0 <= a < |log| && log[a].number == e.number
      ensures log[a].subtype == 8
    {
      var z := log[|log| - 1];
      assert IndexOf(c, log[a].number) <= IndexOf(c, z.number);
      NumbersInvert(c, 0, z.number);
      NumbersInvert(c, 0, e.number);
      assert z.number == e.number;
      assert Logged(c, issued, log[a]);
    }
    hide IndexOf;
    assert forall k :: 0 <= k < |log| ==> Logged(c, issued, log[k]) && now[k] == log[k];
  }

  lemma DownGrows(c: Config, log: seq<Exec>, down: seq<Msg>, e: Exec, m: Msg)
    requires DownOk(c, log, down) && m.x == ReplyFields(c, e) && |e.reply| < 0x1_0000
    ensures DownOk(c, log + [e], down + [m])
    ensures e in log ==> DownOk(c, log, down + [m])
  {
    var now := log + [e];
    assert now[|log|] == e;
    forall x | Replied(c, log, x)
      ensures Replied(c, now, x)
    {
      var k :| 0 <= k < |log| && x == ReplyFields(c, log[k]);
      assert now[k] == log[k];
    }
    hide ReplyFields;
    assert Replied(c, now, m.x);
    if e in log {
      var k :| 0 <= k < |log| && log[k] == e;
      assert Replied(c, log, m.x);
    }
    hide Replied;
  }

  lemma ServeKeeps(c: Config, s: State, reply: Bytes, pad: nat, last: u32)
    requires Inv(c, s, last) && Unmistaken(s, Serve(reply, pad), last) && |s.issued| < 0x1_0000_0000 && |reply| < 0x1_0000
    ensures Inv(c, Next(c, s, Serve(reply, pad)), last)
  {
    hide Wire, NumberOf, IndexOf, UpOk, LogOk, DownOk, NotStale, Parses, VerifyChecksum, Logged, Executed;
    if s.up != [] {
      ServedFields(c, s);
      UpTail(c, s.issued, s.up, s.log);
      var f := OnWire(s.up[0]);
      var i := IndexOf(c, Number(f));
      NumbersInvert(c, 0, Number(f));
      var t := ServeStep(c, s, reply, pad);
      if Number(f) == s.last && Subtype(f) != 8 {
        var e := s.log[|s.log| - 1];
        LastLogged(c, s);
        DownGrows(c, s.log, s.down, e, s.cached);
        OkTail(c, s, t);
      } else {
        var e := Exec(Number(f), Subtype(f), Payload(f), reply);
        NewLogged(c, s.issued, e, i);
        LogGrows(c, s.issued, s.log, e);
        DownGrows(c, s.log, s.down, e, t.cached);
        OkTail(c, s, t);
        NewestLog(c, s.up[1..], s.log, e);
      }
    }
  }

  lemma LastLogged(c: Config, s: State)
    requires LogOk(c, s.issued, s.log) && s.log != []
    ensures |s.log[|s.log| - 1].reply| < 0x1_0000
  {
    assert Logged(c, s.issued, s.log[|s.log| - 1]);
  }

  lemma NewLogged(c: Config, issued: seq<Req>, e: Exec, i: nat)
    requires i == IndexOf(c, e.number) < |issued| && e.subtype == issued[i].subtype && e.payload == issued[i].payload
    requires |e.reply| < 0x1_0000
    ensures Logged(c, issued, e)
  {
  }

  lemma NewestLog(c: Config, up: seq<Msg>, log: seq<Exec>, e: Exec)
    requires forall k :: 0 <= k < |up| ==> IndexOf(c, e.number) <= IndexOf(c, up[k].x.number)
    ensures NotStale(c, up, log + [e])
  {
  }

  // ── every run ────────────────────────────────────────────────────────

  lemma NextKeeps(c: Config, s: State, step: Step, last: u32)
    requires Inv(c, s, last) && Unmistaken(s, step, last) && |Next(c, s, step).issued| < 0x1_0000_0000
    ensures Inv(c, Next(c, s, step), last)
  {
    hide Inv, Unmistaken;
    IssuedGrows(c, s, step);
    match step
    case Begin(req, retries, sending) =>
      if s.host.Idle? && |req.payload| < 0x1_0000 {
        BeginKeeps(c, s, req, retries, sending, last);
      }
    case Expire(sending) => ExpireKeeps(c, s, sending, last);
    case Receive => ReceiveKeeps(c, s, last);
    case Break => BreakKeeps(c, s, last);
    case Serve(reply, pad) =>
      if |reply| < 0x1_0000 {
        ServeKeeps(c, s, reply, pad, last);
      }
    case LoseUp(_) => LinkKeeps(c, s, step, last);
    case LoseDown(_) => LinkKeeps(c, s, step, last);
    case RepeatUp(_) => LinkKeeps(c, s, step, last);
    case RepeatDown(_) => LinkKeeps(c, s, step, last);
  }

  lemma FreshFewer(c: Config, m: nat, n: nat, last: u32)
    requires m <= n && Fresh(c, n, last)
    ensures Fresh(c, m, last)
  {
    hide NumberOf;
  }

  lemma IssuedGrows(c: Config, s: State, step: Step)
    ensures s.issued <= Next(c, s, step).issued
    ensures |Next(c, s, step).issued| <= |s.issued| + 1
    ensures step.Begin? && s.host.Idle? && |step.req.payload| < 0x1_0000 ==> |Next(c, s, step).issued| == |s.issued| + 1
  {
    hide Look, Wire, Parses, VerifyChecksum;
  }

  lemma {:induction false} RunGrows(c: Config, s: State, steps: seq<Step>)
    ensures s.issued <= Run(c, s, steps).issued
    decreases |steps|
  {
    hide Next;
    if steps != [] {
      IssuedGrows(c, s, steps[0]);
      RunGrows(c, Next(c, s, steps[0]), steps[1..]);
    }
  }

  lemma {:induction false} RunKeeps(c: Config, s: State, steps: seq<Step>, last: u32)
    requires Inv(c, s, last) && RunUnmistaken(c, s, steps, last) && |Run(c, s, steps).issued| < 0x1_0000_0000
    ensures Inv(c, Run(c, s, steps), last)
    decreases |steps|
  {
    hide Next, Inv, Unmistaken;
    if steps != [] {
      var t := Next(c, s, steps[0]);
      RunGrows(c, t, steps[1..]);
      NextKeeps(c, s, steps[0], last);
      RunKeeps(c, t, steps[1..], last);
    }
  }

  lemma StartInv(c: Config, last: u32, cached: Msg)
    ensures Inv(c, Start(last, cached), last)
  {
  }

  /** In every run in which the board never takes a first frame for a repeat, no request but opcode 8 runs
      twice and every Ok answer is the reply of a run of that very request. The numbers used may include
      the board's initial one, once something has run. */
  lemma ExactlyOnce(c: Config, last: u32, cached: Msg, steps: seq<Step>)
    requires RunUnmistaken(c, Start(last, cached), steps, last)
    requires |Run(c, Start(last, cached), steps).issued| < 0x1_0000_0000
    ensures Good(c, Run(c, Start(last, cached), steps))
  {
    StartInv(c, last, cached);
    RunKeeps(c, Start(last, cached), steps, last);
  }

  // ── fresh numbers ────────────────────────────────────────────────────

  /** A frame of a request with a fresh number is never mistaken. */
  lemma FreshStep(c: Config, s: State, step: Step, last: u32)
    requires Inv(c, s, last) && Fresh(c, |s.issued|, last)
    ensures Unmistaken(s, step, last)
  {
    hide IndexOf, NumberOf, AtMostOnce, LogOk, DownOk, NotStale, OkMeansExecuted;
    if s.up != [] {
      assert Travelling(c, s.issued, s.up[0]);
      NumbersInvert(c, 0, s.up[0].x.number);
    }
  }

  /** If the board's initial number is not used at all, nothing is ever mistaken. */
  lemma {:induction false} FreshIsUnmistaken(c: Config, s: State, steps: seq<Step>, last: u32)
    requires Inv(c, s, last) && Fresh(c, |Run(c, s, steps).issued|, last)
    ensures RunUnmistaken(c, s, steps, last)
    decreases |steps|
  {
    hide Next, Inv, Fresh, Unmistaken;
    if steps != [] {
      var n := |Run(c, s, steps).issued|;
      var t := Next(c, s, steps[0]);
      RunGrows(c, s, steps);
      RunGrows(c, t, steps[1..]);
      FreshIsShort(c, n, last);
      FreshFewer(c, |s.issued|, n, last);
      FreshStep(c, s, steps[0], last);
      NextKeeps(c, s, steps[0], last);
      FreshIsUnmistaken(c, t, steps[1..], last);
    }
  }

  lemma FreshExactlyOnce(c: Config, last: u32, cached: Msg, steps: seq<Step>)
    requires Fresh(c, |Run(c, Start(last, cached), steps).issued|, last)
    ensures Good(c, Run(c, Start(last, cached), steps))
  {
    hide Run, Fresh, RunUnmistaken, Inv, Good;
    StartInv(c, last, cached);
    FreshIsUnmistaken(c, Start(last, cached), steps, last);
    FreshIsShort(c, |Run(c, Start(last, cached), steps).issued|, last);
    ExactlyOnce(c, last, cached, steps);
  }
}
