/** The condition on the board's initial number is the right one: without it a run fails. */
module ProtocolLimits {
  import opened Bytes
  import opened Checksum
  import opened Frame
  import opened Request
  import opened Protocol
  import opened ProtocolSafety

  lemma {:induction false} RunAppend(c: Config, s: State, a: seq<Step>, b: seq<Step>)
    ensures Run(c, s, a + b) == Run(c, Run(c, s, a), b)
    decreases |a|
  {
    hide Next;
    if a == [] {
      assert a + b == b;
    } else {
      assert (a + b)[1..] == a[1..] + b;
      RunAppend(c, Next(c, s, a[0]), a[1..], b);
    }
  }

  lemma RunThree(c: Config, s: State, a: Step, b: Step, d: Step)
    ensures Run(c, s, [a, b, d]) == Next(c, Next(c, Next(c, s, a), b), d)
  {
    hide Next;
    assert [a, b, d][1..] == [b, d] && [b, d][1..] == [d] && [d][1..] == [];
    assert Run(c, s, [a, b, d]) == Run(c, Next(c, s, a), [b, d]);
    assert Run(c, Next(c, s, a), [b, d]) == Run(c, Next(c, Next(c, s, a), b), [d]);
  }

  function Ping(): Req { Req(2, [2]) }

  /** `k` requests have been sent and lost, and nothing else has happened. */
  function AllLost(last: u32, cached: Msg, k: nat): State
  {
    Start(last, cached).(issued := seq(k, _ => Ping()), results := seq(k, _ => Timeout))
  }

  lemma OneLost(c: Config, last: u32, cached: Msg, k: nat)
    ensures Run(c, AllLost(last, cached, k), [Begin(Ping(), 0, Sent), LoseUp(0), Expire(Sent)]) == AllLost(last, cached, k + 1)
  {
    var s := AllLost(last, cached, k);
    RunThree(c, s, Begin(Ping(), 0, Sent), LoseUp(0), Expire(Sent));
    hide NumberOf, Look;
    var s1 := Next(c, s, Begin(Ping(), 0, Sent));
    assert s1.issued == seq(k + 1, _ => Ping()) && |s1.up| == 1 && s1.down == [];
    var s2 := Next(c, s1, LoseUp(0));
    assert s2.up == [] && s2.host == Busy(1);
    assert s2.results + [Timeout] == seq(k + 1, _ => Timeout);
  }

  lemma {:induction false} ManyLost(c: Config, last: u32, cached: Msg, k: nat) returns (steps: seq<Step>)
    ensures Run(c, Start(last, cached), steps) == AllLost(last, cached, k)
  {
    hide Next;
    if k == 0 {
      steps := [];
      assert AllLost(last, cached, 0) == Start(last, cached);
    } else {
      var before := ManyLost(c, last, cached, k - 1);
      var more := [Begin(Ping(), 0, Sent), LoseUp(0), Expire(Sent)];
      RunAppend(c, Start(last, cached), before, more);
      OneLost(c, last, cached, k - 1);
      steps := before + more;
    }
  }

  /** The board's cached reply to its last request before the run. */
  function OldReply(c: Config, last: u32): Msg
  {
    Msg(Fields(c.mac, c.boardMac, MAGIC_RESPONSE, Ping().subtype, last, []), 0)
  }

  /** The state after request `k` has been sent. */
  function PingSent(c: Config, last: u32, k: nat): State
  {
    AllLost(last, OldReply(c, last), k).(host := Busy(1), issued := seq(k + 1, _ => Ping()), up := [CommandMsg(c, Ping(), k)])
  }

  lemma StepSend(c: Config, last: u32, k: nat)
    ensures Next(c, AllLost(last, OldReply(c, last), k), Begin(Ping(), 0, Sent)) == PingSent(c, last, k)
  {
    hide NumberOf, Look, Wire;
    assert seq(k, _ => Ping()) + [Ping()] == seq(k + 1, _ => Ping());
  }

  /** The board takes the number for a repeat. */
  lemma StepServe(c: Config, last: u32, k: nat)
    requires NumberOf(c, k) == last
    ensures Next(c, PingSent(c, last, k), Serve([], 0)) == PingSent(c, last, k).(up := [], down := [OldReply(c, last)])
  {
    hide NumberOf, Wire, Parses, VerifyChecksum;
    var m := CommandMsg(c, Ping(), k);
    RoundTrip(m.x, m.pad);
    assert [m][1..] == [];
  }

  lemma StepReceive(c: Config, last: u32, k: nat)
    requires NumberOf(c, k) == last && c.cap >= HEADER_LEN
    ensures
      var s := Next(c, PingSent(c, last, k).(up := [], down := [OldReply(c, last)]), Receive);
      |s.issued| == |s.results| == k + 1 && s.log == [] && s.results[k] == Ok([])
  {
    hide NumberOf, Look, Wire;
    var s := PingSent(c, last, k).(up := [], down := [OldReply(c, last)]);
    LookAtWire(QueryOf(c, s), OldReply(c, last).x, 0);
  }

  /** Request `k` reuses the board's number: it is answered Ok and never runs. */
  lemma AnsweredFromCache(c: Config, last: u32, k: nat)
    requires NumberOf(c, k) == last && c.cap >= HEADER_LEN
    ensures
      var s := Run(c, AllLost(last, OldReply(c, last), k), [Begin(Ping(), 0, Sent), Serve([], 0), Receive]);
      |s.issued| == |s.results| == k + 1 && s.log == [] && s.results[k] == Ok([])
  {
    hide Next, Run;
    RunThree(c, AllLost(last, OldReply(c, last), k), Begin(Ping(), 0, Sent), Serve([], 0), Receive);
    StepSend(c, last, k);
    StepServe(c, last, k);
    StepReceive(c, last, k);
  }

  /** Without a fresh number some run of at most `n` requests breaks the promise. */
  lemma NotFreshFails(c: Config, n: nat, last: u32, k: nat) returns (steps: seq<Step>)
    requires k < n && NumberOf(c, k) == last && c.cap >= HEADER_LEN
    ensures |Run(c, Start(last, OldReply(c, last)), steps).issued| <= n
    ensures !Good(c, Run(c, Start(last, OldReply(c, last)), steps))
  {
    hide Next, NumberOf;
    var before := ManyLost(c, last, OldReply(c, last), k);
    var more := [Begin(Ping(), 0, Sent), Serve([], 0), Receive];
    RunAppend(c, Start(last, OldReply(c, last)), before, more);
    AnsweredFromCache(c, last, k);
    steps := before + more;
    var s := Run(c, Start(last, OldReply(c, last)), steps);
    assert !Executed(s.log, NumberOf(c, k), s.issued[k], s.results[k].payload);
  }

  /** The promise holds over all runs of at most `n` requests if and only if the board's initial
      number is not one of the first `n`; that it differs from the first one alone is not enough. */
  lemma ExactlyOnceIff(c: Config, n: nat, last: u32)
    requires c.cap >= HEADER_LEN
    ensures Fresh(c, n, last) <==>
      forall cached: Msg, steps: seq<Step> ::
        |Run(c, Start(last, cached), steps).issued| <= n ==> Good(c, Run(c, Start(last, cached), steps))
  {
    hide Good, Run, NumberOf;
    if Fresh(c, n, last) {
      forall cached: Msg, steps: seq<Step> | |Run(c, Start(last, cached), steps).issued| <= n
        ensures Good(c, Run(c, Start(last, cached), steps))
      {
        FreshFewer(c, |Run(c, Start(last, cached), steps).issued|, n, last);
        FreshExactlyOnce(c, last, cached, steps);
      }
    } else {
      var k :| 0 <= k < n && NumberOf(c, k) == last;
      var steps := NotFreshFails(c, n, last, k);
    }
  }
}
