/** What the board worker shares with the other threads, and what an upgrade tells its requester. */
module SharedState {
  import opened Bytes
  import opened Line
  import opened Options
  import opened Unpack
  import Firmware

  datatype FwStatus = Idle | Upgrading | UpgradingProgress(stage: byte, pct: byte) | UpgradeDone | UpgradeFailed(why: Firmware.Finish)

  datatype FwEvent = ProgressEvent(p: Firmware.Progress) | DoneEvent(finish: Firmware.Finish)

  /** The state shared with the control loop, the bus and the firmware clients. */
  datatype Shared = Shared(
    line: Option<LineObj>, uptimeSecs: nat, xferMode: Option<XferMode>,
    modulation: Modulation, annex: Annex, fwStatus: FwStatus)

  class DslState {
    var value: Shared

    constructor (value: Shared)
      ensures this.value == value
    {
      this.value := value;
    }
  }

  /** The sending ends of the requesters' channels: everything sent, with its addressee. */
  class Outbox {
    var events: seq<(nat, FwEvent)>

    constructor ()
      ensures events == []
    {
      events := [];
    }
  }

  /** A report, and the number of requests made of the board before it was given. */
  type Timed = (Firmware.Progress, nat)

  function Sent(client: nat, reports: seq<Firmware.Progress>): (r: seq<(nat, FwEvent)>)
    ensures |r| == |reports|
  {
    seq(|reports|, i requires 0 <= i < |reports| => (client, ProgressEvent(reports[i])))
  }

  /** The last report is the status. */
  function Marked(s: Shared, reports: seq<Firmware.Progress>): Shared
  {
    if reports == [] then s
    else s.(fwStatus := UpgradingProgress(reports[|reports| - 1].stage, reports[|reports| - 1].pct))
  }

  /** What an upload calls with each report: it is sent to the requester and then marked in the shared state. */
  class Requester {
    const client: nat
    const state: DslState
    const outbox: Outbox
    ghost const events: seq<(nat, FwEvent)>
    ghost const shared: Shared
    ghost var log: seq<Timed>

    constructor (client: nat, state: DslState, outbox: Outbox)
      ensures this.client == client && this.state == state && this.outbox == outbox
      ensures events == outbox.events && shared == state.value && log == [] && Valid()
    {
      this.client, this.state, this.outbox := client, state, outbox;
      events, shared, log := outbox.events, state.value, [];
    }

    /** Everything reported so far, and nothing else, has been sent and marked. */
    ghost predicate Valid()
      reads this, state, outbox
    {
      outbox.events == events + Sent(client, Firsts(log)) && state.value == Marked(shared, Firsts(log))
    }

    method Hear(p: Firmware.Progress, ghost made: nat)
      requires Valid()
      modifies this`log, state, outbox
      ensures Valid() && log == old(log) + [(p, made)]
    {
      assert Firsts(log + [(p, made)]) == Firsts(log) + [p];
      assert Sent(client, Firsts(log) + [p]) == Sent(client, Firsts(log)) + [(client, ProgressEvent(p))];
      outbox.events := outbox.events + [(client, ProgressEvent(p))];
      state.value := state.value.(fwStatus := UpgradingProgress(p.stage, p.pct));
      log := log + [(p, made)];
    }
  }
}
