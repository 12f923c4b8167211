/** The daemon as interleaved steps: signal handlers, control loop, firmware clients and the board worker. */
module Daemon {
  import opened Bytes
  import opened Options
  import opened Text
  import opened SharedState
  import opened Worker
  import opened WorkerRuns
  import opened Line
  import opened Unpack
  import Board
  import Config
  import Firmware
  import Links
  import Request

  datatype Cmd = Reload | RestartLine | Upgrade(client: nat, image: Bytes)

  /** Where the worker thread is. Each round waits for a command and then polls. A changed configuration is sent to the
      board before it is published; a status is published before it is announced; an upgrade is marked in the shared
      state after it is taken and settled there before the result is sent; a report is sent before it is marked. */
  datatype WorkerAt =
    | Between | Polling | Seeing(clock: Clock, line: LineObj)
    | Reloading | Bouncing(loaded: Config.DslConfig) | Restarting
    | Starting(client: nat) | Uploading(client: nat) | Telling(client: nat, p: Firmware.Progress)
    | Settled(client: nat, finish: Firmware.Finish)
    | Gone

  datatype Ending = GotDone | ChannelClosed | ClientLeft

  /** A thread serving one FIRMWARE request; `got` counts the events it has received. */
  datatype Client =
    | Asking | Refused | Admitted | BadImage | Loaded(image: Bytes) | NoWorker
    | Waiting(got: nat) | Finished(got: nat, ending: Ending)

  datatype State = State(
    exit: bool, reload: bool, restart: bool,
    queue: seq<Cmd>, at: WorkerAt, view: View, clients: seq<Client>,
    sent: seq<Cmd>, taken: seq<Cmd>, results: seq<(nat, Firmware.Finish)>, history: seq<Happening>)

  /** Steps of the signal handlers and of the control loop; a stop request sets the exit flag like a signal. */
  datatype Control =
    | SetExit | SetReload | SetRestart
    | ForwardReload | ForwardRestart | IpcReload | IpcRestart | IpcFirmware

  /** Steps of the thread of one client. */
  datatype Act = Checks | Loads(file: Option<Bytes>) | Sends | Receives | Leaves | SeesClosed

  /** Steps of the worker thread. */
  datatype Move =
    | Takes | Waits | Polls(clock: Clock, poll: Poll) | Announces
    | Reloads(loaded: Config.Result<Config.DslConfig>) | Publishes | Restarts
    | Marks | Tells(p: Firmware.Progress) | MarksProgress | Settles(finish: Firmware.Finish) | Replies | Exits

  datatype Step = ControlStep(control: Control) | ClientStep(c: nat, act: Act) | WorkerStep(move: Move)

  function Initial(v: View): State
  {
    State(false, false, false, [], Between, v, [], [], [], [], [])
  }

  // ── steps ────────────────────────────────────────────────────────────

  /** The events sent to one requester. */
  function EventsFor(outbox: seq<(nat, FwEvent)>, c: nat): seq<FwEvent>
  {
    if outbox == [] then []
    else
      var n := |outbox| - 1;
      EventsFor(outbox[..n], c) + if outbox[n].0 == c then [outbox[n].1] else []
  }

  /** What admission lets through. */
  predicate AtRest(fw: FwStatus) { fw.Idle? || fw.UpgradeDone? || fw.UpgradeFailed? }

  /** The worker still holds the sending end of this client's channel. */
  predicate ChannelOpen(s: State, c: nat)
  {
    || s.at == Starting(c) || s.at == Uploading(c) || (s.at.Telling? && s.at.client == c) || (s.at.Settled? && s.at.client == c)
    || (!s.at.Gone? && exists i :: 0 <= i < |s.queue| && s.queue[i].Upgrade? && s.queue[i].client == c)
  }

  predicate IsClient(s: State, c: nat) { c < |s.clients| }

  predicate CanAct(s: State, c: nat, act: Act)
  {
    && IsClient(s, c)
    && match act
       case Checks => s.clients[c].Asking?
       case Loads(_) => s.clients[c].Admitted?
       case Sends => s.clients[c].Loaded?
       case Receives => s.clients[c].Waiting? && s.clients[c].got < |EventsFor(s.view.outbox, c)|
       case Leaves => s.clients[c].Waiting?
       case SeesClosed =>
         s.clients[c].Waiting? && s.clients[c].got == |EventsFor(s.view.outbox, c)| && !ChannelOpen(s, c)
  }

  predicate CanMove(s: State, move: Move)
  {
    match move
    case Takes => s.at.Between? && s.queue != []
    case Waits => s.at.Between? && s.queue == []
    case Polls(_, _) => s.at.Polling?
    case Announces => s.at.Seeing?
    case Reloads(_) => s.at.Reloading?
    case Publishes => s.at.Bouncing?
    case Restarts => s.at.Restarting?
    case Marks => s.at.Starting?
    case Tells(_) => s.at.Uploading?
    case MarksProgress => s.at.Telling?
    case Settles(_) => s.at.Uploading?
    case Replies => s.at.Settled?
    case Exits => s.at.Between? && s.exit
  }

  predicate Enabled(s: State, step: Step)
  {
    match step
    case ControlStep(control) => (control.ForwardReload? ==> s.reload) && (control.ForwardRestart? ==> s.restart)
    case ClientStep(c, act) => CanAct(s, c, act)
    case WorkerStep(move) => CanMove(s, move)
  }

  /** Sending fails once the worker has gone. */
  function Send(s: State, cmd: Cmd): State
  {
    if s.at.Gone? then s else s.(queue := s.queue + [cmd], sent := s.sent + [cmd])
  }

  function AfterControl(s: State, control: Control): State
  {
    match control
    case SetExit => s.(exit := true)
    case SetReload => s.(reload := true)
    case SetRestart => s.(restart := true)
    case ForwardReload => Send(s.(reload := false), Reload)
    case ForwardRestart => Send(s.(restart := false), RestartLine)
    case IpcReload => Send(s, Reload)
    case IpcRestart => Send(s, RestartLine)
    case IpcFirmware => s.(clients := s.clients + [Asking])
  }

  /** The next state of the client itself. */
  function ActOf(s: State, c: nat, act: Act): Client
    requires CanAct(s, c, act)
  {
    match act
    case Checks => if AtRest(s.view.shared.fwStatus) then Admitted else Refused
    case Loads(file) => if file.Some? && Firmware.ValidateImage(file.value).Valid? then Loaded(file.value) else BadImage
    case Sends => if s.at.Gone? then NoWorker else Waiting(0)
    case Receives =>
      var got := s.clients[c].got;
      if EventsFor(s.view.outbox, c)[got].DoneEvent? then Finished(got + 1, GotDone) else Waiting(got + 1)
    case Leaves => Finished(s.clients[c].got, ClientLeft)
    case SeesClosed => Finished(s.clients[c].got, ChannelClosed)
  }

  function AfterAct(s: State, c: nat, act: Act): State
    requires CanAct(s, c, act)
  {
    var sending := if act.Sends? then Send(s, Upgrade(c, s.clients[c].image)) else s;
    sending.(clients := s.clients[c := ActOf(s, c, act)])
  }

  function AfterTaking(cmd: Cmd): WorkerAt
  {
    match cmd case Reload => Reloading case RestartLine => Restarting case Upgrade(c, _) => Starting(c)
  }

  /** This poll brings a status, which is published first and announced then. */
  predicate Sees(v: View, clock: Clock, poll: Poll) { PollDue(v.lastPoll, clock.due) && poll.Seen? }

  predicate Differs(v: View, loaded: Config.Result<Config.DslConfig>) { loaded.Ok? && ConfigChanged(v.cfg, loaded.value) }

  function WithStatus(v: View, fw: FwStatus): View { v.(shared := v.shared.(fwStatus := fw)) }

  function WithEvent(v: View, client: nat, e: FwEvent): View { v.(outbox := v.outbox + [(client, e)]) }

  function AtAfter(s: State, move: Move): WorkerAt
    requires CanMove(s, move)
  {
    match move
    case Takes => AfterTaking(s.queue[0])
    case Waits => Polling
    case Polls(clock, poll) => if Sees(s.view, clock, poll) then Seeing(clock, poll.line) else Between
    case Announces => Between
    case Reloads(loaded) => if Differs(s.view, loaded) then Bouncing(loaded.value) else Polling
    case Publishes => Polling
    case Restarts => Polling
    case Marks => Uploading(s.at.client)
    case Tells(p) => Telling(s.at.client, p)
    case MarksProgress => Uploading(s.at.client)
    case Settles(finish) => Settled(s.at.client, finish)
    case Replies => Polling
    case Exits => Gone
  }

  function ViewAfter(s: State, move: Move, notify: bool): View
    requires CanMove(s, move)
  {
    match move
    case Takes => s.view
    case Waits => s.view
    case Polls(clock, poll) =>
      if Sees(s.view, clock, poll) then Worker.Polling(s.view, clock, poll.line)
      else if PollDue(s.view.lastPoll, clock.due) then s.view.(lastPoll := Some(clock.noted))
      else s.view
    case Announces => Announce(s.view, s.at.line.linkStatus, notify)
    case Reloads(loaded) =>
      if Differs(s.view, loaded) then s.view.(lineUps := s.view.lineUps + [LineUpPayload(loaded.value)]) else s.view
    case Publishes =>
      s.view.(cfg := s.at.loaded, tcEmitted := false, shared := Publish(s.view.shared, s.at.loaded))
    case Restarts => s.view.(tcEmitted := false, lineUps := s.view.lineUps + [LineUpPayload(s.view.cfg)])
    case Marks => WithStatus(s.view, Upgrading)
    case Tells(p) => WithEvent(s.view, s.at.client, ProgressEvent(p))
    case MarksProgress => WithStatus(s.view, UpgradingProgress(s.at.p.stage, s.at.p.pct))
    case Settles(finish) => WithStatus(s.view, ResultStatus(finish))
    case Replies => WithEvent(s.view, s.at.client, DoneEvent(s.at.finish))
    case Exits => s.view
  }

  /** The step of the worker's run that a move completes. */
  function Completes(s: State, move: Move): seq<Happening>
    requires CanMove(s, move)
  {
    match move
    case Polls(clock, poll) => if Sees(s.view, clock, poll) then [] else [Polled(clock, poll)]
    case Announces => [Polled(s.at.clock, Seen(s.at.line))]
    case Reloads(loaded) => if Differs(s.view, loaded) then [] else [Reloaded(loaded)]
    case Publishes => [Reloaded(Config.Ok(s.at.loaded))]
    case Restarts => [Restarted]
    case Marks => [UpgradeStarted]
    case MarksProgress => [Reported(s.at.client, s.at.p)]
    case Replies => [UpgradeEnded(s.at.client, s.at.finish)]
    case _ => []
  }

  function AfterMove(s: State, move: Move, notify: bool): State
    requires CanMove(s, move)
  {
    var queue := if move.Takes? then s.queue[1..] else s.queue;
    var taken := if move.Takes? then s.taken + [s.queue[0]] else s.taken;
    var results := if move.Settles? then s.results + [(s.at.client, move.finish)] else s.results;
    s.(queue := queue, taken := taken, results := results,
       at := AtAfter(s, move), view := ViewAfter(s, move, notify), history := s.history + Completes(s, move))
  }

  /** What a move tells the requester and the shared status. */
  lemma MoveTells(s: State, move: Move, notify: bool)
    requires CanMove(s, move)
    ensures
      var w := ViewAfter(s, move, notify);
      && w.outbox == (if move.Tells? then s.view.outbox + [(s.at.client, ProgressEvent(move.p))]
                      else if move.Replies? then s.view.outbox + [(s.at.client, DoneEvent(s.at.finish))]
                      else s.view.outbox)
      && w.shared.fwStatus ==
         (if move.Marks? then Upgrading
          else if move.MarksProgress? then UpgradingProgress(s.at.p.stage, s.at.p.pct)
          else if move.Settles? then ResultStatus(move.finish)
          else s.view.shared.fwStatus)
  {
    hide PollDue, UpFrom, UptimeAt, EventOf, ConfigChanged, LineUpPayload, ResultStatus;
  }

  function Next(s: State, step: Step, notify: bool): State
    requires Enabled(s, step)
  {
    match step
    case ControlStep(control) => AfterControl(s, control)
    case ClientStep(c, act) => AfterAct(s, c, act)
    case WorkerStep(move) => AfterMove(s, move, notify)
  }

  /** A run of the daemon whose worker starts as `v`; `notify` tells whether there is a script. */
  ghost predicate Reaches(steps: seq<Step>, s: State, v: View, notify: bool)
  {
    if steps == [] then s == Initial(v)
    else
      var n := |steps| - 1;
      exists r: State :: Reaches(steps[..n], r, v, notify) && Enabled(r, steps[n]) && s == Next(r, steps[n], notify)
  }

  // ── commands ─────────────────────────────────────────────────────────

  /** The requesters of the upgrades among the commands. */
  function Requesters(cmds: seq<Cmd>): seq<nat>
  {
    if cmds == [] then []
    else
      var n := |cmds| - 1;
      Requesters(cmds[..n]) + if cmds[n].Upgrade? then [cmds[n].client] else []
  }

  lemma RequestersSnoc(cmds: seq<Cmd>, cmd: Cmd)
    ensures Requesters(cmds + [cmd]) == Requesters(cmds) + if cmd.Upgrade? then [cmd.client] else []
  {
    assert (cmds + [cmd])[..|cmds|] == cmds;
  }

  /** The upgrade that has been taken and not settled. */
  function Current(at: WorkerAt): seq<nat>
  {
    if at.Starting? || at.Uploading? || at.Telling? then [at.client] else []
  }

  /** Commands are executed in the order sent, and upgrades are settled in the order taken. */
  predicate InOrder(s: State)
  {
    s.sent == s.taken + s.queue && Requesters(s.taken) == Firsts(s.results) + Current(s.at)
  }

  lemma SendInOrder(s: State, cmd: Cmd)
    requires InOrder(s)
    ensures InOrder(Send(s, cmd))
  {
    hide Requesters, Firsts;
    assert s.taken + s.queue + [cmd] == s.taken + (s.queue + [cmd]);
  }

  lemma MoveInOrder(s: State, move: Move, notify: bool)
    requires InOrder(s) && CanMove(s, move)
    ensures InOrder(AfterMove(s, move, notify))
  {
    hide Requesters, ViewAfter, Completes;
    match move
    case Takes =>
      RequestersSnoc(s.taken, s.queue[0]);
      assert s.queue == [s.queue[0]] + s.queue[1..];
    case Settles(finish) =>
      assert Firsts(s.results + [(s.at.client, finish)]) == Firsts(s.results) + [s.at.client];
    case _ =>
  }

  /** The part of the state that only sending and the worker change. */
  predicate SameWork(s: State, t: State)
  {
    && s.queue == t.queue && s.at == t.at && s.view == t.view && s.sent == t.sent
    && s.taken == t.taken && s.results == t.results && s.history == t.history
  }

  /** The command a step sends. */
  function Sending(s: State, step: Step): Option<Cmd>
    requires Enabled(s, step)
  {
    match step
    case ControlStep(control) =>
      if control.ForwardReload? || control.IpcReload? then Some(Reload)
      else if control.ForwardRestart? || control.IpcRestart? then Some(RestartLine)
      else None
    case ClientStep(c, act) => if act.Sends? then Some(Upgrade(c, s.clients[c].image)) else None
    case WorkerStep(_) => None
  }

  lemma ControlWork(s: State, control: Control)
    requires Enabled(s, ControlStep(control))
    ensures
      var cmd := Sending(s, ControlStep(control));
      SameWork(AfterControl(s, control), if cmd.Some? then Send(s, cmd.value) else s)
  {
  }

  lemma ActWork(s: State, c: nat, act: Act)
    requires CanAct(s, c, act)
    ensures SameWork(AfterAct(s, c, act), if act.Sends? then Send(s, Upgrade(c, s.clients[c].image)) else s)
  {
    hide EventsFor, ChannelOpen, ActOf;
  }

  lemma OtherSteps(s: State, step: Step, notify: bool)
    requires Enabled(s, step) && !step.WorkerStep?
    ensures
      var cmd := Sending(s, step);
      SameWork(Next(s, step, notify), if cmd.Some? then Send(s, cmd.value) else s)
  {
    hide AfterControl, AfterAct, Send, CanAct, SameWork;
    match step
    case ControlStep(control) => ControlWork(s, control);
    case ClientStep(c, act) => ActWork(s, c, act);
  }

  lemma StepInOrder(s: State, step: Step, notify: bool)
    requires InOrder(s) && Enabled(s, step)
    ensures InOrder(Next(s, step, notify))
  {
    hide Requesters, Firsts, Current, AfterMove, AfterControl, AfterAct, Sending, Send;
    match step
    case WorkerStep(move) => MoveInOrder(s, move, notify);
    case _ =>
      OtherSteps(s, step, notify);
      if Sending(s, step).Some? {
        SendInOrder(s, Sending(s, step).value);
      }
  }

  // ── what becomes of a command ────────────────────────────────────────

  /** What the worker does about a command. */
  datatype Deed = DidReload | DidBounce | DidUpgrade

  /** What the commands ask for. */
  function DeedsAsked(cmds: seq<Cmd>): seq<Deed>
  {
    if cmds == [] then []
    else
      var n := |cmds| - 1;
      DeedsAsked(cmds[..n]) +
      [match cmds[n] case Reload => DidReload case RestartLine => DidBounce case Upgrade(_, _) => DidUpgrade]
  }

  /** What the steps of the worker's run have done. */
  function DeedsDone(hs: seq<Happening>): seq<Deed>
  {
    if hs == [] then []
    else
      var n := |hs| - 1;
      DeedsDone(hs[..n]) +
      match hs[n]
      case Reloaded(_) => [DidReload]
      case Restarted => [DidBounce]
      case UpgradeStarted => [DidUpgrade]
      case _ => []
  }

  /** What has been taken up and is not in the run yet. */
  function DeedPending(at: WorkerAt): seq<Deed>
  {
    match at
    case Reloading => [DidReload]
    case Bouncing(_) => [DidReload]
    case Restarting => [DidBounce]
    case Starting(_) => [DidUpgrade]
    case _ => []
  }

  /** Every command taken is carried out as what it is, once and in order. */
  predicate CarriedOut(s: State) { DeedsAsked(s.taken) == DeedsDone(s.history) + DeedPending(s.at) }

  lemma DeedsAskedSnoc(cmds: seq<Cmd>, cmd: Cmd)
    ensures DeedsAsked(cmds + [cmd]) == DeedsAsked(cmds) + DeedsAsked([cmd])
  {
    assert (cmds + [cmd])[..|cmds|] == cmds && [cmd][..0] == [];
  }

  lemma DeedsDoneSnoc(hs: seq<Happening>, h: Happening)
    ensures DeedsDone(hs + [h]) == DeedsDone(hs) + DeedsDone([h])
  {
    assert (hs + [h])[..|hs|] == hs && [h][..0] == [];
  }

  /** What a move takes up and completes. */
  lemma MoveDeeds(s: State, move: Move)
    requires CanMove(s, move) && !move.Takes?
    ensures DeedPending(s.at) == DeedsDone(Completes(s, move)) + DeedPending(AtAfter(s, move))
    ensures |Completes(s, move)| <= 1
  {
    hide Sees, Differs;
    var done := Completes(s, move);
    assert done != [] ==> done == [done[0]] && done[..0] == [];
  }

  lemma MoveCarriesOut(s: State, move: Move, notify: bool)
    requires CarriedOut(s) && CanMove(s, move)
    ensures CarriedOut(AfterMove(s, move, notify))
  {
    hide DeedsAsked, DeedsDone, ViewAfter, Completes, AtAfter;
    if move.Takes? {
      DeedsAskedSnoc(s.taken, s.queue[0]);
      TakenUp(s);
    } else {
      MoveDeeds(s, move);
      var done := Completes(s, move);
      if done == [] {
        assert s.history + done == s.history && DeedsDone([]) == [] by { NothingDone(); }
      } else {
        assert done == [done[0]];
        DeedsDoneSnoc(s.history, done[0]);
      }
      Regroup(DeedsDone(s.history), DeedsDone(done), DeedPending(AtAfter(s, move)));
    }
  }

  lemma NothingDone()
    ensures DeedsDone([]) == []
  {
  }

  lemma TakenUp(s: State)
    requires CanMove(s, Takes)
    ensures DeedPending(s.at) == [] && Completes(s, Takes) == [] && s.history + [] == s.history
    ensures DeedPending(AtAfter(s, Takes)) == DeedsAsked([s.queue[0]])
  {
    assert [s.queue[0]][..0] == [];
  }

  lemma StepCarriesOut(s: State, step: Step, notify: bool)
    requires CarriedOut(s) && Enabled(s, step)
    ensures CarriedOut(Next(s, step, notify))
  {
    hide DeedsAsked, DeedsDone, DeedPending, AfterMove, AfterControl, AfterAct, Sending;
    match step
    case WorkerStep(move) => MoveCarriesOut(s, move, notify);
    case _ => OtherSteps(s, step, notify);
  }

  /** Between two rounds a waiting command goes before a poll: with one in the queue the worker takes the first or leaves,
      with none it polls or leaves. */
  lemma CommandsFirst(s: State, move: Move, notify: bool)
    requires s.at.Between? && CanMove(s, move)
    ensures s.queue != [] ==> move.Takes? || (move.Exits? && s.exit)
    ensures s.queue == [] ==> AfterMove(s, move, notify).at.Polling? || (move.Exits? && s.exit)
    ensures move.Takes? ==> AfterMove(s, move, notify).queue == s.queue[1..]
  {
    hide ViewAfter, Completes;
  }

  // ── the upgrade status ───────────────────────────────────────────────

  /** What the last settled upgrade left behind. */
  function LastResult(results: seq<(nat, Firmware.Finish)>): FwStatus
  {
    if results == [] then Idle else ResultStatus(results[|results| - 1].1)
  }

  /** It says done exactly if the last upgrade settled was done, and else how it failed. */
  lemma LastResultIs(results: seq<(nat, Firmware.Finish)>)
    ensures LastResult(results) == Idle <==> results == []
    ensures LastResult(results) == UpgradeDone <==> results != [] && results[|results| - 1].1.Done?
    ensures forall f :: LastResult(results) == UpgradeFailed(f) <==> results != [] && results[|results| - 1].1 == f && !f.Done?
  {
  }

  /** The shared status says that an upgrade is going on exactly from its mark to its settling, and the last result otherwise. */
  predicate StatusTells(s: State)
  {
    && (!AtRest(s.view.shared.fwStatus) <==> s.at.Uploading? || s.at.Telling?)
    && (AtRest(s.view.shared.fwStatus) ==> s.view.shared.fwStatus == LastResult(s.results))
    && (s.at.Settled? ==> s.results != [] && s.results[|s.results| - 1] == (s.at.client, s.at.finish))
  }

  lemma StepStatus(s: State, step: Step, notify: bool)
    requires StatusTells(s) && Enabled(s, step)
    ensures StatusTells(Next(s, step, notify))
  {
    if step.WorkerStep? {
      MoveStatus(s, step.move, notify);
    } else {
      hide AfterMove, AfterControl, AfterAct, Sending, LastResult;
      OtherSteps(s, step, notify);
    }
  }

  lemma MoveStatus(s: State, move: Move, notify: bool)
    requires StatusTells(s) && CanMove(s, move)
    ensures StatusTells(AfterMove(s, move, notify))
  {
    hide ViewAfter, Completes, Differs, Sees;
    MoveTells(s, move, notify);
  }

  // ── the worker's own view ────────────────────────────────────────────

  /** How the worker starts: nothing done, and the configuration given to the board and published. */
  predicate Start(v: View)
  {
    Fresh(v) && InSync(v) && v.outbox == [] && v.shared.fwStatus == Idle
  }

  /** What the daemon starts from: the store and the command line, or the defaults. */
  function StartConfig(store: Option<Config.Uci>, ov: Config.CliOverrides): Config.DslConfig
  {
    var loaded := Config.Load(store, ov);
    if loaded.Ok? then loaded.value else Config.Default()
  }

  /** The line is configured and the data plane added; errors of both are ignored. */
  method LineAndLink(board: Board.Board, cfg: Config.DslConfig) returns (vlan: u16)
    requires board.txCap >= Board.BUF_SIZE
    modifies board`seqNumber, board`asked, board.sock
    ensures |board.asked| == |old(board.asked)| + 2 && board.asked[..|old(board.asked)|] == old(board.asked)
    ensures board.asked[|old(board.asked)|].subtype == 1 && board.asked[|old(board.asked)|].payload == LineUpPayload(cfg)
    ensures
      var link := board.asked[|old(board.asked)| + 1];
      link.subtype == Links.Opcode(cfg) && link.payload == Links.Payload(cfg) && vlan == Links.Granted(cfg, link.answer)
    ensures LineUps(board.asked) == LineUps(old(board.asked)) + [LineUpPayload(cfg)]
  {
    hide LineUps, Links.Payload, Links.Granted, Board.AfterRequest, Board.Given, Request.Heard, LineUpPayload;
    var _ := board.Request(1, LineUpPayload(cfg));
    ghost var first := board.asked;
    LineUpsSnoc(old(board.asked), first[|old(board.asked)|]);
    var answer := board.Request(Links.Opcode(cfg), Links.Payload(cfg));
    LineUpsSnoc(first, board.asked[|first|]);
    assert LineUps(first) + [] == LineUps(first);
    vlan := Links.Granted(cfg, answer);
  }

  /** The daemon checks the configuration, gives line and data plane to the board, publishes it, announces the transfer
      mode and creates the worker. What the board answers decides only the VLAN of the host's interface. */
  method Launch(board: Board.Board, overrides: Config.CliOverrides, store: Option<Config.Uci>, notify: bool)
    returns (worker: BoardWorker?, vlan: u16, told: seq<Note>)
    requires board.txCap >= Board.BUF_SIZE
    modifies board`seqNumber, board`asked, board.sock
    ensures worker != null <==> Config.Load(store, overrides).Err? || Config.TransferAgrees(store.value, overrides)
    ensures worker == null ==> board.asked == old(board.asked) && told == []
    ensures worker != null ==>
      var cfg := StartConfig(store, overrides);
      && fresh(worker) && fresh(worker.state) && fresh(worker.outbox) && worker.board == board && worker.overrides == overrides && worker.notify == notify
      && Start(worker.Now()) && worker.cfg == cfg
      && told == (if notify then [TcLayerNote(cfg.xferMode)] else [])
      && |board.asked| == |old(board.asked)| + 2 && board.asked[..|old(board.asked)|] == old(board.asked)
      && board.asked[|old(board.asked)|].subtype == 1 && board.asked[|old(board.asked)|].payload == LineUpPayload(cfg)
      && var link := board.asked[|old(board.asked)| + 1];
         link.subtype == Links.Opcode(cfg) && link.payload == Links.Payload(cfg) && vlan == Links.Granted(cfg, link.answer)
  {
    hide LineUps, PackDslLine, Config.Build, Config.Default, Config.TransferAgrees, Config.LineFine, Config.XferFine,
      Links.Payload, Links.Granted, LineUpPayload, Config.Load;
    var cfg := StartConfig(store, overrides);
    StartCheck(store, overrides);
    if !Config.LineFine(cfg) || !Config.XferFine(cfg) {
      return null, 0, [];
    }
    vlan := LineAndLink(board, cfg);
    told := if notify then [TcLayerNote(cfg.xferMode)] else [];
    var state := new DslState(Shared(None, 0, Some(cfg.xferMode), cfg.modulation, cfg.annex, Idle));
    worker := new BoardWorker(board, cfg, overrides, state, notify);
  }

  /** One link request was added, the one for `c`; it is the one for `wanted` exactly if both ask for the same link. */
  ghost predicate LinkIsOfStart(before: seq<Board.Asked>, after: seq<Board.Asked>, c: Config.DslConfig, wanted: Config.DslConfig)
  {
    var links := LinkRequests(after);
    && |links| == |LinkRequests(before)| + 1 && links[..|links| - 1] == LinkRequests(before)
    && var link := links[|links| - 1];
       && link.subtype == Links.Opcode(c) && link.payload == Links.Payload(c)
       && (link.payload == Links.Payload(wanted) <==> Links.SameLink(c, wanted))
  }

  /** The daemon started, its worker run to its end: the one data-plane link told to the board is that of the start, and
      it is the link that the last usable store asks for exactly if transfer mode, VLAN and ATM parameters are the same. */
  method LaunchAndRun(board: Board.Board, overrides: Config.CliOverrides, store: Option<Config.Uci>, notify: bool,
                      turns: seq<Turn>)
    returns (alive: bool, ghost start: Option<View>, ghost courses: seq<Course>)
    requires board.txCap >= Board.BUF_SIZE
    modifies board, board.sock
    ensures start.Some? <==> Config.Load(store, overrides).Err? || Config.TransferAgrees(store.value, overrides)
    ensures start.None? ==> board.asked == old(board.asked)
    ensures |courses| <= |turns|
    ensures
      alive && start.Some? ==>
        var c := start.value.cfg;
        && Start(start.value) && c == StartConfig(store, overrides)
        && CoursesFit(start.value, turns[..|courses|], courses, overrides, notify)
        && LinkIsOfStart(old(board.asked), board.asked, c, Wanted(c, AllSteps(turns[..|courses|], courses, overrides)))
  {
    hide LinkRequests, LineUps, Links.Payload, Links.Granted, Config.TransferAgrees, Config.Build, StartConfig, Start, RunAll,
      CoursesFit, AllAskedIn, AllSteps, Wanted, LineUpPayload, Links.SameLink;
    var worker, _, _ := Launch(board, overrides, store, notify);
    if worker == null {
      return true, None, [];
    }
    start := Some(worker.Now());
    var c := worker.cfg;
    ghost var asked := board.asked;
    LaunchedLinks(old(board.asked), asked);
    alive, courses := worker.Run(turns);
    Links.PayloadTells(c, Wanted(c, AllSteps(turns[..|courses|], courses, overrides)));
  }

  lemma LaunchedLinks(before: seq<Board.Asked>, after: seq<Board.Asked>)
    requires |after| == |before| + 2 && after[..|before|] == before
    requires after[|before|].subtype == 1 && IsLink(after[|before| + 1])
    ensures LinkRequests(after) == LinkRequests(before) + [after[|before| + 1]]
  {
    hide LinkRequests;
    LinkRequestsSnoc(before, after[|before|]);
    LinkRequestsSnoc(before + [after[|before|]], after[|before| + 1]);
    assert after == before + [after[|before|]] + [after[|before| + 1]];
  }

  lemma StartCheck(store: Option<Config.Uci>, ov: Config.CliOverrides)
    ensures
      var cfg := StartConfig(store, ov);
      Config.LineFine(cfg) && Config.XferFine(cfg) <==>
        Config.Load(store, ov).Err? || Config.TransferAgrees(store.value, ov)
  {
    hide Config.Build, Config.Default, Config.TransferAgrees, Config.LineFine, Config.XferFine;
    Config.DefaultIsFine();
    if store.Some? {
      Config.StartsIff(store.value, ov);
    }
  }

  /** What a step under way has done already. */
  function Midway(w: View, at: WorkerAt): View
  {
    match at
    case Seeing(clock, line) => Worker.Polling(w, clock, line)
    case Bouncing(loaded) => w.(lineUps := w.lineUps + [LineUpPayload(loaded)])
    case Telling(client, p) => WithEvent(w, client, ProgressEvent(p))
    case Settled(_, finish) => WithStatus(w, ResultStatus(finish))
    case _ => w
  }

  /** The step under way is one that goes on. */
  predicate GoesOn(w: View, at: WorkerAt)
  {
    && (at.Seeing? ==> PollDue(w.lastPoll, at.clock.due))
    && (at.Bouncing? ==> ConfigChanged(w.cfg, at.loaded))
  }

  /** Everything the worker keeps, publishes and sends is that of its run, and of the first half of a step under way. */
  predicate Linked(s: State, v: View, notify: bool)
  {
    var w := RunAll(v, s.history, notify);
    s.view == Midway(w, s.at) && GoesOn(w, s.at)
  }

  lemma StepLinked(s: State, step: Step, v: View, notify: bool)
    requires Linked(s, v, notify) && Enabled(s, step)
    ensures Linked(Next(s, step, notify), v, notify)
  {
    hide RunAll, Midway, GoesOn;
    if step.WorkerStep? {
      MoveLinked(s, step.move, v, notify);
    } else {
      hide AfterMove, AfterControl, AfterAct, Sending;
      OtherSteps(s, step, notify);
    }
  }

  /** The second half of a step completes it. */
  lemma MidwayCompletes(w: View, s: State, move: Move, notify: bool)
    requires s.view == Midway(w, s.at) && GoesOn(w, s.at) && CanMove(s, move)
    ensures
      var t := ViewAfter(s, move, notify);
      var at := AtAfter(s, move);
      var done := Completes(s, move);
      if done == [] then t == Midway(w, at) && GoesOn(w, at)
      else done == [done[0]] && t == Apply(w, done[0], notify) && t == Midway(t, at) && GoesOn(t, at)
  {
    hide PollDue, UpFrom, UptimeAt, EventOf, ConfigChanged, LineUpPayload, ResultStatus, Announce, Publish;
  }

  lemma MoveLinked(s: State, move: Move, v: View, notify: bool)
    requires Linked(s, v, notify) && CanMove(s, move)
    ensures Linked(AfterMove(s, move, notify), v, notify)
  {
    hide RunAll, Apply, Midway, GoesOn, ViewAfter, AtAfter, Completes, CanMove;
    MidwayCompletes(RunAll(v, s.history, notify), s, move, notify);
    var done := Completes(s, move);
    assert AfterMove(s, move, notify).history == s.history + done;
    if done == [] {
      assert s.history + done == s.history;
    } else {
      RunSnoc(v, s.history, done[0], notify);
    }
  }
}
