/** What every firmware requester sees, and the summary over every run of the daemon. */
module DaemonSafety {
  import opened Bytes
  import opened Options
  import opened Text
  import opened SharedState
  import opened Worker
  import opened WorkerRuns
  import opened Daemon
  import Firmware

  // ── each client sends at most one command ────────────────────────────

  predicate Served(c: Client) { c.Waiting? || c.Finished? }

  predicate NoRepeats(cs: seq<nat>) { forall i, j :: 0 <= i < j < |cs| ==> cs[i] != cs[j] }

  /** The requesters of the upgrades sent are distinct, and are exactly the clients that got that far. */
  predicate OwnCommands(s: State)
  {
    var r := Requesters(s.sent);
    && NoRepeats(r)
    && (forall c :: c in r ==> IsClient(s, c) && Served(s.clients[c]))
    && (forall c: nat :: c < |s.clients| && Served(s.clients[c]) ==> c in r)
  }

  lemma StepOwn(s: State, step: Step, notify: bool)
    requires OwnCommands(s) && Enabled(s, step)
    ensures OwnCommands(Next(s, step, notify))
  {
    hide NoRepeats, Requesters, AfterAct, AfterControl, ViewAfter, AtAfter, Completes;
    match step
    case ControlStep(control) => ControlOwn(s, control);
    case ClientStep(c, act) => ActOwn(s, c, act);
    case WorkerStep(move) =>
  }

  lemma ControlOwn(s: State, control: Control)
    requires OwnCommands(s) && Enabled(s, ControlStep(control))
    ensures OwnCommands(AfterControl(s, control))
  {
    hide NoRepeats, Requesters;
    RequestersSnoc(s.sent, Reload);
    RequestersSnoc(s.sent, RestartLine);
    assert forall r: seq<nat> :: r + [] == r;
    assert forall c: nat :: IsClient(s, c) ==> (s.clients + [Asking])[c] == s.clients[c];
  }

  lemma ActOwn(s: State, c: nat, act: Act)
    requires OwnCommands(s) && CanAct(s, c, act)
    ensures OwnCommands(AfterAct(s, c, act))
  {
    hide Requesters, EventsFor, ChannelOpen, Firmware.ValidateImage, AtRest;
    if act.Sends? && !s.at.Gone? {
      RequestersSnoc(s.sent, Upgrade(c, s.clients[c].image));
      assert c !in Requesters(s.sent);
    }
  }

  lemma {:induction false} RequestersSplit(a: seq<Cmd>, b: seq<Cmd>)
    ensures Requesters(a + b) == Requesters(a) + Requesters(b)
    decreases |b|
  {
    if b == [] {
      assert a + b == a;
    } else {
      var n := |b| - 1;
      assert (a + b)[..|a + b| - 1] == a + b[..n];
      RequestersSplit(a, b[..n]);
    }
  }

  /** No client is both settled and current, nor settled twice, nor taken and still queued. */
  predicate Apart(s: State)
  {
    && NoRepeats(Firsts(s.results) + Current(s.at))
    && (forall c :: c in Requesters(s.taken) ==> c !in Requesters(s.queue))
    && (forall c :: c in Requesters(s.sent) ==> c in Requesters(s.taken) || c in Requesters(s.queue))
  }

  lemma ApartIs(s: State)
    requires InOrder(s) && OwnCommands(s)
    ensures Apart(s)
  {
    hide Requesters, Firsts, Current, IsClient, Served;
    RequestersSplit(s.taken, s.queue);
    var a, b := Requesters(s.taken), Requesters(s.queue);
    assert forall i :: 0 <= i < |a| ==> (a + b)[i] == a[i];
    assert forall i :: 0 <= i < |b| ==> (a + b)[|a| + i] == b[i];
  }

  // ── what a requester is sent ─────────────────────────────────────────

  predicate OnlyProgress(es: seq<FwEvent>) { forall e :: e in es ==> e.ProgressEvent? }

  /** The result has been sent. */
  predicate Replied(s: State, c: nat)
  {
    c in Firsts(s.results) && !(s.at.Settled? && s.at.client == c)
  }

  /** Progress only, until the result, which comes last; and nothing before the command has been taken. */
  predicate EventsOk(s: State, c: nat)
  {
    var es := EventsFor(s.view.outbox, c);
    if Replied(s, c) then
      && es != [] && OnlyProgress(es[..|es| - 1])
      && es[|es| - 1].DoneEvent? && (c, es[|es| - 1].finish) in s.results
    else OnlyProgress(es) && (c !in Requesters(s.taken) ==> es == [])
  }

  lemma EventsForSnoc(outbox: seq<(nat, FwEvent)>, to: nat, e: FwEvent, c: nat)
    ensures EventsFor(outbox + [(to, e)], c) == EventsFor(outbox, c) + if to == c then [e] else []
  {
    assert (outbox + [(to, e)])[..|outbox|] == outbox;
  }

  /** The worker's current client is not yet settled. */
  lemma CurrentOpen(s: State)
    requires Apart(s) && Current(s.at) != []
    ensures s.at.client !in Firsts(s.results)
  {
    var a := Firsts(s.results);
    var all := a + Current(s.at);
    assert all[|a|] == s.at.client;
    assert forall i :: 0 <= i < |a| ==> all[i] == a[i];
  }

  lemma MoveEvents(s: State, move: Move, notify: bool, c: nat)
    requires InOrder(s) && Apart(s) && StatusTells(s) && CanMove(s, move) && EventsOk(s, c)
    ensures EventsOk(AfterMove(s, move, notify), c)
  {
    hide Requesters, EventsFor, NoRepeats, ResultStatus, LastResult, Firsts, OnlyProgress, Apart, InOrder, ViewAfter, Completes;
    MoveTells(s, move, notify);
    match move
    case Takes => RequestersSnoc(s.taken, s.queue[0]);
    case Tells(p) => TellsEvents(s, p, notify, c);
    case Settles(finish) => SettlesEvents(s, finish, notify, c);
    case Replies => RepliesEvents(s, notify, c);
    case _ =>
  }

  lemma TellsEvents(s: State, p: Firmware.Progress, notify: bool, c: nat)
    requires InOrder(s) && Apart(s) && s.at.Uploading? && EventsOk(s, c)
    ensures EventsOk(AfterMove(s, Tells(p), notify), c)
  {
    hide Requesters, EventsFor, NoRepeats, Firsts;
    CurrentOpen(s);
    EventsForSnoc(s.view.outbox, s.at.client, ProgressEvent(p), c);
    Unchanged(EventsFor(s.view.outbox, c));
    assert s.at.client in Current(s.at);
  }

  lemma SettlesEvents(s: State, finish: Firmware.Finish, notify: bool, c: nat)
    requires Apart(s) && s.at.Uploading? && EventsOk(s, c)
    ensures EventsOk(AfterMove(s, Settles(finish), notify), c)
  {
    hide Requesters, EventsFor, NoRepeats, Firsts, OnlyProgress, ResultStatus;
    CurrentOpen(s);
    ClientsSnoc(s.results, s.at.client, finish);
    assert Replied(AfterMove(s, Settles(finish), notify), c) == Replied(s, c);
  }

  lemma RepliesEvents(s: State, notify: bool, c: nat)
    requires StatusTells(s) && s.at.Settled? && EventsOk(s, c)
    ensures EventsOk(AfterMove(s, Replies, notify), c)
  {
    hide Requesters, EventsFor, Firsts, OnlyProgress, ResultStatus, LastResult;
    var es := EventsFor(s.view.outbox, c);
    EventsForSnoc(s.view.outbox, s.at.client, DoneEvent(s.at.finish), c);
    Unchanged(es);
    LastIn(s.results);
    assert (es + [DoneEvent(s.at.finish)])[..|es|] == es;
  }

  lemma Unchanged(es: seq<FwEvent>)
    ensures es + [] == es
  {
  }

  lemma ClientsSnoc(results: seq<(nat, Firmware.Finish)>, c: nat, f: Firmware.Finish)
    ensures Firsts(results + [(c, f)]) == Firsts(results) + [c]
  {
  }

  lemma LastIn(results: seq<(nat, Firmware.Finish)>)
    requires results != []
    ensures results[|results| - 1] in results && results[|results| - 1].0 in Firsts(results)
  {
    assert Firsts(results)[|results| - 1] == results[|results| - 1].0;
  }

  lemma OtherEvents(s: State, step: Step, notify: bool, c: nat)
    requires Enabled(s, step) && !step.WorkerStep? && EventsOk(s, c)
    ensures EventsOk(Next(s, step, notify), c)
  {
    hide EventsFor, Requesters, Firsts, AfterControl, AfterAct, Sending;
    OtherSteps(s, step, notify);
  }

  // ── what a requester has received ────────────────────────────────────

  /** A client has received a beginning of what was sent to it; it ends with the result, unless it left,
      or its command was never taken because the worker had gone. */
  predicate ClientOk(s: State, c: nat)
    requires IsClient(s, c)
  {
    var es := EventsFor(s.view.outbox, c);
    match s.clients[c]
    case Waiting(got) => got <= |es| && OnlyProgress(es[..got])
    case Finished(got, ending) =>
      && got <= |es|
      && (ending.GotDone? ==> Replied(s, c) && got == |es|)
      && (ending.ChannelClosed? ==> s.at.Gone? && got == 0 && c !in Requesters(s.taken))
    case _ => true
  }

  lemma MoveClient(s: State, move: Move, notify: bool, c: nat)
    requires InOrder(s) && Apart(s) && StatusTells(s) && CanMove(s, move)
    requires IsClient(s, c) && ClientOk(s, c) && EventsOk(s, c)
    ensures ClientOk(AfterMove(s, move, notify), c)
  {
    hide Requesters, EventsFor, NoRepeats, ResultStatus, LastResult, Firsts, OnlyProgress, ViewAfter, Completes;
    MoveTells(s, move, notify);
    match move
    case Tells(p) =>
      CurrentOpen(s);
      EventsForSnoc(s.view.outbox, s.at.client, ProgressEvent(p), c);
      Longer(EventsFor(s.view.outbox, c), ProgressEvent(p));
    case Settles(finish) =>
      CurrentOpen(s);
      ClientsSnoc(s.results, s.at.client, finish);
    case Replies =>
      EventsForSnoc(s.view.outbox, s.at.client, DoneEvent(s.at.finish), c);
      Longer(EventsFor(s.view.outbox, c), DoneEvent(s.at.finish));
    case _ =>
  }

  lemma Longer(es: seq<FwEvent>, e: FwEvent)
    ensures forall n :: 0 <= n <= |es| ==> (es + [e])[..n] == es[..n]
    ensures es + [] == es
  {
  }

  lemma SendKeeps(s: State, t: State, cmd: Option<Cmd>, c: nat)
    requires SameWork(t, if cmd.Some? then Send(s, cmd.value) else s)
    requires IsClient(s, c) && ClientOk(s, c) && IsClient(t, c) && t.clients[c] == s.clients[c]
    ensures ClientOk(t, c)
  {
    hide EventsFor, Requesters, Firsts, OnlyProgress;
  }

  /** A step of the control loop or of any client leaves the other clients as they are. */
  lemma OtherClients(s: State, step: Step, notify: bool, c: nat)
    requires Enabled(s, step) && !step.WorkerStep? && IsClient(s, c) && ClientOk(s, c)
    requires step.ClientStep? ==> step.c != c
    ensures IsClient(Next(s, step, notify), c) && ClientOk(Next(s, step, notify), c)
  {
    hide EventsFor, Requesters, Firsts, ClientOk, ActOf, Sending, ChannelOpen, SameWork;
    OtherSteps(s, step, notify);
    SendKeeps(s, Next(s, step, notify), Sending(s, step), c);
  }

  lemma LastEvent(es: seq<FwEvent>)
    ensures es != [] ==> es[|es| - 1] in es
  {
  }

  /** A channel found closed belongs to a command that was never taken. */
  lemma ClosedUnserved(s: State, c: nat)
    requires InOrder(s) && OwnCommands(s) && EventsOk(s, c) && CanAct(s, c, SeesClosed) && ClientOk(s, c)
    ensures s.at.Gone? && s.clients[c].got == 0 && c !in Requesters(s.taken)
  {
    hide EventsFor, Requesters, NoRepeats, Firsts;
    ApartIs(s);
    var es := EventsFor(s.view.outbox, c);
    assert es[..s.clients[c].got] == es;
    assert c in Requesters(s.sent);
    assert c in Requesters(s.taken) ==> c in Firsts(s.results) || c in Current(s.at);
    assert c in Current(s.at) ==> ChannelOpen(s, c);
    LastEvent(es);
    if c in Requesters(s.taken) {
      assert false;
    }
    QueuedHere(s.queue, c);
  }

  lemma {:induction false} QueuedHere(cmds: seq<Cmd>, c: nat)
    ensures c in Requesters(cmds) ==> exists i :: 0 <= i < |cmds| && cmds[i].Upgrade? && cmds[i].client == c
  {
    if cmds != [] {
      var n := |cmds| - 1;
      QueuedHere(cmds[..n], c);
      if c in Requesters(cmds[..n]) {
        var i :| 0 <= i < n && cmds[..n][i].Upgrade? && cmds[..n][i].client == c;
        assert cmds[i] == cmds[..n][i];
      }
    }
  }

  lemma OwnAct(s: State, c: nat, act: Act)
    requires InOrder(s) && OwnCommands(s) && EventsOk(s, c) && CanAct(s, c, act) && ClientOk(s, c)
    ensures ClientOk(AfterAct(s, c, act), c)
  {
    hide Requesters, Firsts, NoRepeats, EventsFor, ChannelOpen, Firmware.ValidateImage, AtRest;
    if act.SeesClosed? {
      ClosedUnserved(s, c);
    }
    if act.Receives? {
      NextReceived(s, c);
    }
  }

  /** The event received next is progress, or it is the result and nothing follows. */
  lemma NextReceived(s: State, c: nat)
    requires EventsOk(s, c) && CanAct(s, c, Receives) && ClientOk(s, c)
    ensures
      var es := EventsFor(s.view.outbox, c);
      var got := s.clients[c].got;
      if es[got].DoneEvent? then Replied(s, c) && got + 1 == |es| else OnlyProgress(es[..got + 1])
  {
    hide EventsFor, Requesters, Firsts;
    var es := EventsFor(s.view.outbox, c);
    var got := s.clients[c].got;
    assert es[..got + 1] == es[..got] + [es[got]];
    assert es[got] in es;
    assert got < |es| - 1 ==> es[got] in es[..|es| - 1];
  }

  // ── every run ────────────────────────────────────────────────────────

  /** Only images that pass the check are kept by a client or sent to the worker. */
  predicate ImagesValid(s: State)
  {
    && (forall i :: 0 <= i < |s.clients| && s.clients[i].Loaded? ==> Firmware.ValidateImage(s.clients[i].image).Valid?)
    && (forall i :: 0 <= i < |s.sent| && s.sent[i].Upgrade? ==> Firmware.ValidateImage(s.sent[i].image).Valid?)
  }

  lemma StepImages(s: State, step: Step, notify: bool)
    requires ImagesValid(s) && Enabled(s, step)
    ensures ImagesValid(Next(s, step, notify))
  {
    hide Firmware.ValidateImage, AfterControl, AfterMove, AfterAct, ImagesValid;
    match step
    case ControlStep(control) => ControlImages(s, control);
    case ClientStep(c, act) => ActImages(s, c, act);
    case WorkerStep(move) => MoveImages(s, move, notify);
  }

  lemma ControlImages(s: State, control: Control)
    requires ImagesValid(s)
    ensures ImagesValid(AfterControl(s, control))
  {
    hide Firmware.ValidateImage;
  }

  lemma ActImages(s: State, c: nat, act: Act)
    requires ImagesValid(s) && CanAct(s, c, act)
    ensures ImagesValid(AfterAct(s, c, act))
  {
    hide Firmware.ValidateImage, EventsFor, ChannelOpen;
  }

  lemma MoveImages(s: State, move: Move, notify: bool)
    requires ImagesValid(s) && CanMove(s, move)
    ensures ImagesValid(AfterMove(s, move, notify))
  {
    hide Firmware.ValidateImage, ViewAfter, Completes, AtAfter, CanMove;
  }

  ghost predicate Safe(s: State, v: View, notify: bool)
  {
    && InOrder(s) && CarriedOut(s) && ImagesValid(s) && StatusTells(s) && OwnCommands(s) && Linked(s, v, notify)
    && (forall c: nat :: EventsOk(s, c)) && (forall c: nat :: IsClient(s, c) ==> ClientOk(s, c))
  }

  lemma InitialSafe(v: View, notify: bool)
    requires Start(v)
    ensures Safe(Initial(v), v, notify)
  {
  }

  lemma StepEventsOk(s: State, step: Step, notify: bool, c: nat)
    requires InOrder(s) && StatusTells(s) && OwnCommands(s) && EventsOk(s, c) && Enabled(s, step)
    ensures EventsOk(Next(s, step, notify), c)
  {
    hide InOrder, StatusTells, OwnCommands, EventsOk, Apart, AfterMove, AfterControl, AfterAct, CanAct, CanMove;
    ApartIs(s);
    match step
    case WorkerStep(move) => MoveEvents(s, move, notify, c);
    case _ => OtherEvents(s, step, notify, c);
  }

  lemma StepClientOk(s: State, step: Step, notify: bool, c: nat)
    requires InOrder(s) && StatusTells(s) && OwnCommands(s) && EventsOk(s, c) && Enabled(s, step)
    requires IsClient(s, c) && ClientOk(s, c)
    ensures IsClient(Next(s, step, notify), c) && ClientOk(Next(s, step, notify), c)
  {
    hide InOrder, StatusTells, OwnCommands, EventsOk, ClientOk, Apart, ActOf, AfterControl, ChannelOpen, EventsFor;
    ApartIs(s);
    match step
    case WorkerStep(move) => MoveClient(s, move, notify, c);
    case ClientStep(d, act) =>
      if d == c {
        OwnAct(s, c, act);
      } else {
        OtherClients(s, step, notify, c);
      }
    case _ => OtherClients(s, step, notify, c);
  }

  /** A client that a step brings in is only asking. */
  lemma NewClients(s: State, step: Step, notify: bool, c: nat)
    requires Enabled(s, step) && !IsClient(s, c) && IsClient(Next(s, step, notify), c)
    ensures ClientOk(Next(s, step, notify), c)
  {
    hide EventsFor, Requesters, ActOf, ChannelOpen;
  }

  lemma StepSafe(s: State, step: Step, v: View, notify: bool)
    requires Safe(s, v, notify) && Enabled(s, step)
    ensures Safe(Next(s, step, notify), v, notify)
  {
    hide InOrder, CarriedOut, ImagesValid, StatusTells, OwnCommands, Linked, EventsOk, ClientOk, Next, IsClient, Enabled;
    StepInOrder(s, step, notify);
    StepCarriesOut(s, step, notify);
    StepImages(s, step, notify);
    StepStatus(s, step, notify);
    StepOwn(s, step, notify);
    StepLinked(s, step, v, notify);
    forall c: nat
      ensures EventsOk(Next(s, step, notify), c)
    {
      StepEventsOk(s, step, notify, c);
    }
    forall c: nat | IsClient(Next(s, step, notify), c)
      ensures ClientOk(Next(s, step, notify), c)
    {
      if IsClient(s, c) {
        StepClientOk(s, step, notify, c);
      } else {
        NewClients(s, step, notify, c);
      }
    }
  }

  /** Under every interleaving: commands are executed in the order sent, each as what it is; the shared status tells of an upgrade
      exactly while one is marked; each requester is sent progress and at most one result, last; a client whose
      channel closes without a result was never served; and the worker's view is that of its own run. */
  lemma {:induction false} RunSafe(steps: seq<Step>, s: State, v: View, notify: bool)
    requires Reaches(steps, s, v, notify) && Start(v)
    ensures Safe(s, v, notify)
    decreases |steps|
  {
    hide Safe, Next, Enabled, Start;
    if steps == [] {
      InitialSafe(v, notify);
    } else {
      var n := |steps| - 1;
      var r: State :| Reaches(steps[..n], r, v, notify) && Enabled(r, steps[n]) && s == Next(r, steps[n], notify);
      RunSafe(steps[..n], r, v, notify);
      StepSafe(r, steps[n], v, notify);
    }
  }

  /** A client is refused exactly if the worker is between the mark and the settling of an upgrade. */
  lemma RefusedOnlyDuring(steps: seq<Step>, s: State, c: nat, v: View, notify: bool)
    requires Reaches(steps, s, v, notify) && CanAct(s, c, Checks) && Start(v)
    ensures AfterAct(s, c, Checks).clients[c] == Refused <==> s.at.Uploading? || s.at.Telling?
  {
    hide Reaches, Start, EventsOk, ClientOk, OwnCommands, InOrder, CarriedOut, ImagesValid, Linked;
    RunSafe(steps, s, v, notify);
  }

  /** In every state, what the worker keeps, publishes and sends is its run and the first half of a step under way;
      what it publishes agrees with its configuration, and the board was last told that configuration, or the one that
      is about to be published. So everything proved of the worker's runs holds of the daemon's. */
  lemma PublishedIsRun(steps: seq<Step>, s: State, v: View, notify: bool)
    requires Reaches(steps, s, v, notify) && Start(v)
    ensures s.view == Midway(RunAll(v, s.history, notify), s.at) && Published(s.view)
    ensures
      && s.view.lineUps != []
      && s.view.lineUps[|s.view.lineUps| - 1] == LineUpPayload(if s.at.Bouncing? then s.at.loaded else s.view.cfg)
  {
    hide Reaches, EventsOk, ClientOk, OwnCommands, InOrder, CarriedOut, ImagesValid, StatusTells, RunAll, LineUpPayload, ResultStatus, UptimeAt, UpFrom;
    RunSafe(steps, s, v, notify);
    RunInSync(v, s.history, notify);
  }

  /** Once a requester has its result, the order of service is the order in which commands were sent. */
  lemma ServedInOrder(steps: seq<Step>, s: State, v: View, notify: bool)
    requires Reaches(steps, s, v, notify) && Start(v)
    ensures Firsts(s.results) <= Requesters(s.sent) && NoRepeats(Firsts(s.results))
  {
    hide Reaches, Start, EventsOk, ClientOk, CarriedOut, ImagesValid, StatusTells, Linked, Requesters;
    RunSafe(steps, s, v, notify);
    RequestersSplit(s.taken, s.queue);
    var all := Requesters(s.sent);
    assert all == Firsts(s.results) + (Current(s.at) + Requesters(s.queue));
  }

  // ── signals ──────────────────────────────────────────────────────────

  /** Of these two steps of signal handlers and control loop, the last one made is `on`. */
  predicate LastIs(steps: seq<Step>, on: Control, off: Control)
  {
    if steps == [] then false
    else
      var last := steps[|steps| - 1];
      if last == ControlStep(on) then true
      else if last == ControlStep(off) then false
      else LastIs(steps[..|steps| - 1], on, off)
  }

  /** How often a step was made. */
  function Times(steps: seq<Step>, control: Control): nat
  {
    if steps == [] then 0
    else Times(steps[..|steps| - 1], control) + if steps[|steps| - 1] == ControlStep(control) then 1 else 0
  }

  function Sent(cmds: seq<Cmd>, cmd: Cmd): nat
  {
    if cmds == [] then 0
    else Sent(cmds[..|cmds| - 1], cmd) + if cmds[|cmds| - 1] == cmd then 1 else 0
  }

  lemma SentSnoc(cmds: seq<Cmd>, c: Cmd, cmd: Cmd)
    ensures Sent(cmds + [c], cmd) == Sent(cmds, cmd) + if c == cmd then 1 else 0
  {
    assert (cmds + [c])[..|cmds|] == cmds;
  }

  /** A signal is pending exactly from its handler to the control loop's next look at it, however often it comes in
      between; and the exit flag is never taken back. */
  predicate FlagsFollow(steps: seq<Step>, s: State)
  {
    && (s.reload <==> LastIs(steps, SetReload, ForwardReload))
    && (s.restart <==> LastIs(steps, SetRestart, ForwardRestart))
    && (s.exit <==> Times(steps, SetExit) > 0) && (s.at.Gone? ==> s.exit)
  }

  /** No more commands are sent than were asked for by signal or by message. */
  predicate NothingUnasked(steps: seq<Step>, s: State)
  {
    && Sent(s.sent, Reload) + (if s.reload then 1 else 0) <= Times(steps, SetReload) + Times(steps, IpcReload)
    && Sent(s.sent, RestartLine) + (if s.restart then 1 else 0) <= Times(steps, SetRestart) + Times(steps, IpcRestart)
  }

  /** Nothing about signals and commands has changed. */
  predicate SameFlags(s: State, t: State)
  {
    && t.reload == s.reload && t.restart == s.restart && t.exit == s.exit && (t.at.Gone? ==> s.at.Gone? || s.exit)
    && Sent(t.sent, Reload) == Sent(s.sent, Reload) && Sent(t.sent, RestartLine) == Sent(s.sent, RestartLine)
  }

  lemma WorkKeepsFlags(s: State, step: Step, notify: bool)
    requires Enabled(s, step) && !step.ControlStep?
    ensures SameFlags(s, Next(s, step, notify))
  {
    hide Sent, ViewAfter, Completes, EventsFor, ChannelOpen, ActOf;
    if step.ClientStep? && step.act.Sends? {
      SentSnoc(s.sent, Upgrade(step.c, s.clients[step.c].image), Reload);
      SentSnoc(s.sent, Upgrade(step.c, s.clients[step.c].image), RestartLine);
    }
  }

  lemma ControlFlags(steps: seq<Step>, s: State, control: Control)
    requires FlagsFollow(steps, s)
    ensures FlagsFollow(steps + [ControlStep(control)], AfterControl(s, control))
  {
    assert (steps + [ControlStep(control)])[..|steps|] == steps;
  }

  lemma ControlSends(steps: seq<Step>, s: State, control: Control)
    requires NothingUnasked(steps, s) && Enabled(s, ControlStep(control))
    ensures NothingUnasked(steps + [ControlStep(control)], AfterControl(s, control))
  {
    hide Sent;
    assert (steps + [ControlStep(control)])[..|steps|] == steps;
    SentSnoc(s.sent, Reload, Reload);
    SentSnoc(s.sent, Reload, RestartLine);
    SentSnoc(s.sent, RestartLine, Reload);
    SentSnoc(s.sent, RestartLine, RestartLine);
  }

  lemma InitialFlags(v: View)
    ensures FlagsFollow([], Initial(v)) && NothingUnasked([], Initial(v))
  {
  }

  /** Over every run: flags follow the signals, and no command comes out of nothing. */
  lemma {:induction false} SignalsKept(steps: seq<Step>, s: State, v: View, notify: bool)
    requires Reaches(steps, s, v, notify)
    ensures FlagsFollow(steps, s) && NothingUnasked(steps, s)
    decreases |steps|
  {
    hide Next, Enabled, FlagsFollow, NothingUnasked, Initial;
    if steps == [] {
      InitialFlags(v);
    } else {
      var n := |steps| - 1;
      var r: State :| Reaches(steps[..n], r, v, notify) && Enabled(r, steps[n]) && s == Next(r, steps[n], notify);
      SignalsKept(steps[..n], r, v, notify);
      assert steps[..n] + [steps[n]] == steps;
      OneStepFlags(steps[..n], r, steps[n], notify);
    }
  }

  lemma FlagsKept(steps: seq<Step>, s: State, step: Step, t: State)
    requires FlagsFollow(steps, s) && NothingUnasked(steps, s) && !step.ControlStep? && SameFlags(s, t)
    ensures FlagsFollow(steps + [step], t) && NothingUnasked(steps + [step], t)
  {
    hide Sent;
    assert (steps + [step])[..|steps|] == steps;
  }

  lemma OneStepFlags(steps: seq<Step>, s: State, step: Step, notify: bool)
    requires FlagsFollow(steps, s) && NothingUnasked(steps, s) && Enabled(s, step)
    ensures FlagsFollow(steps + [step], Next(s, step, notify)) && NothingUnasked(steps + [step], Next(s, step, notify))
  {
    hide AfterControl, FlagsFollow, NothingUnasked, SameFlags, AfterMove, AfterAct, CanMove, CanAct;
    if step.ControlStep? {
      ControlFlags(steps, s, step.control);
      ControlSends(steps, s, step.control);
    } else {
      WorkKeepsFlags(s, step, notify);
      FlagsKept(steps, s, step, Next(s, step, notify));
    }
  }

  // ── what a client has to go through ──────────────────────────────────

  /** The steps that lead a client to its upgrade. */
  datatype Gate = Check | Load | Submit

  /** The gates a client has passed, in order. */
  function Gates(steps: seq<Step>, c: nat): seq<Gate>
  {
    if steps == [] then []
    else
      var last := steps[|steps| - 1];
      Gates(steps[..|steps| - 1], c) +
      if last == ClientStep(c, Checks) then [Check]
      else if last.ClientStep? && last.c == c && last.act.Loads? then [Load]
      else if last == ClientStep(c, Sends) then [Submit]
      else []
  }

  /** The gates that lie behind a client. */
  function GatesBehind(s: State, c: nat): seq<Gate>
  {
    if !IsClient(s, c) then []
    else
      match s.clients[c]
      case Asking => []
      case Refused => [Check]
      case Admitted => [Check]
      case BadImage => [Check, Load]
      case Loaded(_) => [Check, Load]
      case _ => [Check, Load, Submit]
  }

  lemma GatesSnoc(steps: seq<Step>, step: Step, c: nat)
    ensures Gates(steps + [step], c) == Gates(steps, c) + Gates([step], c)
  {
    assert (steps + [step])[..|steps|] == steps && [step][..0] == [];
  }

  lemma StepGates(s: State, step: Step, notify: bool, c: nat)
    requires Enabled(s, step)
    ensures GatesBehind(Next(s, step, notify), c) == GatesBehind(s, c) + Gates([step], c)
  {
    hide AfterControl, AfterMove, AfterAct, CanMove, CanAct, GatesBehind, Gates;
    OneGate(step, c);
    match step
    case ControlStep(control) => ControlGates(s, control, c);
    case ClientStep(d, act) => ActGates(s, d, act, c);
    case WorkerStep(move) => MoveGates(s, move, notify, c);
  }

  lemma OneGate(step: Step, c: nat)
    ensures
      Gates([step], c) ==
      if step.ClientStep? && step.c == c then
        (if step.act.Checks? then [Check] else if step.act.Loads? then [Load] else if step.act.Sends? then [Submit] else [])
      else []
  {
    assert [step][..0] == [];
  }

  lemma ControlGates(s: State, control: Control, c: nat)
    ensures GatesBehind(AfterControl(s, control), c) == GatesBehind(s, c) + []
  {
  }

  lemma ActGates(s: State, d: nat, act: Act, c: nat)
    requires CanAct(s, d, act)
    ensures
      GatesBehind(AfterAct(s, d, act), c) ==
      GatesBehind(s, c) +
      if d == c then
        (if act.Checks? then [Check] else if act.Loads? then [Load] else if act.Sends? then [Submit] else [])
      else []
  {
    hide EventsFor, ChannelOpen, AtRest, Firmware.ValidateImage;
  }

  lemma MoveGates(s: State, move: Move, notify: bool, c: nat)
    requires CanMove(s, move)
    ensures GatesBehind(AfterMove(s, move, notify), c) == GatesBehind(s, c) + []
  {
    hide ViewAfter, Completes, AtAfter, CanMove;
  }

  /** Over every run a client was checked first, then loaded its image, and only then sent its command, each once. */
  lemma {:induction false} GatesInOrder(steps: seq<Step>, s: State, v: View, notify: bool, c: nat)
    requires Reaches(steps, s, v, notify)
    ensures Gates(steps, c) == GatesBehind(s, c)
    decreases |steps|
  {
    hide Next, Enabled, GatesBehind, Initial;
    if steps == [] {
      NoGates(v, c);
    } else {
      var n := |steps| - 1;
      var r: State :| Reaches(steps[..n], r, v, notify) && Enabled(r, steps[n]) && s == Next(r, steps[n], notify);
      GatesInOrder(steps[..n], r, v, notify, c);
      StepGates(r, steps[n], notify, c);
      GatesSnoc(steps[..n], steps[n], c);
      assert steps[..n] + [steps[n]] == steps;
    }
  }

  lemma NoGates(v: View, c: nat)
    ensures Gates([], c) == GatesBehind(Initial(v), c) == []
  {
  }
}
