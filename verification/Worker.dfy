/** The board worker: what a reload, a restart, an upgrade and a poll do to its state. */
module Worker {
  import opened Bytes
  import opened Options
  import opened Text
  import opened Line
  import opened Unpack
  import opened SharedState
  import Firmware
  import Config
  import Request
  import Board
  import Upload

  datatype LineEvent = LineDown | LineHandshake | LineTraining | LineUp

  function EventOf(status: LinkStatus): LineEvent
  {
    match status
    case Up => LineUp
    case Initializing => LineTraining
    case EstablishingLink => LineHandshake
    case NoSignal => LineDown
    case Unknown(_) => LineDown
  }

  /** One call of the notify script. */
  datatype Note = StatusNote(event: LineEvent) | TcLayerNote(mode: XferMode)

  /** Everything the worker keeps and everything it has told others. */
  datatype View = View(
    cfg: Config.DslConfig, lastPoll: Option<nat>, lastStatus: Option<LinkStatus>, upSince: Option<nat>,
    tcEmitted: bool, notes: seq<Note>, lineUps: seq<Bytes>, outbox: seq<(nat, FwEvent)>, shared: Shared)

  /** What a poll brings: a timeout and any other error are both ignored. */
  datatype Poll = Seen(line: LineObj) | NotSeen

  /** The readings of the clock during one poll, in nanoseconds. */
  datatype Clock = Clock(due: nat, noted: nat, seen: nat, published: nat)

  /** The steps of the worker; `client` is the requester of an upgrade. */
  datatype Happening =
    | Reloaded(loaded: Config.Result<Config.DslConfig>)
    | Restarted
    | UpgradeStarted
    | Reported(client: nat, p: Firmware.Progress)
    | UpgradeEnded(client: nat, finish: Firmware.Finish)
    | Polled(clock: Clock, poll: Poll)

  const SECOND: nat := 1_000_000_000
  const POLL_INTERVAL: nat := SECOND

  /** The opcode-1 request for a configuration. */
  function LineUpPayload(c: Config.DslConfig): Bytes
  {
    [1] + PackDslLine(c.modulation, c.annex, c.bitswap, c.sra, c.profiles)
  }

  /** What the board reads in it: opcode 1 and the configuration's line parameters. */
  lemma LineUpReads(c: Config.DslConfig)
    ensures
      var p := LineUpPayload(c);
      && |p| == 13 && p[0] == 1 && p[1] < 8 && p[2] < 9
      && ReadDslLine(p[1..]) ==
         LineParams(c.modulation, c.annex, c.bitswap, c.sra, if c.modulation == Vdsl2 || c.modulation == Multimode then c.profiles else {})
  {
    hide PackDslLine, ReadDslLine;
    PackReads(c.modulation, c.annex, c.bitswap, c.sra, c.profiles);
    assert LineUpPayload(c)[1..] == PackDslLine(c.modulation, c.annex, c.bitswap, c.sra, c.profiles);
  }

  predicate ConfigChanged(before: Config.DslConfig, after: Config.DslConfig)
  {
    before.modulation != after.modulation || before.annex != after.annex
    || Bitmask(before.profiles) != Bitmask(after.profiles) || before.xferMode != after.xferMode
  }

  function Publish(s: Shared, c: Config.DslConfig): Shared
  {
    s.(xferMode := Some(c.xferMode), modulation := c.modulation, annex := c.annex)
  }

  predicate PollDue(lastPoll: Option<nat>, now: nat)
  {
    lastPoll.None? || now - lastPoll.value >= POLL_INTERVAL
  }

  function ResultStatus(f: Firmware.Finish): FwStatus { if f.Done? then UpgradeDone else UpgradeFailed(f) }

  /** The time at which the line came up, after a status was seen. */
  function UpFrom(upSince: Option<nat>, status: LinkStatus, now: nat): Option<nat>
  {
    if status != Up then None else if upSince.Some? then upSince else Some(now)
  }

  function UptimeAt(upSince: Option<nat>, now: nat): nat
  {
    match upSince case None => 0 case Some(t) => Max(now - t, 0) / SECOND
  }

  /** A status differing from the last one is announced; the first time up also announces the transfer mode. */
  function Announce(v: View, status: LinkStatus, notify: bool): View
  {
    if v.lastStatus == Some(status) then v
    else
      var tc := status == Up && !v.tcEmitted;
      var told := [StatusNote(EventOf(status))] + (if tc then [TcLayerNote(v.cfg.xferMode)] else []);
      v.(lastStatus := Some(status), tcEmitted := v.tcEmitted || tc, notes := if notify then v.notes + told else v.notes)
  }

  /** The status is taken over and published, not yet announced. */
  function Polling(v: View, clock: Clock, line: LineObj): View
  {
    var up := UpFrom(v.upSince, line.linkStatus, clock.seen);
    var shared := Publish(v.shared, v.cfg).(line := Some(line), uptimeSecs := UptimeAt(up, clock.published));
    v.(lastPoll := Some(clock.noted), upSince := up, shared := shared)
  }

  function AfterPoll(v: View, clock: Clock, poll: Poll, notify: bool): View
  {
    if !PollDue(v.lastPoll, clock.due) then v
    else
      match poll
      case NotSeen => v.(lastPoll := Some(clock.noted))
      case Seen(line) =>
        Announce(Polling(v, clock, line), line.linkStatus, notify)
  }

  function Apply(v: View, h: Happening, notify: bool): View
  {
    match h
    case Reloaded(loaded) =>
      if loaded.Ok? && ConfigChanged(v.cfg, loaded.value) then
        v.(cfg := loaded.value, tcEmitted := false, lineUps := v.lineUps + [LineUpPayload(loaded.value)],
           shared := Publish(v.shared, loaded.value))
      else v
    case Restarted => v.(tcEmitted := false, lineUps := v.lineUps + [LineUpPayload(v.cfg)])
    case UpgradeStarted => v.(shared := v.shared.(fwStatus := Upgrading))
    case Reported(client, p) =>
      v.(outbox := v.outbox + [(client, ProgressEvent(p))],
         shared := v.shared.(fwStatus := UpgradingProgress(p.stage, p.pct)))
    case UpgradeEnded(client, finish) =>
      v.(outbox := v.outbox + [(client, DoneEvent(finish))], shared := v.shared.(fwStatus := ResultStatus(finish)))
    case Polled(clock, poll) => AfterPoll(v, clock, poll, notify)
  }

  /** The worker after a run of steps. */
  function RunAll(v: View, hs: seq<Happening>, notify: bool): View
  {
    if hs == [] then v else Apply(RunAll(v, hs[..|hs| - 1], notify), hs[|hs| - 1], notify)
  }

  lemma RunSnoc(v: View, hs: seq<Happening>, h: Happening, notify: bool)
    ensures RunAll(v, hs + [h], notify) == Apply(RunAll(v, hs, notify), h, notify)
  {
    hide Apply;
    assert (hs + [h])[..|hs|] == hs;
  }

  lemma {:induction false} RunSplit(v: View, hs: seq<Happening>, more: seq<Happening>, notify: bool)
    ensures RunAll(v, hs + more, notify) == RunAll(RunAll(v, hs, notify), more, notify)
    decreases |more|
  {
    hide Apply;
    if more == [] {
      assert hs + more == hs;
    } else {
      var n := |more| - 1;
      assert (hs + more)[..|hs + more| - 1] == hs + more[..n];
      RunSplit(v, hs, more[..n], notify);
    }
  }

  lemma PollingAgain(v: View, clock: Clock, line: LineObj)
    ensures Polling(v.(lastPoll := Some(clock.noted)), clock, line) == Polling(v, clock, line)
  {
  }

  lemma NothingNew(v: View, status: LinkStatus, notify: bool)
    requires v.lastStatus == Some(status)
    ensures Announce(v, status, notify) == v
  {
  }

  // ── the worker object ────────────────────────────────────────────────

  /** The payloads of the opcode-1 requests among all requests. */
  function LineUps(asked: seq<Board.Asked>): seq<Bytes>
  {
    if asked == [] then []
    else
      var last := asked[|asked| - 1];
      LineUps(asked[..|asked| - 1]) + if last.subtype == 1 then [last.payload] else []
  }

  lemma LineUpsSnoc(asked: seq<Board.Asked>, a: Board.Asked)
    ensures LineUps(asked + [a]) == LineUps(asked) + if a.subtype == 1 then [a.payload] else []
  {
    assert (asked + [a])[..|asked|] == asked;
  }

  lemma {:induction false} NoLineUps(asked: seq<Board.Asked>, news: seq<Board.Asked>)
    requires forall i :: 0 <= i < |news| ==> news[i].subtype != 1
    ensures LineUps(asked + news) == LineUps(asked)
    decreases |news|
  {
    hide LineUps;
    if news == [] {
      assert asked + news == asked;
    } else {
      var n := |news| - 1;
      NoLineUps(asked, news[..n]);
      assert asked + news == asked + news[..n] + [news[n]];
      LineUpsSnoc(asked + news[..n], news[n]);
    }
  }

  /** A request that adds or removes a data-plane link. */
  predicate IsLink(a: Board.Asked) { a.subtype == 5 || a.subtype == 6 || a.subtype == 15 || a.subtype == 16 }

  /** Line up, poll, line down, or a request of an upload. */
  predicate IsOfWorker(a: Board.Asked) { a.subtype == 1 || a.subtype == 2 || a.subtype == 3 || a.subtype == 8 }

  function LinkRequests(asked: seq<Board.Asked>): seq<Board.Asked>
  {
    if asked == [] then []
    else
      var last := asked[|asked| - 1];
      LinkRequests(asked[..|asked| - 1]) + if IsLink(last) then [last] else []
  }

  lemma LinkRequestsSnoc(asked: seq<Board.Asked>, a: Board.Asked)
    ensures LinkRequests(asked + [a]) == LinkRequests(asked) + if IsLink(a) then [a] else []
  {
    assert (asked + [a])[..|asked|] == asked;
  }

  lemma {:induction false} NoLinkRequests(asked: seq<Board.Asked>, news: seq<Board.Asked>)
    requires forall i :: 0 <= i < |news| ==> !IsLink(news[i])
    ensures LinkRequests(asked + news) == LinkRequests(asked)
    decreases |news|
  {
    hide LinkRequests;
    if news == [] {
      assert asked + news == asked;
    } else {
      var n := |news| - 1;
      NoLinkRequests(asked, news[..n]);
      assert asked + news == asked + news[..n] + [news[n]];
      LinkRequestsSnoc(asked + news[..n], news[n]);
    }
  }

  function PollOf(answer: Request.Answer): Poll
  {
    if !answer.Ok? then NotSeen
    else
      var data := Firmware.StripEcho(answer.payload, 2);
      match ParseLineObj(data) case None => NotSeen case Some(line) => Seen(line)
  }

  /** The line was taken down and then up with a configuration. */
  predicate Bounced(before: seq<Board.Asked>, after: seq<Board.Asked>, c: Config.DslConfig)
  {
    && |after| == |before| + 2 && after[..|before|] == before
    && after[|before|].subtype == 3 && after[|before|].payload == [3]
    && after[|before| + 1].subtype == 1 && after[|before| + 1].payload == LineUpPayload(c)
  }

  class BoardWorker {
    const board: Board.Board
    const state: DslState
    const outbox: Outbox
    const overrides: Config.CliOverrides
    const notify: bool
    var cfg: Config.DslConfig
    var lastPoll: Option<nat>
    var lastStatus: Option<LinkStatus>
    var upSince: Option<nat>
    var tcEmitted: bool
    var notes: seq<Note>

    constructor (board: Board.Board, cfg: Config.DslConfig, overrides: Config.CliOverrides, state: DslState, notify: bool)
      ensures this.board == board && this.state == state && this.overrides == overrides && this.notify == notify
      ensures fresh(outbox)
      ensures Now() == View(cfg, None, None, None, false, [], LineUps(board.asked), [], state.value)
    {
      this.board, this.state, this.overrides, this.notify := board, state, overrides, notify;
      this.cfg, lastPoll, lastStatus, upSince, tcEmitted, notes := cfg, None, None, None, false, [];
      outbox := new Outbox();
    }

    ghost function Now(): View
      reads this, board, state, outbox
    {
      View(cfg, lastPoll, lastStatus, upSince, tcEmitted, notes, LineUps(board.asked), outbox.events, state.value)
    }

    /** A request of opcode 1, 2 or 3; the frame always fits. */
    method Ask(subtype: byte, payload: Bytes) returns (answer: Request.Answer)
      requires board.txCap >= Board.BUF_SIZE && |payload| <= 13
      modifies board`seqNumber, board`asked, board.sock
      ensures !answer.Panicked?
      ensures |board.asked| == |old(board.asked)| + 1 && board.asked[..|old(board.asked)|] == old(board.asked)
      ensures
        var a := board.asked[|old(board.asked)|];
        a.subtype == subtype && a.payload == payload && a.answer == answer
      ensures LineUps(board.asked) == old(LineUps(board.asked)) + if subtype == 1 then [payload] else []
    {
      hide LineUps;
      answer := board.Request(subtype, payload);
      LineUpsSnoc(old(board.asked), board.asked[|old(board.asked)|]);
    }

    method HandleReload(store: Option<Config.Uci>)
      requires board.txCap >= Board.BUF_SIZE
      modifies this`cfg, this`tcEmitted, state, board`seqNumber, board`asked, board.sock
      ensures Now() == Apply(old(Now()), Reloaded(Config.Load(store, overrides)), notify)
      ensures
        var loaded := Config.Load(store, overrides);
        if loaded.Ok? && ConfigChanged(old(cfg), loaded.value) then Bounced(old(board.asked), board.asked, loaded.value)
        else board.asked == old(board.asked)
    {
      hide LineUps, Config.Build, PackDslLine, Bitmask;
      var loaded := Config.Load(store, overrides);
      if loaded.Ok? {
        if ConfigChanged(cfg, loaded.value) {
          var _ := Ask(3, [3]);
          var _ := Ask(1, LineUpPayload(loaded.value));
          cfg := loaded.value;
          state.value := Publish(state.value, cfg);
          tcEmitted := false;
        }
      }
    }

    method HandleRestart()
      requires board.txCap >= Board.BUF_SIZE
      modifies this`tcEmitted, board`seqNumber, board`asked, board.sock
      ensures Now() == Apply(old(Now()), Restarted, notify)
      ensures Bounced(old(board.asked), board.asked, cfg)
    {
      hide LineUps, PackDslLine;
      var _ := Ask(3, [3]);
      var _ := Ask(1, LineUpPayload(cfg));
      tcEmitted := false;
    }

    /** At most one poll a second. */
    method MaybePoll(clock: Clock) returns (ghost poll: Poll)
      requires board.txCap >= Board.BUF_SIZE
      modifies this`lastPoll, this`lastStatus, this`upSince, this`tcEmitted, this`notes
      modifies state, board`seqNumber, board`asked, board.sock
      ensures Now() == Apply(old(Now()), Polled(clock, poll), notify)
      ensures
        if PollDue(old(lastPoll), clock.due) then
          && |board.asked| == |old(board.asked)| + 1 && board.asked[..|old(board.asked)|] == old(board.asked)
          && board.asked[|old(board.asked)|].subtype == 2 && board.asked[|old(board.asked)|].payload == [2] && poll == PollOf(board.asked[|old(board.asked)|].answer)
        else board.asked == old(board.asked)
    {
      hide LineUps, PollOf, UptimeAt, UpFrom, Announce, Polling, Publish, ConfigChanged, LineUpPayload, ResultStatus;
      ghost var start := Now();
      poll := NotSeen;
      if !PollDue(lastPoll, clock.due) {
        return;
      }
      lastPoll := Some(clock.noted);
      var answer := Ask(2, [2]);
      assert Now() == start.(lastPoll := Some(clock.noted));
      var got := PollOf(answer);
      poll := got;
      match got
      case NotSeen =>
      case Seen(line) =>
        Take(clock, line);
        PollingAgain(start, clock, line);
        if lastStatus != Some(line.linkStatus) {
          Notify(line.linkStatus);
        } else {
          NothingNew(Now(), line.linkStatus, notify);
        }
    }

    /** Keep the time the line came up and publish the status. */
    method Take(clock: Clock, line: LineObj)
      requires lastPoll == Some(clock.noted)
      modifies this`upSince, state
      ensures Now() == Polling(old(Now()), clock, line)
    {
      hide LineUps, UptimeAt, Publish;
      if line.linkStatus == Up && upSince.None? {
        upSince := Some(clock.seen);
      } else if line.linkStatus != Up {
        upSince := None;
      }
      state.value :=
        Publish(state.value, cfg).(line := Some(line), uptimeSecs := UptimeAt(upSince, clock.published));
    }

    /** Announce a status that differs from the last one. */
    method Notify(status: LinkStatus)
      requires lastStatus != Some(status)
      modifies this`lastStatus, this`tcEmitted, this`notes
      ensures Now() == Announce(old(Now()), status, notify)
    {
      hide LineUps, EventOf;
      if notify {
        notes := notes + [StatusNote(EventOf(status))];
      }
      if status == Up && !tcEmitted {
        if notify {
          notes := notes + [TcLayerNote(cfg.xferMode)];
        }
        tcEmitted := true;
      }
      lastStatus := Some(status);
    }

    method Begin()
      modifies state
      ensures Now() == Apply(old(Now()), UpgradeStarted, notify)
    {
      hide LineUps;
      state.value := state.value.(fwStatus := Upgrading);
    }

    method Finish(client: nat, finish: Firmware.Finish)
      modifies outbox, state
      ensures Now() == Apply(old(Now()), UpgradeEnded(client, finish), notify)
    {
      hide LineUps;
      state.value := state.value.(fwStatus := ResultStatus(finish));
      outbox.events := outbox.events + [(client, DoneEvent(finish))];
    }

    /** An upgrade: progress, as it comes, and result go to the requester and into the shared status.
        A panic ends the process. */
    method HandleFirmwareUpgrade(client: nat, image: Bytes)
      returns (alive: bool, ghost reports: seq<Firmware.Progress>, ghost finish: Firmware.Finish)
      modifies outbox, state, board`seqNumber, board`asked, board`timeout, board`retries, board.sock
      ensures alive <==> finish != Firmware.Broke(Request.Panicked)
      ensures alive ==> Now() == RunAll(old(Now()), UpgradeSteps(client, reports, finish), notify)
      ensures |old(board.asked)| <= |board.asked| && board.asked[..|old(board.asked)|] == old(board.asked)
      ensures
        var news := board.asked[|old(board.asked)|..];
        && Board.PhaseOf(image, news) == Firmware.Finished(finish) && Board.ReportsOf(image, news) == reports
        && forall i :: 0 <= i < |news| ==> news[i].subtype == 8
      ensures Upload.InSize(image) && board.txCap < Upload.LARGEST_FRAME ==> !finish.Done?
    {
      hide LineUps, Board.Recorded, Board.PhaseOf, Board.ReportsOf, Board.Due, Apply, RunAll, Reportings, Sent, Marked,
        Firsts;
      ghost var before, start := board.asked, Now();
      Begin();
      ghost var begun := Now();
      var ear := new Requester(client, state, outbox);
      var got;
      ghost var news;
      got, news := board.FirmwareUpgrade(image, ear);
      finish, reports := got, Board.ReportsOf(image, news);
      assert board.asked[|before|..] == news;
      OnlyUploads(image, news, board.txCap);
      NoLineUps(before, news);
      if got == Firmware.Broke(Request.Panicked) {
        return false, reports, finish;
      }
      Board.DueReports(image, news, |before|);
      ReportingsRun(begun, client, reports, notify);
      Finish(client, got);
      UpgradeRuns(start, client, reports, got, notify);
      alive := true;
    }

    /** Carry out a command, if there is one. */
    method Obey(incoming: Incoming) returns (alive: bool, ghost course: Course)
      requires board.txCap >= Board.BUF_SIZE && !incoming.Disconnected?
      modifies this`cfg, this`tcEmitted, outbox, state, board, board.sock
      ensures course.polling == [] && board.asked == old(board.asked) + course.command
      ensures alive ==> Obeyed(incoming, course, old(cfg), overrides)
      ensures alive ==> Now() == RunAll(old(Now()), CommandSteps(incoming, course, overrides), notify)
    {
      hide Apply, RunAll, LineUps, UpgradeSteps, ConfigChanged, Board.PhaseOf, Board.ReportsOf, Config.Load;
      ghost var start, before := Now(), board.asked;
      alive := true;
      ghost var reports, finish := [], Firmware.Rejected;
      match incoming
      {
        case ReloadCmd(store) => HandleReload(store);
        case RestartCmd => HandleRestart();
        case UpgradeCmd(client, image) => alive, reports, finish := HandleFirmwareUpgrade(client, image);
        case Quiet =>
      }
      course := Course(board.asked[|before|..], [], NotSeen, reports, finish);
      CommandRuns(start, incoming, course, overrides, notify);
    }

    /** One turn of the loop: a command, if there is one, and then a poll. */
    method OneTurn(turn: Turn) returns (alive: bool, ghost course: Course)
      requires board.txCap >= Board.BUF_SIZE && !turn.incoming.Disconnected?
      modifies this, outbox, state, board, board.sock
      ensures alive ==> Now() == RunAll(old(Now()), TurnSteps(turn, course, overrides), notify)
      ensures alive ==> Fits(turn, course, old(Now()), overrides) && board.asked == old(board.asked) + AskedIn(course)
    {
      hide Apply, RunAll, LineUps, CommandSteps, PollDue, PollOf, Obeyed;
      ghost var start, before := Now(), board.asked;
      alive, course := Obey(turn.incoming);
      if alive {
        ghost var obeyed, middle := course, board.asked;
        ghost var poll := MaybePoll(turn.clock);
        course := Course(obeyed.command, board.asked[|middle|..], poll, obeyed.reports, obeyed.finish);
        SameCommand(turn.incoming, obeyed, course, start.cfg, overrides);
        Regroup(before, course.command, course.polling);
        RunSnoc(start, CommandSteps(turn.incoming, obeyed, overrides), Polled(turn.clock, poll), notify);
      }
    }

    /** The loop until the exit flag is seen or the channel closes, and the line taken down with a single frame. */
    method Run(turns: seq<Turn>) returns (alive: bool, ghost courses: seq<Course>)
      requires board.txCap >= Board.BUF_SIZE
      modifies this, outbox, state, board, board.sock
      ensures |courses| <= |turns|
      ensures alive && |courses| < |turns| ==> turns[|courses|].incoming.Disconnected?
      ensures alive ==> Now() == RunAll(old(Now()), AllSteps(turns[..|courses|], courses, overrides), notify)
      ensures alive ==> CoursesFit(old(Now()), turns[..|courses|], courses, overrides, notify)
      ensures alive ==>
        exists a: Board.Asked ::
          a.subtype == 3 && a.payload == [3] && board.asked == old(board.asked) + AllAskedIn(courses) + [a]
      ensures alive ==> LinkRequests(board.asked) == LinkRequests(old(board.asked))
      ensures alive ==> board.retries == 0
    {
      hide Apply, RunAll, LineUps, TurnSteps, AllSteps, CoursesFit, Fits, AllAskedIn, AskedIn;
      ghost var start, before := Now(), board.asked;
      courses := [];
      NothingRun(start, overrides, notify);
      Regroup(before, [], []);
      var i := 0;
      while i < |turns| && !turns[i].incoming.Disconnected?
        invariant i == |courses| <= |turns|
        invariant Now() == RunAll(start, AllSteps(turns[..i], courses, overrides), notify)
        invariant CoursesFit(start, turns[..i], courses, overrides, notify)
        invariant board.asked == before + AllAskedIn(courses)
      {
        ghost var course;
        ghost var done := AllSteps(turns[..i], courses, overrides);
        alive, course := OneTurn(turns[i]);
        if !alive {
          return;
        }
        CoursesSnoc(start, turns, i, courses, course, overrides, notify);
        RunSplit(start, done, TurnSteps(turns[i], course, overrides), notify);
        Regroup(before, AllAskedIn(courses), AskedIn(course));
        courses := courses + [course];
        i := i + 1;
      }
      board.retries := 0;
      ghost var asked := board.asked;
      var _ := Ask(3, [3]);
      assert board.asked == asked + [board.asked[|asked|]];
      OnlyLineRequests(start, turns[..i], courses, overrides, notify);
      NoLinkRequests(before, AllAskedIn(courses));
      NoLinkRequests(asked, [board.asked[|asked|]]);
      alive := true;
    }
  }

  /** What the channel gives within one tick. */
  datatype Incoming =
    | ReloadCmd(store: Option<Config.Uci>) | RestartCmd | UpgradeCmd(client: nat, image: Bytes) | Quiet | Disconnected

  datatype Turn = Turn(incoming: Incoming, clock: Clock)

  /** What was asked of the board in one turn, and what came of it. */
  datatype Course = Course(
    command: seq<Board.Asked>, polling: seq<Board.Asked>,
    poll: Poll, reports: seq<Firmware.Progress>, finish: Firmware.Finish)

  function AskedIn(c: Course): seq<Board.Asked> { c.command + c.polling }

  function AllAskedIn(courses: seq<Course>): seq<Board.Asked>
  {
    if courses == [] then [] else AllAskedIn(courses[..|courses| - 1]) + AskedIn(courses[|courses| - 1])
  }

  /** A command under configuration `cfg` makes these requests, and its results are what the answers make of it. */
  predicate Obeyed(incoming: Incoming, c: Course, cfg: Config.DslConfig, ov: Config.CliOverrides)
  {
    match incoming
    case ReloadCmd(store) =>
      var loaded := Config.Load(store, ov);
      if loaded.Ok? && ConfigChanged(cfg, loaded.value) then Bounced([], c.command, loaded.value) else c.command == []
    case RestartCmd => Bounced([], c.command, cfg)
    case UpgradeCmd(_, image) =>
      && Board.PhaseOf(image, c.command) == Firmware.Finished(c.finish) && Board.ReportsOf(image, c.command) == c.reports
      && forall i :: 0 <= i < |c.command| ==> c.command[i].subtype == 8
    case _ => c.command == []
  }

  /** And so is the result of the poll, made exactly if one was due. */
  predicate Fits(turn: Turn, c: Course, before: View, ov: Config.CliOverrides)
  {
    && Obeyed(turn.incoming, c, before.cfg, ov)
    && if PollDue(before.lastPoll, turn.clock.due) then
         |c.polling| == 1 && c.polling[0].subtype == 2 && c.polling[0].payload == [2] && c.poll == PollOf(c.polling[0].answer)
       else c.polling == []
  }

  lemma SameCommand(incoming: Incoming, c: Course, d: Course, cfg: Config.DslConfig, ov: Config.CliOverrides)
    requires c.command == d.command && c.reports == d.reports && c.finish == d.finish
    ensures CommandSteps(incoming, c, ov) == CommandSteps(incoming, d, ov)
    ensures Obeyed(incoming, c, cfg, ov) <==> Obeyed(incoming, d, cfg, ov)
  {
    hide Board.PhaseOf, Board.ReportsOf, Bounced, ConfigChanged, Config.Load;
  }

  /** So it is for every turn, given the worker before it. */
  predicate CoursesFit(v: View, turns: seq<Turn>, courses: seq<Course>, ov: Config.CliOverrides, notify: bool)
    requires |turns| == |courses|
  {
    turns == [] ||
    var n := |turns| - 1;
    && CoursesFit(v, turns[..n], courses[..n], ov, notify)
    && Fits(turns[n], courses[n], RunAll(v, AllSteps(turns[..n], courses[..n], ov), notify), ov)
  }

  function CommandSteps(incoming: Incoming, c: Course, ov: Config.CliOverrides): seq<Happening>
  {
    match incoming
    case ReloadCmd(store) => [Reloaded(Config.Load(store, ov))]
    case RestartCmd => [Restarted]
    case UpgradeCmd(client, _) => UpgradeSteps(client, c.reports, c.finish)
    case Quiet => []
    case Disconnected => []
  }

  function TurnSteps(turn: Turn, c: Course, ov: Config.CliOverrides): seq<Happening>
  {
    CommandSteps(turn.incoming, c, ov) + [Polled(turn.clock, c.poll)]
  }

  function AllSteps(turns: seq<Turn>, courses: seq<Course>, ov: Config.CliOverrides): seq<Happening>
    requires |turns| == |courses|
  {
    if turns == [] then []
    else
      var n := |turns| - 1;
      AllSteps(turns[..n], courses[..n], ov) + TurnSteps(turns[n], courses[n], ov)
  }

  lemma NothingRun(v: View, ov: Config.CliOverrides, notify: bool)
    ensures RunAll(v, AllSteps([], [], ov), notify) == v
    ensures CoursesFit(v, [], [], ov, notify) && AllAskedIn([]) == []
  {
  }

  lemma CoursesSnoc(v: View, turns: seq<Turn>, i: nat, courses: seq<Course>, c: Course, ov: Config.CliOverrides, notify: bool)
    requires i == |courses| < |turns| && CoursesFit(v, turns[..i], courses, ov, notify)
    requires Fits(turns[i], c, RunAll(v, AllSteps(turns[..i], courses, ov), notify), ov)
    ensures AllSteps(turns[..i + 1], courses + [c], ov)
         == AllSteps(turns[..i], courses, ov) + TurnSteps(turns[i], c, ov)
    ensures CoursesFit(v, turns[..i + 1], courses + [c], ov, notify)
    ensures AllAskedIn(courses + [c]) == AllAskedIn(courses) + AskedIn(c)
  {
    hide TurnSteps, Fits, AskedIn, RunAll;
    assert turns[..i + 1][..i] == turns[..i] && (courses + [c])[..i] == courses;
  }

  /** One turn touches no data-plane link. */
  lemma TurnAsksNoLink(turn: Turn, c: Course, before: View, ov: Config.CliOverrides)
    requires Fits(turn, c, before, ov)
    ensures forall i :: 0 <= i < |AskedIn(c)| ==> IsOfWorker(AskedIn(c)[i]) && !IsLink(AskedIn(c)[i])
  {
    hide Board.PhaseOf, Board.ReportsOf, ConfigChanged, Config.Load, PollDue, PollOf, LineUpPayload;
  }

  /** Whatever is asked of the worker and whatever the board answers, no request touches a data-plane link. */
  lemma {:induction false} OnlyLineRequests(v: View, turns: seq<Turn>, courses: seq<Course>, ov: Config.CliOverrides, notify: bool)
    requires |turns| == |courses| && CoursesFit(v, turns, courses, ov, notify)
    ensures forall i :: 0 <= i < |AllAskedIn(courses)| ==> IsOfWorker(AllAskedIn(courses)[i]) && !IsLink(AllAskedIn(courses)[i])
  {
    hide Fits, AskedIn, RunAll, AllSteps, IsLink;
    if courses != [] {
      var n := |courses| - 1;
      OnlyLineRequests(v, turns[..n], courses[..n], ov, notify);
      TurnAsksNoLink(turns[n], courses[n], RunAll(v, AllSteps(turns[..n], courses[..n], ov), notify), ov);
    }
  }

  lemma RunNone(v: View, notify: bool)
    ensures RunAll(v, [], notify) == v
  {
  }

  /** A command runs its steps. */
  lemma CommandRuns(v: View, incoming: Incoming, c: Course, ov: Config.CliOverrides, notify: bool)
    ensures incoming.ReloadCmd? ==>
      RunAll(v, CommandSteps(incoming, c, ov), notify) == Apply(v, Reloaded(Config.Load(incoming.store, ov)), notify)
    ensures incoming.RestartCmd? ==> RunAll(v, CommandSteps(incoming, c, ov), notify) == Apply(v, Restarted, notify)
    ensures incoming.Quiet? ==> RunAll(v, CommandSteps(incoming, c, ov), notify) == v
  {
    hide Apply, UpgradeSteps, Config.Load;
    RunNone(v, notify);
    RunSnoc(v, [], Restarted, notify);
    assert [] + [Restarted] == [Restarted];
    if incoming.ReloadCmd? {
      var h := Reloaded(Config.Load(incoming.store, ov));
      RunSnoc(v, [], h, notify);
      assert [] + [h] == [h];
    }
  }

  function Reportings(client: nat, reports: seq<Firmware.Progress>): (r: seq<Happening>)
    ensures |r| == |reports|
  {
    seq(|reports|, i requires 0 <= i < |reports| => Reported(client, reports[i]))
  }

  /** The steps of one upgrade. */
  function UpgradeSteps(client: nat, reports: seq<Firmware.Progress>, finish: Firmware.Finish): seq<Happening>
  {
    [UpgradeStarted] + Reportings(client, reports) + [UpgradeEnded(client, finish)]
  }

  lemma ReportsSnoc(client: nat, reports: seq<Firmware.Progress>, p: Firmware.Progress)
    ensures Reportings(client, reports + [p]) == Reportings(client, reports) + [Reported(client, p)]
    ensures Sent(client, reports + [p]) == Sent(client, reports) + [(client, ProgressEvent(p))]
  {
  }

  /** The reports of an upgrade, as the requester's end gives them. */
  lemma {:induction false} ReportingsRun(v: View, client: nat, reports: seq<Firmware.Progress>, notify: bool)
    ensures
      RunAll(v, Reportings(client, reports), notify) ==
      v.(outbox := v.outbox + Sent(client, reports), shared := Marked(v.shared, reports))
  {
    hide Reportings, Sent, RunAll;
    if reports == [] {
      ReportsNone(v, client);
      RunNone(v, notify);
    } else {
      var n := |reports| - 1;
      var p := reports[n];
      assert reports == reports[..n] + [p];
      ReportingsRun(v, client, reports[..n], notify);
      ReportsSnoc(client, reports[..n], p);
      RunSnoc(v, Reportings(client, reports[..n]), Reported(client, p), notify);
      Regroup(v.outbox, Sent(client, reports[..n]), [(client, ProgressEvent(p))]);
    }
  }

  lemma ReportsNone(v: View, client: nat)
    ensures Reportings(client, []) == [] && v.outbox + Sent(client, []) == v.outbox
  {
  }

  lemma UpgradeRuns(v: View, client: nat, reports: seq<Firmware.Progress>, finish: Firmware.Finish, notify: bool)
    ensures
      RunAll(v, UpgradeSteps(client, reports, finish), notify) ==
      Apply(RunAll(Apply(v, UpgradeStarted, notify), Reportings(client, reports), notify), UpgradeEnded(client, finish), notify)
  {
    hide Apply, Reportings, RunAll;
    var rs := Reportings(client, reports);
    RunNone(v, notify);
    RunSnoc(v, [], UpgradeStarted, notify);
    assert [] + [UpgradeStarted] == [UpgradeStarted];
    RunSplit(v, [UpgradeStarted], rs, notify);
    RunSnoc(v, [UpgradeStarted] + rs, UpgradeEnded(client, finish), notify);
  }

  lemma OnlyUploads(image: Bytes, news: seq<Board.Asked>, cap: nat)
    requires Board.Recorded(image, news, cap)
    ensures forall i :: 0 <= i < |news| ==> news[i].subtype == 8
  {
    hide Board.PhaseOf, Firmware.PhaseAfter, Firmware.AllAsked;
  }
}
