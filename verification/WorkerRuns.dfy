/** What holds over every run of the worker, whatever the board answers and whatever is asked of it. */
module WorkerRuns {
  import opened Bytes
  import opened Options
  import opened Text
  import opened Line
  import opened Unpack
  import opened SharedState
  import opened Worker
  import Config
  import Firmware
  import Request

  // ── what the board was seen to say ───────────────────────────────────

  /** What one poll brought, and when. */
  datatype Sighting = Sighting(line: LineObj, seen: nat, published: nat) {
    function Status(): LinkStatus { line.linkStatus }
  }

  /** The time noted by the last poll made. */
  function LastPoll(hs: seq<Happening>): Option<nat>
  {
    if hs == [] then None
    else
      var n := |hs| - 1;
      var before := LastPoll(hs[..n]);
      if hs[n].Polled? && PollDue(before, hs[n].clock.due) then Some(hs[n].clock.noted) else before
  }

  /** The statuses seen, in order. */
  function Sightings(hs: seq<Happening>): seq<Sighting>
  {
    if hs == [] then []
    else
      var n := |hs| - 1;
      Sightings(hs[..n]) + NewSighting(LastPoll(hs[..n]), hs[n])
  }

  function NewSighting(last: Option<nat>, h: Happening): seq<Sighting>
  {
    if h.Polled? && PollDue(last, h.clock.due) && h.poll.Seen? then
      [Sighting(h.poll.line, h.clock.seen, h.clock.published)]
    else []
  }

  /** The polls made, as the clock read when each was due and when it was noted. */
  function PollsMade(hs: seq<Happening>): seq<Clock>
  {
    if hs == [] then []
    else
      var n := |hs| - 1;
      PollsMade(hs[..n]) + if hs[n].Polled? && PollDue(LastPoll(hs[..n]), hs[n].clock.due) then [hs[n].clock] else []
  }

  lemma {:induction false} LastPollMade(hs: seq<Happening>)
    ensures LastPoll(hs) == if PollsMade(hs) == [] then None else Some(PollsMade(hs)[|PollsMade(hs)| - 1].noted)
  {
    if hs != [] {
      LastPollMade(hs[..|hs| - 1]);
    }
  }

  /** A poll is due at least a second after the one before it was noted. */
  lemma {:induction false} PollsApart(hs: seq<Happening>, i: nat)
    requires i + 1 < |PollsMade(hs)|
    ensures PollsMade(hs)[i + 1].due >= PollsMade(hs)[i].noted + 1_000_000_000
  {
    var n := |hs| - 1;
    LastPollMade(hs[..n]);
    if i + 1 < |PollsMade(hs[..n])| {
      PollsApart(hs[..n], i);
    }
  }

  /** And none that is due is left out. */
  lemma DuePollMade(hs: seq<Happening>, h: Happening)
    requires h.Polled?
    requires PollsMade(hs) == [] || h.clock.due >= PollsMade(hs)[|PollsMade(hs)| - 1].noted + 1_000_000_000
    ensures PollsMade(hs + [h]) == PollsMade(hs) + [h.clock]
  {
    LastPollMade(hs);
    assert (hs + [h])[..|hs|] == hs;
  }

  // ── from the board's reply to the script ─────────────────────────────

  lemma StatusByte(n: u32)
    ensures Be32(n)[0] == 2 <==> 0x200_0000 <= n < 0x300_0000
  {
  }

  /** A documented reply is read as the board meant it, with the opcode echoed or not; without the echo the status must not
      begin with that byte, as success, zero, does not. The script is told up for code 1, training for 3, handshake
      for 4, and down for every other. */
  lemma ReplyPolled(r: Report, rest: Bytes, echoed: bool)
    requires |r.metrics| == 12 && (echoed || !(0x200_0000 <= r.status < 0x300_0000))
    ensures
      var poll := PollOf(Request.Ok((if echoed then [2] else []) + (Written(r) + rest)));
      && poll.Seen? && Some(poll.line) == ParseLineObj(Written(r) + rest)
      && EventOf(poll.line.linkStatus) ==
         if r.link == 1 then LineUp else if r.link == 3 then LineTraining else if r.link == 4 then LineHandshake else LineDown
  {
    hide ParseLineObj, Unpack.Words, Be32;
    LineObjReads(r, rest);
    StatusByte(r.status);
    var data := Written(r) + rest;
    var payload := (if echoed then [2] else []) + data;
    assert data[0] == Be32(r.status)[0];
    assert echoed ==> payload[1..] == data;
    assert !echoed ==> payload == data;
  }

  /** No answer, or one too short, leaves the line as it was. */
  lemma ShortReplyIgnored(answer: Request.Answer)
    ensures PollOf(answer).NotSeen? <==> !answer.Ok? || |Firmware.StripEcho(answer.payload, 2)| < 63
  {
  }

  /** Nothing polled, seen or announced yet. */
  predicate Fresh(v: View)
  {
    v.lastPoll == None && v.lastStatus == None && v.upSince == None && !v.tcEmitted && v.notes == []
  }

  function LastStatus(ss: seq<Sighting>): Option<LinkStatus>
  {
    if ss == [] then None else Some(ss[|ss| - 1].Status())
  }

  lemma StepPolls(v: View, h: Happening, notify: bool)
    ensures
      var w := Apply(v, h, notify);
      var more := NewSighting(v.lastPoll, h);
      && w.lastPoll == (if h.Polled? && PollDue(v.lastPoll, h.clock.due) then Some(h.clock.noted) else v.lastPoll)
      && w.lastStatus == (if more == [] then v.lastStatus else Some(more[0].Status()))
  {
    hide ConfigChanged, Publish, LineUpPayload, UptimeAt, UpFrom, PollDue, EventOf;
  }

  lemma {:induction false} PollsKept(v: View, hs: seq<Happening>, notify: bool)
    requires Fresh(v)
    ensures RunAll(v, hs, notify).lastPoll == LastPoll(hs)
    ensures RunAll(v, hs, notify).lastStatus == LastStatus(Sightings(hs))
  {
    hide Apply, PollDue;
    if hs != [] {
      var n := |hs| - 1;
      PollsKept(v, hs[..n], notify);
      StepPolls(RunAll(v, hs[..n], notify), hs[n], notify);
      LastOf(Sightings(hs[..n]), NewSighting(LastPoll(hs[..n]), hs[n]));
    }
  }

  lemma LastOf(ss: seq<Sighting>, more: seq<Sighting>)
    requires |more| <= 1
    ensures LastStatus(ss + more) == if more == [] then LastStatus(ss) else Some(more[0].Status())
  {
    if more == [] {
      assert ss + more == ss;
    }
  }

  // ── status events ────────────────────────────────────────────────────

  /** Consecutive repeats removed. */
  function Changes(ss: seq<Sighting>): seq<LinkStatus>
  {
    if ss == [] then []
    else
      var n := |ss| - 1;
      Changes(ss[..n]) + if LastStatus(ss[..n]) == Some(ss[n].Status()) then [] else [ss[n].Status()]
  }

  function Events(statuses: seq<LinkStatus>): (r: seq<LineEvent>)
    ensures |r| == |statuses|
  {
    seq(|statuses|, i requires 0 <= i < |statuses| => EventOf(statuses[i]))
  }

  function StatusEvents(notes: seq<Note>): seq<LineEvent>
  {
    if notes == [] then []
    else
      var n := |notes| - 1;
      StatusEvents(notes[..n]) + if notes[n].StatusNote? then [notes[n].event] else []
  }

  lemma StatusEventsSnoc(notes: seq<Note>, n: Note)
    ensures StatusEvents(notes + [n]) == StatusEvents(notes) + if n.StatusNote? then [n.event] else []
  {
    assert (notes + [n])[..|notes|] == notes;
  }

  lemma AnnounceEvents(v: View, status: LinkStatus)
    ensures StatusEvents(Announce(v, status, true).notes) ==
      StatusEvents(v.notes) + if v.lastStatus == Some(status) then [] else [EventOf(status)]
  {
    hide StatusEvents;
    var note := StatusNote(EventOf(status));
    var mode := TcLayerNote(v.cfg.xferMode);
    StatusEventsSnoc(v.notes, note);
    StatusEventsSnoc(v.notes + [note], mode);
    assert v.notes + [note] + [] == v.notes + [note];
    assert v.notes + ([note] + [mode]) == v.notes + [note] + [mode];
    assert v.notes + ([note] + []) == v.notes + [note];
  }

  lemma ChangesSnoc(ss: seq<Sighting>, s: Sighting)
    ensures Changes(ss + [s]) == Changes(ss) + if LastStatus(ss) == Some(s.Status()) then [] else [s.Status()]
  {
    assert (ss + [s])[..|ss|] == ss;
  }

  lemma EventsSnoc(statuses: seq<LinkStatus>, s: LinkStatus)
    ensures Events(statuses + [s]) == Events(statuses) + [EventOf(s)]
    ensures Events(statuses + []) == Events(statuses)
  {
    assert statuses + [] == statuses;
  }

  /** The notes a step adds, and the step of everything else they depend on. */
  lemma StepEvents(v: View, h: Happening)
    ensures StatusEvents(Apply(v, h, true).notes) ==
      StatusEvents(v.notes) +
      if NewSighting(v.lastPoll, h) != [] && v.lastStatus != Some(NewSighting(v.lastPoll, h)[0].Status())
      then [EventOf(NewSighting(v.lastPoll, h)[0].Status())] else []
  {
    hide StatusEvents, ConfigChanged, Publish, LineUpPayload, UptimeAt, UpFrom, PollDue, EventOf, Announce;
    if h.Polled? && PollDue(v.lastPoll, h.clock.due) && h.poll.Seen? {
      AnnounceEvents(Polling(v, h.clock, h.poll.line), h.poll.line.linkStatus);
    }
  }

  /** The status events are those of the statuses seen, with consecutive repeats left out. */
  lemma {:induction false} StatusEventsFollow(v: View, hs: seq<Happening>)
    requires Fresh(v)
    ensures StatusEvents(RunAll(v, hs, true).notes) == Events(Changes(Sightings(hs)))
  {
    hide StatusEvents, Apply, PollDue, Events, Changes;
    if hs == [] {
      NoEvents();
    } else {
      var n := |hs| - 1;
      var front := hs[..n];
      var w := RunAll(v, front, true);
      StatusEventsFollow(v, front);
      PollsKept(v, front, true);
      StepEvents(w, hs[n]);
      var more := NewSighting(LastPoll(front), hs[n]);
      if more == [] {
        assert Sightings(hs) == Sightings(front);
      } else {
        ChangesSnoc(Sightings(front), more[0]);
        EventsSnoc(Changes(Sightings(front)), more[0].Status());
        assert Sightings(hs) == Sightings(front) + [more[0]];
      }
    }
  }

  lemma NoEvents()
    ensures StatusEvents([]) == Events(Changes([]))
  {
  }

  /** Without a script nothing is announced. */
  lemma {:induction false} SilentWithoutScript(v: View, hs: seq<Happening>)
    ensures RunAll(v, hs, false).notes == v.notes
  {
    hide ConfigChanged, Publish, LineUpPayload, UptimeAt, UpFrom, PollDue, EventOf;
    if hs != [] {
      SilentWithoutScript(v, hs[..|hs| - 1]);
    }
  }

  // ── transfer-mode events ─────────────────────────────────────────────

  /** Step `i` announces the transfer mode. */
  predicate AnnouncesMode(v: View, hs: seq<Happening>, i: nat)
    requires i < |hs|
  {
    var before, after := RunAll(v, hs[..i], true).notes, RunAll(v, hs[..i + 1], true).notes;
    |after| > |before| && after[|after| - 1].TcLayerNote?
  }

  /** Step `k` restarts the line, or reloads a configuration that differs. */
  predicate Clears(v: View, hs: seq<Happening>, k: nat)
    requires k < |hs|
  {
    || hs[k].Restarted?
    || (hs[k].Reloaded? && hs[k].loaded.Ok? && ConfigChanged(RunAll(v, hs[..k], true).cfg, hs[k].loaded.value))
  }

  lemma StepMode(v: View, h: Happening)
    ensures
      var w := Apply(v, h, true);
      && (|w.notes| > |v.notes| && w.notes[|w.notes| - 1].TcLayerNote? ==>
            !v.tcEmitted && w.tcEmitted && w.lastStatus == Some(Up)
            && w.notes == v.notes + [StatusNote(LineUp), TcLayerNote(v.cfg.xferMode)])
      && (!w.tcEmitted && v.tcEmitted ==>
            h.Restarted? || (h.Reloaded? && h.loaded.Ok? && ConfigChanged(v.cfg, h.loaded.value)))
  {
    hide ConfigChanged, Publish, LineUpPayload, UptimeAt, UpFrom, PollDue;
  }

  lemma {:induction false} StaysEmitted(v: View, hs: seq<Happening>, i: nat, j: nat)
    requires i <= j <= |hs| && RunAll(v, hs[..i], true).tcEmitted
    requires forall k :: i <= k < j ==> !Clears(v, hs, k)
    ensures RunAll(v, hs[..j], true).tcEmitted
    decreases j - i
  {
    hide Apply, RunAll, ConfigChanged;
    if i < j {
      OneMore(v, hs, i);
      StepMode(RunAll(v, hs[..i], true), hs[i]);
      assert !Clears(v, hs, i);
      StaysEmitted(v, hs, i + 1, j);
    }
  }

  lemma OneMore(v: View, hs: seq<Happening>, i: nat)
    requires i < |hs|
    ensures RunAll(v, hs[..i + 1], true) == Apply(RunAll(v, hs[..i], true), hs[i], true)
  {
    hide Apply;
    assert hs[..i + 1][..i] == hs[..i];
  }

  /** Between two announcements of the transfer mode there is a restart or a changed reload. */
  lemma ModesSeparated(v: View, hs: seq<Happening>, i: nat, j: nat)
    requires i < j < |hs| && AnnouncesMode(v, hs, i) && AnnouncesMode(v, hs, j)
    ensures exists k :: i < k < j && Clears(v, hs, k)
  {
    hide Apply, RunAll, Clears;
    OneMore(v, hs, i);
    OneMore(v, hs, j);
    StepMode(RunAll(v, hs[..i], true), hs[i]);
    StepMode(RunAll(v, hs[..j], true), hs[j]);
    if forall k :: i + 1 <= k < j ==> !Clears(v, hs, k) {
      StaysEmitted(v, hs, i + 1, j);
      assert false;
    }
  }

  /** The mode announced is the configured one, and it comes with the event that the line is up. */
  lemma ModeAnnounced(v: View, hs: seq<Happening>, i: nat)
    requires i < |hs| && AnnouncesMode(v, hs, i)
    ensures
      RunAll(v, hs[..i + 1], true).notes ==
      RunAll(v, hs[..i], true).notes + [StatusNote(LineUp), TcLayerNote(RunAll(v, hs[..i], true).cfg.xferMode)]
  {
    hide Apply, RunAll;
    OneMore(v, hs, i);
    StepMode(RunAll(v, hs[..i], true), hs[i]);
  }

  // ── uptime ───────────────────────────────────────────────────────────

  /** From sighting `i` to the last the line was up, and not before. */
  predicate UpSince(ss: seq<Sighting>, i: nat)
  {
    i < |ss| && (forall k :: i <= k < |ss| ==> ss[k].Status() == Up) && (i == 0 || ss[i - 1].Status() != Up)
  }

  /** `up` dates the current run of ups, which sighting `i` starts; there is no date if there is no such run. */
  predicate Dates(ss: seq<Sighting>, up: Option<nat>, i: nat)
  {
    if LastStatus(ss) == Some(Up) then UpSince(ss, i) && up == Some(ss[i].seen) else up == None
  }

  lemma DatesNone(i: nat)
    ensures Dates([], None, i)
  {
  }

  lemma DatesSnoc(ss: seq<Sighting>, up: Option<nat>, i: nat, s: Sighting) returns (j: nat)
    requires Dates(ss, up, i)
    ensures Dates(ss + [s], UpFrom(up, s.Status(), s.seen), j)
  {
    var now := ss + [s];
    assert now[|now| - 1] == s;
    j := if LastStatus(ss) == Some(Up) then i else |ss|;
  }

  /** The time the line came up is that of the first sighting of the current unbroken run of ups;
      failed polls do not break it. */
  lemma {:induction false} UpSinceFollows(v: View, hs: seq<Happening>, notify: bool) returns (i: nat)
    requires Fresh(v)
    ensures Dates(Sightings(hs), RunAll(v, hs, notify).upSince, i)
  {
    hide PollDue, Apply, Dates, UpFrom, NewSighting;
    if hs == [] {
      i := 0;
      DatesNone(i);
    } else {
      var n := |hs| - 1;
      var front := hs[..n];
      i := UpSinceFollows(v, front, notify);
      PollsKept(v, front, notify);
      var w := RunAll(v, front, notify);
      StepUp(w, hs[n], notify);
      OneSighting(LastPoll(front), hs[n]);
      var more := NewSighting(LastPoll(front), hs[n]);
      if more == [] {
        assert Sightings(hs) == Sightings(front);
      } else {
        assert more == [more[0]];
        i := DatesSnoc(Sightings(front), w.upSince, i, more[0]);
      }
    }
  }

  lemma StepUp(v: View, h: Happening, notify: bool)
    ensures
      var more := NewSighting(v.lastPoll, h);
      var w := Apply(v, h, notify);
      if more == [] then w.upSince == v.upSince && w.shared.uptimeSecs == v.shared.uptimeSecs
      else
        && w.upSince == UpFrom(v.upSince, more[0].Status(), more[0].seen)
        && w.shared.uptimeSecs == UptimeAt(w.upSince, more[0].published)
  {
    hide PollDue, ConfigChanged, LineUpPayload, UpFrom, UptimeAt;
  }

  /** The seconds the line has been up when the last status was published; `i` starts the current run of ups. */
  function UptimeOf(ss: seq<Sighting>, i: nat): nat
    requires i < |ss|
  {
    var last := ss[|ss| - 1];
    if last.Status() == Up then Max(last.published - ss[i].seen, 0) / 1_000_000_000 else 0
  }

  /** The published uptime is the age of the current run of ups when the last status was published, in whole seconds. */
  lemma {:induction false} UptimePublished(v: View, hs: seq<Happening>, notify: bool) returns (i: nat)
    requires Fresh(v) && Sightings(hs) != []
    ensures i < |Sightings(hs)|
    ensures LastStatus(Sightings(hs)) == Some(Up) ==> UpSince(Sightings(hs), i)
    ensures RunAll(v, hs, notify).shared.uptimeSecs == UptimeOf(Sightings(hs), i)
  {
    hide PollDue, Apply, UpSince, NewSighting;
    var n := |hs| - 1;
    var front := hs[..n];
    PollsKept(v, front, notify);
    StepUp(RunAll(v, front, notify), hs[n], notify);
    var more := NewSighting(LastPoll(front), hs[n]);
    if more == [] {
      assert Sightings(hs) == Sightings(front);
      i := UptimePublished(v, front, notify);
    } else {
      i := UpSinceFollows(v, hs, notify);
      OneSighting(LastPoll(front), hs[n]);
      assert Sightings(hs)[|Sightings(hs)| - 1] == more[0];
      if more[0].Status() != Up {
        i := 0;
      } else {
        WithinRun(Sightings(hs), i);
      }
    }
  }

  /** The line data published are those of the last poll that brought any. */
  lemma {:induction false} LineShown(v: View, hs: seq<Happening>, notify: bool)
    requires Fresh(v) && v.shared.line == None
    ensures
      var ss := Sightings(hs);
      RunAll(v, hs, notify).shared.line == if ss == [] then None else Some(ss[|ss| - 1].line)
  {
    hide PollDue, Apply, NewSighting;
    if hs != [] {
      var n := |hs| - 1;
      var front := hs[..n];
      LineShown(v, front, notify);
      PollsKept(v, front, notify);
      StepLine(RunAll(v, front, notify), hs[n], notify);
      OneSighting(LastPoll(front), hs[n]);
      var more := NewSighting(LastPoll(front), hs[n]);
      assert more == [] ==> Sightings(hs) == Sightings(front);
    }
  }

  lemma StepLine(v: View, h: Happening, notify: bool)
    ensures
      var more := NewSighting(v.lastPoll, h);
      Apply(v, h, notify).shared.line == if more == [] then v.shared.line else Some(more[0].line)
  {
    hide PollDue, ConfigChanged, LineUpPayload, UpFrom, UptimeAt, EventOf;
  }

  lemma WithinRun(ss: seq<Sighting>, i: nat)
    requires UpSince(ss, i)
    ensures i < |ss|
  {
  }

  lemma OneSighting(last: Option<nat>, h: Happening)
    ensures |NewSighting(last, h)| <= 1
  {
  }

  // ── configuration ────────────────────────────────────────────────────

  /** What is published is the worker's configuration. */
  predicate Published(v: View)
  {
    v.shared.xferMode == Some(v.cfg.xferMode) && v.shared.modulation == v.cfg.modulation && v.shared.annex == v.cfg.annex
  }

  /** And so is what the board was last told. */
  predicate InSync(v: View)
  {
    && Published(v) && v.lineUps != [] && v.lineUps[|v.lineUps| - 1] == LineUpPayload(v.cfg)
  }

  lemma StepInSync(v: View, h: Happening, notify: bool)
    requires InSync(v)
    ensures InSync(Apply(v, h, notify))
  {
    hide PollDue, ConfigChanged, LineUpPayload, UpFrom, UptimeAt, EventOf;
  }

  lemma {:induction false} RunInSync(v: View, hs: seq<Happening>, notify: bool)
    requires InSync(v)
    ensures InSync(RunAll(v, hs, notify))
  {
    hide InSync, Apply;
    if hs != [] {
      RunInSync(v, hs[..|hs| - 1], notify);
      StepInSync(RunAll(v, hs[..|hs| - 1], notify), hs[|hs| - 1], notify);
    }
  }

  /** After a reload the board has what the store asks for, except when only bitswap or SRA changed. */
  lemma ReloadReachesBoard(v: View, loaded: Config.DslConfig, notify: bool)
    requires InSync(v)
    ensures
      var w := Apply(v, Reloaded(Config.Ok(loaded)), notify);
      w.lineUps != [] &&
      (w.lineUps[|w.lineUps| - 1] == LineUpPayload(loaded) <==>
        ConfigChanged(v.cfg, loaded) || (v.cfg.bitswap == loaded.bitswap && v.cfg.sra == loaded.sra))
  {
    hide PackDslLine, Bitmask;
    var c := v.cfg;
    PackTells(c.modulation, c.annex, c.bitswap, c.sra, c.profiles,
              loaded.modulation, loaded.annex, loaded.bitswap, loaded.sra, loaded.profiles);
    MaskTells(c.profiles, loaded.profiles);
    var p, q := PackDslLine(c.modulation, c.annex, c.bitswap, c.sra, c.profiles),
      PackDslLine(loaded.modulation, loaded.annex, loaded.bitswap, loaded.sra, loaded.profiles);
    assert ([1] + p)[1..] == p && ([1] + q)[1..] == q;
  }

  /** What the last store that could be read and built asks for, or what there was before. */
  function Wanted(c: Config.DslConfig, hs: seq<Happening>): Config.DslConfig
  {
    if hs == [] then c
    else
      var h := hs[|hs| - 1];
      if h.Reloaded? && h.loaded.Ok? then h.loaded.value else Wanted(c, hs[..|hs| - 1])
  }

  /** After every run the worker has what the last usable store asks for, bitswap, SRA and the data plane aside. */
  lemma {:induction false} ConfigFollows(v: View, hs: seq<Happening>, notify: bool)
    ensures !ConfigChanged(RunAll(v, hs, notify).cfg, Wanted(v.cfg, hs))
  {
    hide Bitmask;
    if hs != [] {
      var n := |hs| - 1;
      ConfigFollows(v, hs[..n], notify);
      StepConfig(RunAll(v, hs[..n], notify), hs[n], notify);
    }
  }

  lemma StepConfig(v: View, h: Happening, notify: bool)
    ensures
      Apply(v, h, notify).cfg ==
      if h.Reloaded? && h.loaded.Ok? && ConfigChanged(v.cfg, h.loaded.value) then h.loaded.value else v.cfg
  {
    hide PollDue, ConfigChanged, LineUpPayload, UpFrom, UptimeAt, EventOf;
  }

  /** The last reload whose store could be read and built. */
  function LastUsable(hs: seq<Happening>): Option<nat>
  {
    if hs == [] then None
    else
      var n := |hs| - 1;
      if hs[n].Reloaded? && hs[n].loaded.Ok? then Some(n) else LastUsable(hs[..n])
  }

  lemma {:induction false} WantedIs(c: Config.DslConfig, hs: seq<Happening>)
    ensures
      var k := LastUsable(hs);
      && (k.None? ==> Wanted(c, hs) == c)
      && (k.Some? ==>
            k.value < |hs| && hs[k.value].Reloaded? && hs[k.value].loaded.Ok? && Wanted(c, hs) == hs[k.value].loaded.value)
  {
    if hs != [] {
      WantedIs(c, hs[..|hs| - 1]);
    }
  }

  lemma SameChecks(c: Config.DslConfig, d: Config.DslConfig)
    requires !ConfigChanged(c, d)
    ensures (Config.LineFine(c) <==> Config.LineFine(d)) && (Config.XferFine(c) <==> Config.XferFine(d))
  {
    hide Bitmask, ValidateLineConfig;
    MaskTells(c.profiles, d.profiles);
  }

  /** A reload is not checked: of a worker that started with a checked configuration the line parameters stay sound
      over every run, but the transfer mode fits exactly as long as it does in the last usable store. */
  lemma TransferInForce(v: View, hs: seq<Happening>, stores: seq<Option<Config.Uci>>, ov: Config.CliOverrides, notify: bool)
    requires Config.LineFine(v.cfg) && Config.XferFine(v.cfg) && |stores| == |hs|
    requires forall i :: 0 <= i < |hs| && hs[i].Reloaded? ==> hs[i].loaded == Config.Load(stores[i], ov)
    ensures Config.LineFine(RunAll(v, hs, notify).cfg)
    ensures
      var k := LastUsable(hs);
      && (k.Some? ==> k.value < |stores| && stores[k.value].Some?)
      && (Config.XferFine(RunAll(v, hs, notify).cfg) <==> k.None? || Config.TransferAgrees(stores[k.value].value, ov))
  {
    hide RunAll, ConfigChanged, Wanted, LastUsable, Config.LineFine, Config.XferFine, Config.Build, Config.TransferAgrees;
    ConfigFollows(v, hs, notify);
    WantedIs(v.cfg, hs);
    SameChecks(RunAll(v, hs, notify).cfg, Wanted(v.cfg, hs));
    var k := LastUsable(hs);
    if k.Some? {
      Config.BuiltIsConsistent(stores[k.value].value, ov);
      Config.TransferCheck(stores[k.value].value, ov);
    }
  }

  /** So it happens: a store that stops the daemon at its start is taken over by a reload. */
  lemma ReloadUnchecked(v: View, notify: bool)
    requires Config.XferFine(v.cfg)
    ensures
      var store := Config.OnlyXfer("atm ");
      var w := Apply(v, Reloaded(Config.Load(Some(store), Config.NoOverrides())), notify);
      !Config.Starts(store, Config.NoOverrides()) && w.cfg == Config.AtStart(store, Config.NoOverrides())
  {
    hide Config.Build, Config.OnlyXfer, Config.LineFine, Config.XferFine, PackDslLine, Bitmask, ConfigChanged;
    Config.InferenceMissesBlanks();
    var store := Config.OnlyXfer("atm ");
    var c := Config.Build(store, Config.NoOverrides()).value;
    Config.BuiltIsConsistent(store, Config.NoOverrides());
    if !ConfigChanged(v.cfg, c) {
      SameChecks(v.cfg, c);
      assert false;
    }
  }
}
