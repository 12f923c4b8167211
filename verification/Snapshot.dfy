/** The status snapshot as text: printed by the daemon, parsed by the control client. */
module Snapshot {
  import opened Bytes
  import opened Options
  import opened Text

  type i32 = x: int | -0x8000_0000 <= x < 0x8000_0000
  type u64 = x: int | 0 <= x < 0x1_0000_0000_0000_0000

  datatype StatusSnapshot = StatusSnapshot(
    state: string, stateNum: i32, up: bool, uptimeSecs: u64,
    modulation: string, annex: string, xferMode: string,
    downRate: u32, upRate: u32, downSnr: u32, upSnr: u32, fwStatus: string)

  function Blank(): StatusSnapshot
  {
    StatusSnapshot("", 0, false, 0, "", "", "", 0, 0, 0, 0, "")
  }

  // ── printing ─────────────────────────────────────────────────────────

  function Entry(key: string, value: string): string { key + ": " + value }

  datatype Key =
    | State | StateNum | Up | Uptime | Modulation | Annex | XferMode
    | DownRate | UpRate | DownSnr | UpSnr | FwStatus

  function KeyName(key: Key): string
  {
    match key
    case State => "state"
    case StateNum => "state_num"
    case Up => "up"
    case Uptime => "uptime"
    case Modulation => "modulation"
    case Annex => "annex"
    case XferMode => "xfer_mode"
    case DownRate => "down_rate"
    case UpRate => "up_rate"
    case DownSnr => "down_snr"
    case UpSnr => "up_snr"
    case FwStatus => "fw_status"
  }

  function Fields(s: StatusSnapshot): seq<(Key, string)>
  {
    [(State, s.state), (StateNum, ShowInt(s.stateNum)), (Up, ShowBool(s.up)),
     (Uptime, ShowInt(s.uptimeSecs)), (Modulation, s.modulation), (Annex, s.annex),
     (XferMode, s.xferMode), (DownRate, ShowInt(s.downRate)), (UpRate, ShowInt(s.upRate)),
     (DownSnr, ShowInt(s.downSnr)), (UpSnr, ShowInt(s.upSnr)), (FwStatus, s.fwStatus)]
  }

  function Entries(fields: seq<(Key, string)>): seq<string>
  {
    if fields == [] then [] else [Entry(KeyName(fields[0].0), fields[0].1)] + Entries(fields[1..])
  }

  function Unlines(lines: seq<string>): string
  {
    if lines == [] then ""
    else if |lines| == 1 then lines[0]
    else lines[0] + "\n" + Unlines(lines[1..])
  }

  function ToLines(s: StatusSnapshot): string { Unlines(Entries(Fields(s))) }

  // ── parsing ──────────────────────────────────────────────────────────

  /** The first line feed, or the end. */
  function LineEnd(s: string): (i: nat)
    ensures i <= |s| && '\n' !in s[..i] && (i < |s| ==> s[i] == '\n')
  {
    if s == "" || s[0] == '\n' then 0 else 1 + LineEnd(s[1..])
  }

  function DropReturn(line: string): string
  {
    if line != "" && line[|line| - 1] == '\r' then line[..|line| - 1] else line
  }

  /** The lines of a text; `\n` and `\r\n` end one. */
  function Lines(s: string): seq<string>
    decreases |s|
  {
    var i := LineEnd(s);
    if s == "" then []
    else if i == |s| then [s]
    else [DropReturn(s[..i])] + Lines(s[i + 1..])
  }

  /** The parts before and after the first colon and blank. */
  function SplitOnce(line: string): Option<(string, string)>
  {
    if |line| < 2 then None
    else if line[..2] == ": " then Some(("", line[2..]))
    else match SplitOnce(line[1..])
      case None => None
      case Some(kv) => Some(([line[0]] + kv.0, kv.1))
  }

  function ParseI32(v: string): i32
  {
    match ParseInt(v, -0x8000_0000, 0x7FFF_FFFF) case None => 0 case Some(n) => n
  }

  function ParseU32(v: string): u32
  {
    match ParseInt(v, 0, 0xFFFF_FFFF) case None => 0 case Some(n) => n
  }

  function ParseU64(v: string): u64
  {
    match ParseInt(v, 0, 0xFFFF_FFFF_FFFF_FFFF) case None => 0 case Some(n) => n
  }

  function KeyOf(name: string): Option<Key>
  {
    match name
    case "state" => Some(State)
    case "state_num" => Some(StateNum)
    case "up" => Some(Up)
    case "uptime" => Some(Uptime)
    case "modulation" => Some(Modulation)
    case "annex" => Some(Annex)
    case "xfer_mode" => Some(XferMode)
    case "down_rate" => Some(DownRate)
    case "up_rate" => Some(UpRate)
    case "down_snr" => Some(DownSnr)
    case "up_snr" => Some(UpSnr)
    case "fw_status" => Some(FwStatus)
    case _ => None
  }

  function Set(s: StatusSnapshot, key: Key, value: string): StatusSnapshot
  {
    match key
    case State => s.(state := value)
    case StateNum => s.(stateNum := ParseI32(value))
    case Up => s.(up := value == "true")
    case Uptime => s.(uptimeSecs := ParseU64(value))
    case Modulation => s.(modulation := value)
    case Annex => s.(annex := value)
    case XferMode => s.(xferMode := value)
    case DownRate => s.(downRate := ParseU32(value))
    case UpRate => s.(upRate := ParseU32(value))
    case DownSnr => s.(downSnr := ParseU32(value))
    case UpSnr => s.(upSnr := ParseU32(value))
    case FwStatus => s.(fwStatus := value)
  }

  function Apply(s: StatusSnapshot, line: string): StatusSnapshot
  {
    match SplitOnce(line)
    case None => s
    case Some(kv) =>
      match KeyOf(Trim(kv.0))
      case None => s
      case Some(key) => Set(s, key, Trim(kv.1))
  }

  function ApplyAll(s: StatusSnapshot, lines: seq<string>): StatusSnapshot
    decreases |lines|
  {
    if lines == [] then s else ApplyAll(Apply(s, lines[0]), lines[1..])
  }

  function Parsed(body: string): StatusSnapshot { ApplyAll(Blank(), Lines(body)) }

  method FromLines(body: string) returns (s: StatusSnapshot)
    ensures s == Parsed(body)
  {
    hide Apply;
    var lines := Lines(body);
    s := Blank();
    var i := 0;
    while i < |lines|
      invariant 0 <= i <= |lines|
      invariant ApplyAll(s, lines[i..]) == Parsed(body)
    {
      s := Apply(s, lines[i]);
      i := i + 1;
    }
  }

  // ── what can be read back ────────────────────────────────────────────

  /** Text that survives: one line, unchanged by trimming. */
  predicate Plain(text: string) { Trimmed(text) && '\n' !in text }

  predicate AllPlain(s: StatusSnapshot)
  {
    Plain(s.state) && Plain(s.modulation) && Plain(s.annex) && Plain(s.xferMode) && Plain(s.fwStatus)
  }

  lemma {:induction false} LineEndIs(line: string, rest: string)
    requires '\n' !in line
    ensures LineEnd(line + "\n" + rest) == |line|
    ensures LineEnd(line) == |line|
  {
    if line != "" {
      assert (line + "\n" + rest)[1..] == line[1..] + "\n" + rest;
      LineEndIs(line[1..], rest);
    }
  }

  predicate IsLine(line: string) { line != "" && '\n' !in line && line[|line| - 1] != '\r' }

  lemma LinesFirst(line: string, rest: string)
    requires IsLine(line)
    ensures Lines(line + "\n" + rest) == [line] + Lines(rest)
  {
    var s := line + "\n" + rest;
    LineEndIs(line, rest);
    assert s[..|line|] == line && s[|line| + 1..] == rest;
  }

  /** Splitting undoes joining, with or without a final line feed. */
  lemma {:induction false} LinesOfUnlines(lines: seq<string>)
    requires lines != [] && forall line :: line in lines ==> IsLine(line)
    ensures Lines(Unlines(lines)) == lines
    ensures Lines(Unlines(lines) + "\n") == lines
  {
    hide Lines;
    var first := lines[0];
    if |lines| == 1 {
      assert lines == [first];
      OneLine(first);
      LinesFirst(first, "");
      assert first + "\n" + "" == first + "\n";
    } else {
      LinesOfUnlines(lines[1..]);
      LinesFirst(first, Unlines(lines[1..]));
      LinesFirst(first, Unlines(lines[1..]) + "\n");
      assert first + "\n" + (Unlines(lines[1..]) + "\n") == Unlines(lines) + "\n";
      assert [first] + lines[1..] == lines;
    }
  }

  lemma OneLine(line: string)
    requires IsLine(line)
    ensures Lines(line) == [line] && Lines("") == []
  {
    LineEndIs(line, "");
  }

  lemma {:induction false} SplitEntry(key: string, value: string)
    requires ':' !in key
    ensures SplitOnce(Entry(key, value)) == Some((key, value))
  {
    var line := Entry(key, value);
    if key == "" {
      assert line[..2] == ": " && line[2..] == value;
    } else {
      assert line[0] == key[0] && line[..2][0] != ':';
      assert line[1..] == Entry(key[1..], value);
      SplitEntry(key[1..], value);
      assert [key[0]] + key[1..] == key;
    }
  }

  /** A key is plain text without a colon, and it names itself. */
  lemma KeyNames(key: Key)
    ensures Plain(KeyName(key)) && ':' !in KeyName(key)
    ensures KeyOf(KeyName(key)) == Some(key)
  {
    hide Plain;
    KeyPlain(key);
  }

  lemma KeyPlain(key: Key)
    ensures Plain(KeyName(key))
  {
  }

  lemma ApplyEntry(s: StatusSnapshot, key: Key, value: string)
    requires Plain(value)
    ensures Apply(s, Entry(KeyName(key), value)) == Set(s, key, value)
  {
    hide KeyOf, KeyName, Set;
    KeyNames(key);
    SplitEntry(KeyName(key), value);
    TrimTrims(KeyName(key));
    TrimTrims(value);
  }

  lemma EntryIsLine(key: Key, value: string)
    requires Plain(value)
    ensures IsLine(Entry(KeyName(key), value))
  {
    hide KeyOf, KeyName;
    KeyNames(key);
    var line := Entry(KeyName(key), value);
    assert line[|line| - 1] == if value == "" then ' ' else value[|value| - 1];
  }

  predicate GoodFields(fields: seq<(Key, string)>)
  {
    forall f :: f in fields ==> Plain(f.1)
  }

  lemma {:induction false} EntriesAreLines(fields: seq<(Key, string)>)
    requires GoodFields(fields)
    ensures forall line :: line in Entries(fields) ==> IsLine(line)
    ensures |Entries(fields)| == |fields|
  {
    if fields != [] {
      assert fields[0] in fields;
      EntryIsLine(fields[0].0, fields[0].1);
      EntriesAreLines(fields[1..]);
    }
  }

  function SetAll(s: StatusSnapshot, fields: seq<(Key, string)>): StatusSnapshot
    decreases |fields|
  {
    if fields == [] then s else SetAll(Set(s, fields[0].0, fields[0].1), fields[1..])
  }

  lemma {:induction false} ApplyEntries(s: StatusSnapshot, fields: seq<(Key, string)>, last: seq<string>)
    requires GoodFields(fields)
    ensures ApplyAll(s, Entries(fields) + last) == ApplyAll(SetAll(s, fields), last)
    decreases |fields|
  {
    hide Apply, Set, ApplyAll, Entries, Entry, KeyName;
    EntriesStep(fields);
    if fields == [] {
      assert Entries(fields) + last == last;
    } else {
      var key, value := fields[0].0, fields[0].1;
      assert fields[0] in fields;
      ApplyEntry(s, key, value);
      assert Entries(fields) + last == [Entry(KeyName(key), value)] + (Entries(fields[1..]) + last);
      ApplyFirst(s, Entry(KeyName(key), value), Entries(fields[1..]) + last);
      ApplyEntries(Set(s, key, value), fields[1..], last);
    }
  }

  lemma EntriesStep(fields: seq<(Key, string)>)
    ensures Entries(fields) ==
      if fields == [] then [] else [Entry(KeyName(fields[0].0), fields[0].1)] + Entries(fields[1..])
  {
    hide Entry, KeyName;
  }

  lemma ApplyFirst(s: StatusSnapshot, line: string, rest: seq<string>)
    ensures ApplyAll(s, [line] + rest) == ApplyAll(Apply(s, line), rest)
  {
    hide Apply;
    assert ([line] + rest)[1..] == rest;
  }

  lemma SetAllStep(s: StatusSnapshot, fields: seq<(Key, string)>, i: nat)
    requires i < |fields|
    ensures SetAll(s, fields[i..]) == SetAll(Set(s, fields[i].0, fields[i].1), fields[i + 1..])
  {
    hide Set;
  }

  lemma NumbersReadBack(s: StatusSnapshot)
    ensures ParseI32(ShowInt(s.stateNum)) == s.stateNum && ParseU64(ShowInt(s.uptimeSecs)) == s.uptimeSecs
    ensures ParseU32(ShowInt(s.downRate)) == s.downRate && ParseU32(ShowInt(s.upRate)) == s.upRate
    ensures ParseU32(ShowInt(s.downSnr)) == s.downSnr && ParseU32(ShowInt(s.upSnr)) == s.upSnr
  {
    ParseShow(s.stateNum, -0x8000_0000, 0x7FFF_FFFF);
    ParseShow(s.uptimeSecs, 0, 0xFFFF_FFFF_FFFF_FFFF);
    ParseShow(s.downRate, 0, 0xFFFF_FFFF);
    ParseShow(s.upRate, 0, 0xFFFF_FFFF);
    ParseShow(s.downSnr, 0, 0xFFFF_FFFF);
    ParseShow(s.upSnr, 0, 0xFFFF_FFFF);
  }

  function FirstFour(s: StatusSnapshot): StatusSnapshot
  {
    Blank().(state := s.state, stateNum := s.stateNum, up := s.up, uptimeSecs := s.uptimeSecs)
  }

  function FirstEight(s: StatusSnapshot): StatusSnapshot
  {
    FirstFour(s).(modulation := s.modulation, annex := s.annex, xferMode := s.xferMode, downRate := s.downRate)
  }

  lemma SetsFour(s: StatusSnapshot)
    ensures SetAll(Blank(), Fields(s)) == SetAll(FirstFour(s), Fields(s)[4..])
  {
    hide SetAll, ParseInt, ShowInt;
    NumbersReadBack(s);
    assert Fields(s)[0..] == Fields(s);
    SetFour(Blank(), Fields(s), 0);
  }

  lemma SetsEight(s: StatusSnapshot)
    ensures SetAll(FirstFour(s), Fields(s)[4..]) == SetAll(FirstEight(s), Fields(s)[8..])
  {
    hide SetAll, ParseInt, ShowInt;
    NumbersReadBack(s);
    SetFour(FirstFour(s), Fields(s), 4);
  }

  /** Setting the twelve fields one after the other rebuilds the snapshot. */
  lemma SetFields(s: StatusSnapshot)
    ensures SetAll(Blank(), Fields(s)) == s
  {
    hide SetAll, ParseInt, ShowInt;
    NumbersReadBack(s);
    SetsFour(s);
    SetsEight(s);
    assert Fields(s)[12..] == [];
    SetFour(FirstEight(s), Fields(s), 8);
    SetAllDone(s);
  }

  lemma SetFour(s: StatusSnapshot, fields: seq<(Key, string)>, i: nat)
    requires i + 4 <= |fields|
    ensures
      SetAll(s, fields[i..]) ==
      SetAll(
        Set(Set(Set(Set(s, fields[i].0, fields[i].1), fields[i + 1].0, fields[i + 1].1),
                fields[i + 2].0, fields[i + 2].1), fields[i + 3].0, fields[i + 3].1), fields[i + 4..])
  {
    hide SetAll, Set;
    var a := Set(s, fields[i].0, fields[i].1);
    var b := Set(a, fields[i + 1].0, fields[i + 1].1);
    var c := Set(b, fields[i + 2].0, fields[i + 2].1);
    SetAllStep(s, fields, i);
    SetAllStep(a, fields, i + 1);
    SetAllStep(b, fields, i + 2);
    SetAllStep(c, fields, i + 3);
  }

  lemma SetAllDone(s: StatusSnapshot)
    ensures SetAll(s, []) == s
  {
  }

  lemma FieldsGood(s: StatusSnapshot)
    requires AllPlain(s)
    ensures GoodFields(Fields(s))
  {
    hide Plain, ShowInt, ShowBool;
    ShownPlain(s.stateNum, s.up);
    ShownPlain(s.uptimeSecs, s.up);
    ShownPlain(s.downRate, s.up);
    ShownPlain(s.upRate, s.up);
    ShownPlain(s.downSnr, s.up);
    ShownPlain(s.upSnr, s.up);
  }

  lemma ShownPlain(n: int, b: bool)
    ensures Plain(ShowInt(n)) && Plain(ShowBool(b))
  {
    hide ShowInt, ShowBool;
    ShownTrimmed(n, b);
    assert IsSpace('\n');
  }

  // ── only plain text can come back ────────────────────────────────────

  lemma {:induction false} LinesHaveNoFeed(s: string)
    ensures forall line :: line in Lines(s) ==> '\n' !in line
    decreases |s|
  {
    var i := LineEnd(s);
    if i < |s| {
      LinesHaveNoFeed(s[i + 1..]);
    }
  }

  lemma {:induction false} SplitOnceParts(line: string)
    ensures SplitOnce(line).Some? ==> forall c :: c in SplitOnce(line).value.1 ==> c in line
  {
    if |line| >= 2 && line[..2] != ": " {
      SplitOnceParts(line[1..]);
    }
  }

  lemma SetPlain(s: StatusSnapshot, key: Key, value: string)
    requires AllPlain(s) && Plain(value)
    ensures AllPlain(Set(s, key, value))
  {
    hide Plain;
  }

  lemma ApplyPlain(s: StatusSnapshot, line: string)
    requires AllPlain(s) && '\n' !in line
    ensures AllPlain(Apply(s, line))
  {
    hide AllPlain, Set, KeyOf;
    SplitOnceParts(line);
    match SplitOnce(line)
    case None =>
    case Some(kv) =>
      TrimTrims(kv.1);
      match KeyOf(Trim(kv.0))
      case None =>
      case Some(key) => SetPlain(s, key, Trim(kv.1));
  }

  lemma {:induction false} ApplyAllPlain(s: StatusSnapshot, lines: seq<string>)
    requires AllPlain(s) && forall line :: line in lines ==> '\n' !in line
    ensures AllPlain(ApplyAll(s, lines))
    decreases |lines|
  {
    hide AllPlain, Apply;
    if lines != [] {
      ApplyPlain(s, lines[0]);
      ApplyAllPlain(Apply(s, lines[0]), lines[1..]);
    }
  }

  lemma Ends(s: StatusSnapshot)
    ensures Parsed(ToLines(s)) == ApplyAll(Blank(), Lines(Unlines(Entries(Fields(s)))))
    ensures Fields(s) != [] && ApplyAll(s, []) == s && AllPlain(Blank())
    ensures ToLines(s) == Unlines(Entries(Fields(s)))
  {
    hide Lines, Unlines, Entries;
  }

  /** A snapshot comes back from its text exactly if its text fields are trimmed and have no line feed;
      colons, negative numbers and the largest counters are no obstacle. */
  lemma RoundTrip(s: StatusSnapshot)
    ensures Parsed(ToLines(s)) == s <==> AllPlain(s)
  {
    hide *;
    Ends(s);
    if AllPlain(s) {
      FieldsGood(s);
      EntriesAreLines(Fields(s));
      LinesOfUnlines(Entries(Fields(s)));
      ApplyEntries(Blank(), Fields(s), []);
      assert Entries(Fields(s)) + [] == Entries(Fields(s));
      SetFields(s);
    }
    LinesHaveNoFeed(ToLines(s));
    ApplyAllPlain(Blank(), Lines(ToLines(s)));
  }

  // ── what a text of another kind gives ────────────────────────────────

  /** Exactly the twelve names are known. */
  lemma NamesKnown(name: string, key: Key)
    ensures KeyOf(name) == Some(key) <==> name == KeyName(key)
  {
  }

  /** No text leaves all fields empty, off and zero. */
  lemma EmptyText()
    ensures Parsed("") == StatusSnapshot("", 0, false, 0, "", "", "", 0, 0, 0, 0, "")
  {
  }

  /** A line without a colon and a blank, or with a name that is none of the twelve, changes nothing. */
  lemma OtherLines(s: StatusSnapshot, line: string)
    requires match SplitOnce(line) case None => true case Some(kv) => forall key: Key :: Trim(kv.0) != KeyName(key)
    ensures Apply(s, line) == s
  {
    hide KeyOf, KeyName, Trim, SplitOnce;
    if SplitOnce(line).Some? {
      NoName(Trim(SplitOnce(line).value.0));
    }
  }

  lemma NoName(name: string)
    requires forall key: Key :: name != KeyName(key)
    ensures KeyOf(name) == None
  {
    hide KeyOf, KeyName;
    if KeyOf(name).Some? {
      NamesKnown(name, KeyOf(name).value);
    }
  }

  function OrZero(n: Option<int>): int { match n case None => 0 case Some(v) => v }

  /** A number that cannot be read, or does not fit its field, counts as zero; a switch is on for `true` alone. */
  lemma ValuesRead(s: StatusSnapshot, value: string)
    ensures Set(s, StateNum, value) == s.(stateNum := OrZero(ParseInt(value, -0x8000_0000, 0x7FFF_FFFF)))
    ensures Set(s, Uptime, value) == s.(uptimeSecs := OrZero(ParseInt(value, 0, 0xFFFF_FFFF_FFFF_FFFF)))
    ensures Set(s, DownRate, value) == s.(downRate := OrZero(ParseInt(value, 0, 0xFFFF_FFFF)))
    ensures Set(s, UpRate, value) == s.(upRate := OrZero(ParseInt(value, 0, 0xFFFF_FFFF)))
    ensures Set(s, DownSnr, value) == s.(downSnr := OrZero(ParseInt(value, 0, 0xFFFF_FFFF)))
    ensures Set(s, UpSnr, value) == s.(upSnr := OrZero(ParseInt(value, 0, 0xFFFF_FFFF)))
    ensures Set(s, Up, value).up <==> value == "true"
  {
    hide ParseInt;
  }

  /** A carriage return before the line feed does not belong to the line. */
  lemma ReturnDropped(line: string, rest: string)
    requires '\n' !in line
    ensures Lines(line + "\r\n" + rest) == [line] + Lines(rest)
  {
    var before := line + "\r";
    LineEndIs(before, rest);
    var s := before + "\n" + rest;
    assert s == line + "\r\n" + rest;
    assert s[..|before|] == before && s[|before| + 1..] == rest && before[..|line|] == line;
  }
}
