/** Building the configuration from the UCI store, the command line and the defaults. */
module Config {
  import opened Bytes
  import opened Options
  import opened Text
  import opened Line

  datatype AtmEncap = Llc | Vcmux

  datatype AtmLinkType = Eoa | Pppoa | Ipoa

  /** The QoS category is always UBR with no peak rate. */
  datatype AtmConfig = AtmConfig(vpi: byte, vci: u16, encap: AtmEncap, linkType: AtmLinkType)

  datatype DslConfig = DslConfig(
    modulation: Modulation, annex: Annex, profiles: set<Profile>, xferMode: XferMode,
    atm: Option<AtmConfig>, bitswap: bool, sra: bool, transportVlanBase: byte)

  datatype ConfigError =
    | BadLineMode(text: string) | BadAnnex(text: string) | BadTone(word: string) | BadXferMode(text: string)
    | BadEncaps(text: string) | BadPayload(text: string) | NoStore

  datatype Result<T> = Ok(value: T) | Err(error: ConfigError) {
    predicate IsFailure() { Err? }

    function PropagateFailure<U>(): Result<U>
      requires Err?
    {
      Err(error)
    }

    function Extract(): T
      requires Ok?
    {
      value
    }
  }

  datatype CliOverrides = CliOverrides(
    annex: Option<string>, lineMode: Option<string>, tone: Option<string>, xferMode: Option<string>,
    vpi: Option<string>, vci: Option<string>, encaps: Option<string>, payload: Option<string>,
    bitswap: Option<bool>, sra: Option<bool>, transportVlan: Option<byte>)

  /** The options of the store that are read. */
  datatype UciKey =
    | LineMode | Annex | Tone | XferMode | Vpi | Vci | Encaps | Payload | Bitswap | Sra | TransportVlan

  type Uci = map<UciKey, string>

  // ── parsers ──────────────────────────────────────────────────────────

  function ParseModulation(lineMode: string): Result<Modulation>
  {
    if lineMode == "vdsl" || lineMode == "" then Ok(Vdsl2)
    else if lineMode == "adsl" then Ok(Adsl2Plus)
    else Err(BadLineMode(lineMode))
  }

  function ParseAnnex(s: string): Result<Line.Annex>
  {
    match Trim(s)
    case "a" => Ok(A)
    case "A" => Ok(A)
    case "b" => Ok(B)
    case "B" => Ok(B)
    case "i" => Ok(I)
    case "I" => Ok(I)
    case "j" => Ok(J)
    case "J" => Ok(J)
    case "m" => Ok(M)
    case "M" => Ok(M)
    case other => Err(BadAnnex(other))
  }

  function ParseXferMode(s: string): Result<Line.XferMode>
  {
    match Trim(s)
    case "ptm" => Ok(Ptm)
    case "" => Ok(Ptm)
    case "atm" => Ok(Atm)
    case other => Err(BadXferMode(other))
  }

  function ParseEncaps(s: string): Result<AtmEncap>
  {
    match Trim(s)
    case "llc" => Ok(Llc)
    case "vcmux" => Ok(Vcmux)
    case other => Err(BadEncaps(other))
  }

  function ParsePayload(s: string): Result<AtmLinkType>
  {
    match Trim(s)
    case "bridged" => Ok(Eoa)
    case "routed" => Ok(Ipoa)
    case "pppoa" => Ok(Pppoa)
    case other => Err(BadPayload(other))
  }

  /** Which texts name which annex, blanks around them aside: the letter in either case. */
  lemma AnnexTexts(s: string)
    ensures ParseAnnex(s) == Ok(A) <==> Trim(s) == "a" || Trim(s) == "A"
    ensures ParseAnnex(s) == Ok(B) <==> Trim(s) == "b" || Trim(s) == "B"
    ensures ParseAnnex(s) == Ok(I) <==> Trim(s) == "i" || Trim(s) == "I"
    ensures ParseAnnex(s) == Ok(J) <==> Trim(s) == "j" || Trim(s) == "J"
    ensures ParseAnnex(s) == Ok(M) <==> Trim(s) == "m" || Trim(s) == "M"
    ensures ParseAnnex(s).Err? ==> ParseAnnex(s).error == BadAnnex(Trim(s))
  {
    hide Trim;
  }

  /** Which texts name which of the other parameters: no text at all means PTM or VDSL2; the line mode alone is not trimmed. */
  lemma OtherTexts(s: string)
    ensures ParseXferMode(s) == Ok(Ptm) <==> Trim(s) == "ptm" || Trim(s) == ""
    ensures ParseXferMode(s) == Ok(Atm) <==> Trim(s) == "atm"
    ensures ParseXferMode(s).Err? ==> ParseXferMode(s).error == BadXferMode(Trim(s))
    ensures ParseModulation(s) == Ok(Vdsl2) <==> s == "vdsl" || s == ""
    ensures ParseModulation(s) == Ok(Adsl2Plus) <==> s == "adsl"
    ensures ParseModulation(s).Err? ==> ParseModulation(s).error == BadLineMode(s)
    ensures ParseEncaps(s) == Ok(Llc) <==> Trim(s) == "llc"
    ensures ParseEncaps(s) == Ok(Vcmux) <==> Trim(s) == "vcmux"
    ensures ParseEncaps(s).Err? ==> ParseEncaps(s).error == BadEncaps(Trim(s))
    ensures ParsePayload(s) == Ok(Eoa) <==> Trim(s) == "bridged"
    ensures ParsePayload(s) == Ok(Ipoa) <==> Trim(s) == "routed"
    ensures ParsePayload(s) == Ok(Pppoa) <==> Trim(s) == "pppoa"
    ensures ParsePayload(s).Err? ==> ParsePayload(s).error == BadPayload(Trim(s))
  {
    hide Trim;
  }

  // ── the tone group ───────────────────────────────────────────────────

  function ProfileName(p: Profile): string
  {
    match p
    case EightA => "8a"
    case EightB => "8b"
    case EightC => "8c"
    case EightD => "8d"
    case TwelveA => "12a"
    case TwelveB => "12b"
    case SeventeenA => "17a"
    case ThirtyA => "30a"
    case ThirtyFiveB => "35b"
  }

  function ProfileOf(word: string): Option<Profile>
  {
    match word
    case "8a" => Some(EightA)
    case "8b" => Some(EightB)
    case "8c" => Some(EightC)
    case "8d" => Some(EightD)
    case "12a" => Some(TwelveA)
    case "12b" => Some(TwelveB)
    case "17a" => Some(SeventeenA)
    case "30a" => Some(ThirtyA)
    case "35b" => Some(ThirtyFiveB)
    case _ => None
  }

  function AllProfiles(): set<Profile>
  {
    {EightA, EightB, EightC, EightD, TwelveA, TwelveB, SeventeenA, ThirtyA, ThirtyFiveB}
  }

  /** The profiles named by the words, or the first word that names none. */
  function ProfilesOf(words: seq<string>): Result<set<Profile>>
  {
    if words == [] then Ok({})
    else match ProfileOf(words[0])
      case None => Err(BadTone(words[0]))
      case Some(p) =>
        var ps :- ProfilesOf(words[1..]);
        Ok({p} + ps)
  }

  function ToneProfiles(s: string): Result<set<Profile>>
  {
    var t := Trim(s);
    if t == "" || t == "a" then Ok({})
    else if t == "av" then Ok(AllProfiles())
    else ProfilesOf(Words(t))
  }

  method ParseTone(s: string) returns (r: Result<set<Profile>>)
    ensures r == ToneProfiles(s)
  {
    hide Words, Trim;
    var t := Trim(s);
    if t == "" || t == "a" {
      return Ok({});
    }
    if t == "av" {
      assert AllProfiles() == {EightA} + {EightB} + {EightC} + {EightD} + {TwelveA} + {TwelveB}
                              + {SeventeenA} + {ThirtyA} + {ThirtyFiveB};
      return Ok({EightA} + {EightB} + {EightC} + {EightD} + {TwelveA} + {TwelveB} + {SeventeenA} + {ThirtyA} + {ThirtyFiveB});
    }
    var profiles: set<Profile> := {};
    var words := Words(t);
    var i := 0;
    assert forall ps :: profiles + ps == ps;
    while i < |words|
      invariant 0 <= i <= |words|
      invariant
        ProfilesOf(words) ==
        match ProfilesOf(words[i..]) case Err(e) => Err(e) case Ok(ps) => Ok(profiles + ps)
    {
      match ProfileOf(words[i])
      case None =>
        return Err(BadTone(words[i]));
      case Some(p) =>
        assert forall ps :: profiles + {p} + ps == profiles + ({p} + ps);
        profiles := profiles + {p};
      i := i + 1;
    }
    r := Ok(profiles);
  }

  function Names(ps: seq<Profile>): seq<string>
  {
    if ps == [] then [] else [ProfileName(ps[0])] + Names(ps[1..])
  }

  lemma NameIsWord(p: Profile)
    ensures IsWord(ProfileName(p)) && ProfileOf(ProfileName(p)) == Some(p)
    ensures |ProfileName(p)| >= 2 && ProfileName(p) != "av"
  {
  }

  lemma {:induction false} ProfilesOfNames(ps: seq<Profile>)
    ensures ProfilesOf(Names(ps)) == Ok(set p | p in ps)
    ensures forall w :: w in Names(ps) ==> IsWord(w)
  {
    hide ProfileOf, ProfileName;
    if ps == [] {
      assert (set p | p in ps) == {};
    } else {
      NameIsWord(ps[0]);
      ProfilesOfNames(ps[1..]);
      assert (set p | p in ps) == {ps[0]} + (set p | p in ps[1..]);
    }
  }

  lemma {:induction false} JoinEnds(words: seq<string>)
    requires words != [] && forall w :: w in words ==> IsWord(w) && |w| >= 2
    ensures |Join(words)| >= 2 && Trimmed(Join(words))
    ensures |words| > 1 ==> |Join(words)| >= 5
    ensures !IsSpace(Join(words)[0]) && !IsSpace(Join(words)[|Join(words)| - 1])
  {
    var w := words[0];
    assert w in words && w[0] in w && w[|w| - 1] in w;
    if |words| > 1 {
      JoinEnds(words[1..]);
    }
  }

  lemma NamesLong(ps: seq<Profile>)
    ensures forall w :: w in Names(ps) ==> |w| >= 2 && w != "av"
    ensures |Names(ps)| == |ps|
  {
    hide ProfileName, IsWord, ProfileOf;
    if ps != [] {
      NameIsWord(ps[0]);
      NamesLong(ps[1..]);
    }
  }

  /** A list of profile names separated by blanks, in any order and with repetitions, chooses exactly those profiles. */
  lemma ToneOfNames(ps: seq<Profile>)
    ensures ToneProfiles(Join(Names(ps))) == Ok(set p | p in ps)
  {
    hide Words, Trim, ProfilesOf, ProfileOf, IsWord;
    var t := Join(Names(ps));
    ProfilesOfNames(ps);
    NamesLong(ps);
    TrimTrims(t);
    if ps == [] {
      assert (set p | p in ps) == {};
    } else {
      JoinEnds(Names(ps));
      WordsOfJoin(Names(ps));
      assert t != "av" by { if |ps| == 1 { assert Names(ps)[0] in Names(ps); } }
    }
  }

  // ── putting it together ──────────────────────────────────────────────

  function Get(uci: Uci, key: UciKey): string { if key in uci then uci[key] else "" }

  /** What the user chose: the command line before the store, an empty text being no choice. */
  function Chosen(override: Option<string>, uci: Uci, key: UciKey): Option<string>
  {
    if override.Some? && override.value != "" then override
    else if Get(uci, key) != "" then Some(Get(uci, key))
    else None
  }

  function Or<T>(choice: Option<T>, default: T): T { match choice case Some(v) => v case None => default }

  /** The line mode: chosen, else inferred from the chosen transfer mode, else VDSL. */
  function LineModeText(uci: Uci, ov: CliOverrides): string
  {
    match Chosen(ov.lineMode, uci, LineMode)
    case Some(l) => l
    case None =>
      match Chosen(ov.xferMode, uci, XferMode)
      case Some(x) => if x == "atm" then "adsl" else "vdsl"
      case None => "vdsl"
  }

  function DefaultXfer(lineMode: string): string { if lineMode == "adsl" then "atm" else "ptm" }

  function DefaultTone(lineMode: string): string { if lineMode == "adsl" then "" else "av" }

  function BuildAtm(uci: Uci, ov: CliOverrides): Result<AtmConfig>
  {
    var vpi: int := Or(ParseInt(Or(Chosen(ov.vpi, uci, Vpi), "8"), 0, 255), 8);
    var vci: int := Or(ParseInt(Or(Chosen(ov.vci, uci, Vci), "35"), 0, 65535), 35);
    var encap :- ParseEncaps(Or(Chosen(ov.encaps, uci, Encaps), "llc"));
    var linkType :- ParsePayload(Or(Chosen(ov.payload, uci, Payload), "bridged"));
    Ok(AtmConfig(vpi, vci, encap, linkType))
  }

  /** A switch in the store is off only if it is a number equal to zero. */
  predicate Switch(text: string) { ParseInt(text, 0, 0xFFFF_FFFF) != Some(0) }

  function Build(uci: Uci, ov: CliOverrides): Result<DslConfig>
  {
    var lineMode := LineModeText(uci, ov);
    var xferText := Or(Chosen(ov.xferMode, uci, XferMode), DefaultXfer(lineMode));
    var modulation :- ParseModulation(lineMode);
    var annex :- ParseAnnex(Or(Chosen(ov.annex, uci, Annex), "b"));
    var tone :- ToneProfiles(Or(Chosen(ov.tone, uci, Tone), DefaultTone(lineMode)));
    var xferMode :- ParseXferMode(xferText);
    var profiles := if CarriesProfiles(modulation) then tone else {};
    var base: int :=
      Or(ov.transportVlan, match ParseInt(Get(uci, TransportVlan), 0, 255) case Some(n) => n case None => 0);
    var config := (atm: Option<AtmConfig>) =>
      DslConfig(modulation, annex, profiles, xferMode, atm,
                Or(ov.bitswap, Switch(Get(uci, Bitswap))), Or(ov.sra, Switch(Get(uci, Sra))), Min(base, 7));
    if xferMode == Atm then
      var atm :- BuildAtm(uci, ov);
      Ok(config(Some(atm)))
    else Ok(config(None))
  }

  function Load(store: Option<Uci>, ov: CliOverrides): Result<DslConfig>
  {
    match store case None => Err(NoStore) case Some(uci) => Build(uci, ov)
  }

  function VlanId(c: DslConfig): int { c.transportVlanBase + 2000 }

  function Default(): DslConfig
  {
    DslConfig(Vdsl2, B, AllProfiles(), Ptm, None, true, true, 0)
  }

  // ── every configuration can be written down ──────────────────────────

  /** What a user can ask for: one of two modulations, a single-letter annex, and ATM parameters exactly for ATM. */
  predicate Expressible(c: DslConfig)
  {
    && (c.modulation == Vdsl2 || (c.modulation == Adsl2Plus && c.profiles == {}))
    && (c.annex == A || c.annex == B || c.annex == I || c.annex == J || c.annex == M)
    && (c.xferMode == Atm <==> c.atm.Some?) && c.transportVlanBase <= 7
  }

  function LineModeName(m: Modulation): string { if m == Vdsl2 then "vdsl" else "adsl" }

  function AnnexName(a: Line.Annex): string
  {
    match a
    case A => "a"
    case I => "i"
    case J => "j"
    case M => "m"
    case _ => "b"
  }

  function XferName(x: Line.XferMode): string { if x == Atm then "atm" else "ptm" }

  function EncapsName(e: AtmEncap): string { if e == Llc then "llc" else "vcmux" }

  function PayloadName(t: AtmLinkType): string
  {
    match t case Eoa => "bridged" case Ipoa => "routed" case Pppoa => "pppoa"
  }

  /** The chosen profiles from `place` on, in order. */
  function Listed(ps: set<Profile>, place: nat): seq<Profile>
    requires place <= 9
    decreases 9 - place
  {
    if place == 9 then []
    else (if ProfileAt(place) in ps then [ProfileAt(place)] else []) + Listed(ps, place + 1)
  }

  function ToneName(ps: set<Profile>): string { if ps == {} then "a" else Join(Names(Listed(ps, 0))) }

  lemma {:induction false} ListedAll(ps: set<Profile>, place: nat)
    requires place <= 9
    ensures forall p :: p in Listed(ps, place) <==> p in ps && Place(p) >= place
    decreases 9 - place
  {
    hide Place, ProfileAt;
    if place == 9 {
      forall p: Profile
        ensures Place(p) < 9
      {
        PlaceProfile(p);
      }
    } else {
      ListedAll(ps, place + 1);
      PlaceOfProfileAt(place);
      forall p: Profile
        ensures Place(p) == place <==> p == ProfileAt(place)
      {
        PlaceProfile(p);
      }
    }
  }

  lemma PlaceOfProfileAt(place: nat)
    requires place < 9
    ensures Place(ProfileAt(place)) == place
  {
  }

  lemma ToneNamed(ps: set<Profile>)
    ensures ToneName(ps) != "" && ToneProfiles(ToneName(ps)) == Ok(ps)
  {
    hide Listed, Names, Join, Words, ProfilesOf, Trim, Place;
    TrimTrims("a");
    if ps != {} {
      var list := Listed(ps, 0);
      ListedAll(ps, 0);
      ToneOfNames(list);
      assert (set p | p in list) == ps;
      var p :| p in ps;
      assert list != [];
      NamesLong(list);
      ProfilesOfNames(list);
      JoinEnds(Names(list));
    }
  }

  /** The user has written down this configuration, on the command line or in the store. */
  predicate Written(uci: Uci, ov: CliOverrides, c: DslConfig)
  {
    && Chosen(ov.lineMode, uci, LineMode) == Some(LineModeName(c.modulation))
    && Chosen(ov.annex, uci, Annex) == Some(AnnexName(c.annex))
    && Chosen(ov.tone, uci, Tone) == Some(ToneName(c.profiles))
    && Chosen(ov.xferMode, uci, XferMode) == Some(XferName(c.xferMode))
    && (c.atm.Some? ==>
          && Chosen(ov.vpi, uci, Vpi) == Some(ShowInt(c.atm.value.vpi))
          && Chosen(ov.vci, uci, Vci) == Some(ShowInt(c.atm.value.vci))
          && Chosen(ov.encaps, uci, Encaps) == Some(EncapsName(c.atm.value.encap))
          && Chosen(ov.payload, uci, Payload) == Some(PayloadName(c.atm.value.linkType)))
    && (ov.bitswap == Some(c.bitswap) || (ov.bitswap == None && Get(uci, Bitswap) == if c.bitswap then "1" else "0"))
    && (ov.sra == Some(c.sra) || (ov.sra == None && Get(uci, Sra) == if c.sra then "1" else "0"))
    && (ov.transportVlan == Some(c.transportVlanBase) ||
        (ov.transportVlan == None && Get(uci, TransportVlan) == ShowInt(c.transportVlanBase)))
  }

  lemma NamesParse(m: Modulation, a: Line.Annex, x: Line.XferMode)
    requires m == Vdsl2 || m == Adsl2Plus
    requires a == A || a == B || a == I || a == J || a == M
    ensures ParseModulation(LineModeName(m)) == Ok(m) && ParseAnnex(AnnexName(a)) == Ok(a)
    ensures ParseXferMode(XferName(x)) == Ok(x)
  {
    hide Trim;
    TrimTrims(AnnexName(a));
    TrimTrims(XferName(x));
  }

  lemma AtmNamesParse(e: AtmEncap, t: AtmLinkType)
    ensures ParseEncaps(EncapsName(e)) == Ok(e) && ParsePayload(PayloadName(t)) == Ok(t)
  {
    hide Trim;
    TrimTrims(EncapsName(e));
    TrimTrims(PayloadName(t));
  }

  lemma SwitchReads(b: bool)
    ensures Switch(if b then "1" else "0") == b
  {
    assert "1"[..0] == "" && "0"[..0] == "";
  }

  lemma BuildReads(uci: Uci, ov: CliOverrides, c: DslConfig)
    requires Expressible(c) && Written(uci, ov, c)
    ensures Build(uci, ov) == Ok(c)
  {
    hide ParseAnnex, ToneProfiles, ParseModulation, ParseXferMode, BuildAtm, Chosen, ToneName, Switch, ParseInt,
      ShowInt, AnnexName, LineModeName, XferName, Get;
    ToneNamed(c.profiles);
    NamesParse(c.modulation, c.annex, c.xferMode);
    SwitchReads(c.bitswap);
    SwitchReads(c.sra);
    ParseShow(c.transportVlanBase, 0, 255);
    if c.atm.Some? {
      AtmReads(uci, ov, c);
    }
  }

  lemma AtmReads(uci: Uci, ov: CliOverrides, c: DslConfig)
    requires Expressible(c) && Written(uci, ov, c) && c.atm.Some?
    ensures BuildAtm(uci, ov) == Ok(c.atm.value)
  {
    hide ParseEncaps, ParsePayload, Chosen, EncapsName, PayloadName, ParseInt, ShowInt, ToneName, Get;
    AtmNamesParse(c.atm.value.encap, c.atm.value.linkType);
    ParseShow(c.atm.value.vpi, 0, 255);
    ParseShow(c.atm.value.vci, 0, 65535);
  }

  /** The configuration on the command line. */
  function OnCommandLine(c: DslConfig): CliOverrides
  {
    var atm := Or(c.atm, AtmConfig(0, 0, Llc, Eoa));
    CliOverrides(
      Some(AnnexName(c.annex)), Some(LineModeName(c.modulation)), Some(ToneName(c.profiles)), Some(XferName(c.xferMode)),
      Some(ShowInt(atm.vpi)), Some(ShowInt(atm.vci)), Some(EncapsName(atm.encap)), Some(PayloadName(atm.linkType)),
      Some(c.bitswap), Some(c.sra), Some(c.transportVlanBase))
  }

  /** The configuration in the store. */
  function InStore(c: DslConfig): Uci
  {
    var atm := Or(c.atm, AtmConfig(0, 0, Llc, Eoa));
    map[
      LineMode := LineModeName(c.modulation), Annex := AnnexName(c.annex), Tone := ToneName(c.profiles),
      XferMode := XferName(c.xferMode), Vpi := ShowInt(atm.vpi), Vci := ShowInt(atm.vci),
      Encaps := EncapsName(atm.encap), Payload := PayloadName(atm.linkType),
      Bitswap := if c.bitswap then "1" else "0", Sra := if c.sra then "1" else "0",
      TransportVlan := ShowInt(c.transportVlanBase)]
  }

  lemma Shown(n: int)
    ensures ShowInt(n) != ""
  {
  }

  lemma WrittenOnCommandLine(uci: Uci, c: DslConfig)
    ensures Written(uci, OnCommandLine(c), c)
  {
    hide ShowInt, ToneName, LineModeName, AnnexName, XferName, EncapsName, PayloadName, Get;
    var atm := Or(c.atm, AtmConfig(0, 0, Llc, Eoa));
    Shown(atm.vpi);
    Shown(atm.vci);
    ToneNamed(c.profiles);
    NamesShown(c.modulation, c.annex, c.xferMode, atm.encap, atm.linkType);
  }

  lemma WrittenInStore(c: DslConfig)
    ensures Written(InStore(c), NoOverrides(), c)
  {
    hide ShowInt, ToneName, LineModeName, AnnexName, XferName, EncapsName, PayloadName;
    var atm := Or(c.atm, AtmConfig(0, 0, Llc, Eoa));
    Shown(atm.vpi);
    Shown(atm.vci);
    ToneNamed(c.profiles);
    NamesShown(c.modulation, c.annex, c.xferMode, atm.encap, atm.linkType);
  }

  lemma NamesShown(m: Modulation, a: Line.Annex, x: Line.XferMode, e: AtmEncap, t: AtmLinkType)
    ensures LineModeName(m) != "" && AnnexName(a) != "" && XferName(x) != "" && EncapsName(e) != "" && PayloadName(t) != ""
  {
  }

  /** Every expressible configuration comes back from its own description: on the command line, whatever the
      store holds, or in the store. */
  lemma BuildRoundTrip(uci: Uci, c: DslConfig)
    requires Expressible(c)
    ensures Build(uci, OnCommandLine(c)) == Ok(c)
    ensures Build(InStore(c), NoOverrides()) == Ok(c)
  {
    hide Build, Written, OnCommandLine, InStore, Expressible;
    WrittenOnCommandLine(uci, c);
    WrittenInStore(c);
    BuildReads(uci, OnCommandLine(c), c);
    BuildReads(InStore(c), NoOverrides(), c);
  }

  /** And nothing else can be built. */
  lemma BuiltIsExpressible(uci: Uci, ov: CliOverrides)
    requires Build(uci, ov).Ok?
    ensures Expressible(Build(uci, ov).value)
  {
    hide ParseAnnex, ToneProfiles, ParseXferMode, BuildAtm, Switch, ParseInt, Chosen, LineModeText;
    ParsedAnnex(Or(Chosen(ov.annex, uci, Annex), "b"));
  }

  // ── what the daemon starts with ──────────────────────────────────────

  /** The configuration at start: the default one if the store cannot be used. */
  function AtStart(uci: Uci, ov: CliOverrides): DslConfig
  {
    match Build(uci, ov) case Ok(c) => c case Err(_) => Default()
  }

  predicate LineFine(c: DslConfig) { ValidateLineConfig(c.modulation, c.annex, c.profiles) == Fine }

  predicate XferFine(c: DslConfig) { ValidateXferMode(c.modulation, c.xferMode) == Fine }

  /** The daemon goes on to open the board. */
  predicate Starts(uci: Uci, ov: CliOverrides)
  {
    LineFine(AtStart(uci, ov)) && XferFine(AtStart(uci, ov))
  }

  /** The chosen transfer mode fits the line mode. With no line mode chosen, a blank around `atm` spoils the inference. */
  predicate TransferAgrees(uci: Uci, ov: CliOverrides)
  {
    match Chosen(ov.xferMode, uci, XferMode)
    case None => true
    case Some(x) =>
      match Chosen(ov.lineMode, uci, LineMode)
      case Some(l) => l == "adsl" <==> Trim(x) == "atm"
      case None => x == "atm" || Trim(x) != "atm"
  }

  lemma ParsedAnnex(s: string)
    requires ParseAnnex(s).Ok?
    ensures ParseAnnex(s).value == A || ParseAnnex(s).value == B || ParseAnnex(s).value == I
         || ParseAnnex(s).value == J || ParseAnnex(s).value == M
  {
    hide Trim;
  }

  lemma AnnexKnown(m: Modulation, a: Line.Annex)
    requires m == Vdsl2 || m == Adsl2Plus
    requires a == A || a == B || a == I || a == J || a == M
    ensures forall c :: c in AnnexLetters(a) ==> c in ValidAnnexes(m)
  {
  }

  /** Whatever is in the store and on the command line, a configuration that is built passes the line check. */
  lemma BuiltIsConsistent(uci: Uci, ov: CliOverrides)
    requires Build(uci, ov).Ok?
    ensures LineFine(Build(uci, ov).value)
    ensures 2000 <= VlanId(Build(uci, ov).value) <= 2007
    ensures Build(uci, ov).value.atm.Some? <==> Build(uci, ov).value.xferMode == Atm
  {
    hide ParseAnnex, ToneProfiles, ParseXferMode, BuildAtm, ValidateLineConfig, ValidAnnexes, AnnexLetters, Switch,
      ParseInt;
    var c := Build(uci, ov).value;
    ParsedAnnex(Or(Chosen(ov.annex, uci, Annex), "b"));
    AnnexKnown(c.modulation, c.annex);
    LineConfigFine(c.modulation, c.annex, c.profiles);
  }

  lemma TrimConstants()
    ensures Trim("atm") == "atm" && Trim("ptm") == "ptm" && Trim("") == ""
  {
    TrimTrims("atm");
    TrimTrims("ptm");
    TrimTrims("");
  }

  /** The transfer check of a built configuration passes exactly if the choices agree. */
  lemma TransferCheck(uci: Uci, ov: CliOverrides)
    requires Build(uci, ov).Ok?
    ensures XferFine(Build(uci, ov).value) <==> TransferAgrees(uci, ov)
  {
    hide ParseAnnex, ToneProfiles, BuildAtm, Switch, ParseInt, Trim;
    TrimConstants();
  }

  /** The daemon refuses to start exactly if a configuration can be built but its transfer mode does not fit;
      a store that cannot be used at all never stops it. */
  lemma StartsIff(uci: Uci, ov: CliOverrides)
    ensures Starts(uci, ov) <==> Build(uci, ov).Err? || TransferAgrees(uci, ov)
  {
    hide Build, TransferAgrees;
    if Build(uci, ov).Ok? {
      BuiltIsConsistent(uci, ov);
      TransferCheck(uci, ov);
    } else {
      DefaultIsFine();
    }
  }

  lemma DefaultIsFine()
    ensures LineFine(Default()) && XferFine(Default())
  {
    hide ValidateLineConfig;
    LineConfigFine(Vdsl2, B, AllProfiles());
  }

  function NoOverrides(): CliOverrides
  {
    CliOverrides(None, None, None, None, None, None, None, None, None, None, None)
  }

  /** A store in which only the transfer mode is set. */
  function OnlyXfer(x: string): Uci { map[XferMode := x] }

  lemma OnlyXferHas(x: string)
    ensures forall key :: Get(OnlyXfer(x), key) == if key == XferMode then x else ""
  {
  }

  lemma OnlyXferBuilds(x: string)
    requires ParseXferMode(x).Ok? && x != ""
    ensures Build(OnlyXfer(x), NoOverrides()).Ok?
    ensures Chosen(None, OnlyXfer(x), XferMode) == Some(x) && Chosen(None, OnlyXfer(x), LineMode) == None
  {
    hide ParseAnnex, ToneProfiles, ParseXferMode, ParseEncaps, ParsePayload, Switch, ParseInt, OnlyXfer, Get;
    Defaults();
    OnlyXferHas(x);
    assert BuildAtm(OnlyXfer(x), NoOverrides()).Ok?;
    hide BuildAtm;
  }

  /** The inference of the line mode compares before trimming: a trailing blank makes the daemon refuse ATM. */
  lemma InferenceMissesBlanks()
    ensures Build(OnlyXfer("atm "), NoOverrides()).Ok?
    ensures !Starts(OnlyXfer("atm "), NoOverrides())
    ensures Starts(OnlyXfer("atm"), NoOverrides())
  {
    hide Starts, Build, OnlyXfer;
    assert Trim("atm ") == "atm" by {
      assert TrimStart("atm ") == "atm ";
      assert "atm "[..3] == "atm";
    }
    TrimConstants();
    hide Trim;
    OnlyXferBuilds("atm ");
    OnlyXferBuilds("atm");
    StartsIff(OnlyXfer("atm "), NoOverrides());
    StartsIff(OnlyXfer("atm"), NoOverrides());
  }

  lemma Defaults()
    ensures ParseAnnex("b").Ok? && ToneProfiles("av").Ok? && ToneProfiles("").Ok?
    ensures ParseEncaps("llc").Ok? && ParsePayload("bridged").Ok?
  {
    TrimTrims("b");
    TrimTrims("av");
    TrimTrims("");
    TrimTrims("llc");
    TrimTrims("bridged");
  }

  /** With nothing chosen anywhere a configuration is built, and it is the one the daemon falls back to. */
  lemma NothingChosen(uci: Uci)
    requires forall key :: Get(uci, key) == ""
    ensures Build(uci, NoOverrides()) == Ok(Default())
    ensures Default() == DslConfig(Vdsl2, B, AllProfiles(), Ptm, None, true, true, 0)
  {
    hide ParseAnnex, ToneProfiles, ParseXferMode, Get, BuildAtm;
    DefaultTexts();
    NumbersRead();
  }

  /** With ADSL chosen and nothing else: annex B, no profiles, ATM on 8/35 with LLC, bridged. */
  lemma OnlyAdsl(uci: Uci)
    requires Get(uci, LineMode) == "adsl" && forall key :: key != LineMode ==> Get(uci, key) == ""
    ensures
      Build(uci, NoOverrides()) ==
      Ok(DslConfig(Adsl2Plus, B, {}, Atm, Some(AtmConfig(8, 35, Llc, Eoa)), true, true, 0))
  {
    hide ParseAnnex, ToneProfiles, ParseXferMode, Get, BuildAtm, ParseInt;
    DefaultTexts();
    NumbersRead();
    DefaultAtm(uci);
  }

  lemma DefaultAtm(uci: Uci)
    requires forall key :: key != LineMode ==> Get(uci, key) == ""
    ensures BuildAtm(uci, NoOverrides()) == Ok(AtmConfig(8, 35, Llc, Eoa))
  {
    hide Get, ParseEncaps, ParsePayload, ParseInt;
    DefaultTexts();
    NumbersRead();
  }

  lemma NumbersRead()
    ensures ParseInt("8", 0, 255) == Some(8) && ParseInt("35", 0, 65535) == Some(35)
    ensures ParseInt("", 0, 255) == None && ParseInt("", 0, 0xFFFF_FFFF) == None
  {
    assert "8"[..0] == "" && "35"[..1] == "3" && "3"[..0] == "";
  }

  lemma DefaultTexts()
    ensures ParseAnnex("b") == Ok(B) && ToneProfiles("av") == Ok(AllProfiles()) && ToneProfiles("") == Ok({})
    ensures ParseXferMode("ptm") == Ok(Ptm) && ParseXferMode("atm") == Ok(Atm)
    ensures ParseEncaps("llc") == Ok(Llc) && ParsePayload("bridged") == Ok(Eoa)
  {
    hide Trim;
    TrimTrims("b");
    TrimTrims("av");
    TrimTrims("ptm");
    TrimTrims("atm");
    TrimTrims("");
    TrimTrims("llc");
    TrimTrims("bridged");
  }

  /** Numbers that cannot be read or do not fit count as 8, 35 and 0, and a VLAN base above 7 counts as 7. */
  lemma NumbersFallBack(uci: Uci, ov: CliOverrides)
    requires Build(uci, ov).Ok?
    ensures
      var c := Build(uci, ov).value;
      var base := if ov.transportVlan.Some? then ov.transportVlan else ParseInt(Get(uci, TransportVlan), 0, 255);
      && c.transportVlanBase == (if base == None then 0 else if base.value > 7 then 7 else base.value)
      && (c.atm.Some? && Chosen(ov.vpi, uci, Vpi).Some? ==>
            var vpi := ParseInt(Chosen(ov.vpi, uci, Vpi).value, 0, 255);
            c.atm.value.vpi == if vpi == None then 8 else vpi.value)
      && (c.atm.Some? && Chosen(ov.vci, uci, Vci).Some? ==>
            var vci := ParseInt(Chosen(ov.vci, uci, Vci).value, 0, 65535);
            c.atm.value.vci == if vci == None then 35 else vci.value)
  {
    hide ParseAnnex, ToneProfiles, ParseXferMode, ParseModulation, ParseEncaps, ParsePayload, ParseInt, Chosen, Get, Switch,
      LineModeText, DefaultXfer, DefaultTone;
  }

  /** A switch of the store is off exactly for the texts that are read as zero; any other number, and any text that is no
      number, leaves it on. */
  lemma SwitchNumbers(n: nat)
    requires n <= 0xFFFF_FFFF
    ensures Switch(ShowInt(n)) <==> n != 0
  {
    hide ParseInt, ShowInt;
    ParseShow(n, 0, 0xFFFF_FFFF);
  }

  // ── priority ─────────────────────────────────────────────────────────

  predicate Given(o: Option<string>) { o.Some? && o.value != "" }

  /** The command line decides this option alone. */
  predicate Overridden(ov: CliOverrides, key: UciKey)
  {
    match key
    case LineMode => Given(ov.lineMode)
    case Annex => Given(ov.annex)
    case Tone => Given(ov.tone)
    case XferMode => Given(ov.xferMode)
    case Vpi => Given(ov.vpi)
    case Vci => Given(ov.vci)
    case Encaps => Given(ov.encaps)
    case Payload => Given(ov.payload)
    case Bitswap => ov.bitswap.Some?
    case Sra => ov.sra.Some?
    case TransportVlan => ov.transportVlan.Some?
  }

  /** The store counts only where the command line is silent, and an empty option counts as an absent one. */
  lemma OverridesWin(uci: Uci, uci': Uci, ov: CliOverrides)
    requires forall key :: !Overridden(ov, key) ==> Get(uci, key) == Get(uci', key)
    ensures Build(uci, ov) == Build(uci', ov)
  {
    hide Get, ParseAnnex, ToneProfiles, ParseXferMode, ParseModulation, BuildAtm, LineModeText, Chosen, Switch,
      ParseInt;
    assert Overridden(ov, Bitswap) == ov.bitswap.Some? && Overridden(ov, Sra) == ov.sra.Some?;
    assert Overridden(ov, TransportVlan) == ov.transportVlan.Some?;
    SameChoices(uci, uci', ov);
    SameInferences(uci, uci', ov);
  }

  lemma SameInferences(uci: Uci, uci': Uci, ov: CliOverrides)
    requires forall key :: !Overridden(ov, key) ==> Get(uci, key) == Get(uci', key)
    ensures LineModeText(uci, ov) == LineModeText(uci', ov)
    ensures BuildAtm(uci, ov) == BuildAtm(uci', ov)
  {
    hide Chosen, ParseEncaps, ParsePayload, ParseInt, Overridden, Get;
    SameChoices(uci, uci', ov);
  }

  lemma SameChoices(uci: Uci, uci': Uci, ov: CliOverrides)
    requires forall key :: !Overridden(ov, key) ==> Get(uci, key) == Get(uci', key)
    ensures Chosen(ov.lineMode, uci, LineMode) == Chosen(ov.lineMode, uci', LineMode)
    ensures Chosen(ov.annex, uci, Annex) == Chosen(ov.annex, uci', Annex)
    ensures Chosen(ov.tone, uci, Tone) == Chosen(ov.tone, uci', Tone)
    ensures Chosen(ov.xferMode, uci, XferMode) == Chosen(ov.xferMode, uci', XferMode)
    ensures Chosen(ov.vpi, uci, Vpi) == Chosen(ov.vpi, uci', Vpi)
    ensures Chosen(ov.vci, uci, Vci) == Chosen(ov.vci, uci', Vci)
    ensures Chosen(ov.encaps, uci, Encaps) == Chosen(ov.encaps, uci', Encaps)
    ensures Chosen(ov.payload, uci, Payload) == Chosen(ov.payload, uci', Payload)
  {
    hide Get;
    assert Overridden(ov, LineMode) == Given(ov.lineMode) && Overridden(ov, Annex) == Given(ov.annex);
    assert Overridden(ov, Tone) == Given(ov.tone) && Overridden(ov, XferMode) == Given(ov.xferMode);
    assert Overridden(ov, Vpi) == Given(ov.vpi) && Overridden(ov, Vci) == Given(ov.vci);
    assert Overridden(ov, Encaps) == Given(ov.encaps) && Overridden(ov, Payload) == Given(ov.payload);
  }
}
