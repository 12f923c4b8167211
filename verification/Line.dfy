/** Line parameters: their codes, the consistency checks and the opcode-1 payload. */
module Line {
  import opened Bytes

  datatype Modulation =
    | AdslAnsiT1413 | AdslGdmt | AdslGlite | AdslGdmtBis | Adsl2Plus | AdslMultimode | Vdsl2 | Multimode

  datatype Annex = A | B | I | M | AL | ALM | J | BJ | Auto

  datatype Profile = EightA | EightB | EightC | EightD | TwelveA | TwelveB | SeventeenA | ThirtyA | ThirtyFiveB

  datatype XferMode = Atm | Ptm

  function ModulationCode(m: Modulation): byte
  {
    match m
    case AdslAnsiT1413 => 0
    case AdslGdmt => 1
    case AdslGlite => 2
    case AdslGdmtBis => 3
    case Adsl2Plus => 4
    case AdslMultimode => 5
    case Vdsl2 => 6
    case Multimode => 7
  }

  function AnnexCode(a: Annex): byte
  {
    match a
    case A => 0
    case B => 1
    case I => 2
    case M => 3
    case AL => 4
    case ALM => 5
    case J => 6
    case BJ => 7
    case Auto => 8
  }

  // ── VDSL2 profiles ───────────────────────────────────────────────────

  /** The place of a profile's bit in the mask. */
  function Place(p: Profile): nat
  {
    match p
    case EightA => 0
    case EightB => 1
    case EightC => 2
    case EightD => 3
    case TwelveA => 4
    case TwelveB => 5
    case SeventeenA => 6
    case ThirtyA => 7
    case ThirtyFiveB => 8
  }

  function ProfileAt(place: nat): Profile
    requires place < 9
  {
    [EightA, EightB, EightC, EightD, TwelveA, TwelveB, SeventeenA, ThirtyA, ThirtyFiveB][place]
  }

  /** The mask of the profiles from `place` on, shifted down by `place`. */
  function MaskFrom(ps: set<Profile>, place: nat): nat
    requires place <= 9
    decreases 9 - place
  {
    if place == 9 then 0
    else (if ProfileAt(place) in ps then 1 else 0) + 2 * MaskFrom(ps, place + 1)
  }

  lemma {:induction false} MaskFromSmall(ps: set<Profile>, place: nat)
    requires place <= 9
    ensures MaskFrom(ps, place) < Pow2(9 - place)
    decreases 9 - place
  {
    hide ProfileAt;
    if place < 9 {
      MaskFromSmall(ps, place + 1);
      assert Pow2(9 - place) == 2 * Pow2(9 - (place + 1));
    }
  }

  /** The profiles as the bits of a word. */
  function Bitmask(ps: set<Profile>): (mask: u16)
  {
    MaskFromSmall(ps, 0);
    assert Pow2(9) == 512 by { assert Pow2(4) == 16; assert Pow2(8) == 256; }
    MaskFrom(ps, 0)
  }

  predicate Bit(mask: nat, place: nat)
  {
    if place == 0 then mask % 2 == 1 else Bit(mask / 2, place - 1)
  }

  lemma PlaceProfile(p: Profile)
    ensures Place(p) < 9 && ProfileAt(Place(p)) == p
  {
  }

  lemma BitStep(low: nat, high: nat, place: nat)
    requires low < 2
    ensures Bit(low + 2 * high, 0) <==> low == 1
    ensures place > 0 ==> Bit(low + 2 * high, place) == Bit(high, place - 1)
  {
    assert (low + 2 * high) / 2 == high;
  }

  lemma MaskFromStep(ps: set<Profile>, place: nat)
    requires place < 9
    ensures MaskFrom(ps, place) == (if ProfileAt(place) in ps then 1 else 0) + 2 * MaskFrom(ps, place + 1)
  {
    hide ProfileAt;
  }

  lemma {:induction false} MaskFromBit(ps: set<Profile>, place: nat, p: Profile)
    requires place <= Place(p) < 9
    ensures Bit(MaskFrom(ps, place), Place(p) - place) <==> p in ps
    decreases Place(p) - place
  {
    hide Place, ProfileAt, Bit, MaskFrom;
    PlaceProfile(p);
    MaskFromStep(ps, place);
    BitStep(if ProfileAt(place) in ps then 1 else 0, MaskFrom(ps, place + 1), Place(p) - place);
    if place < Place(p) {
      MaskFromBit(ps, place + 1, p);
    }
  }

  /** A profile is chosen exactly if its bit is set; so joining sets is `or` on masks. */
  lemma MaskBit(ps: set<Profile>, p: Profile)
    ensures Place(p) < 9
    ensures Bit(Bitmask(ps), Place(p)) <==> p in ps
  {
    hide Place;
    PlaceProfile(p);
    MaskFromBit(ps, 0, p);
  }

  /** Different sets of profiles have different masks, and only the empty set has mask zero. */
  lemma MaskTells(ps: set<Profile>, qs: set<Profile>)
    ensures Bitmask(ps) == Bitmask(qs) <==> ps == qs
    ensures Bitmask(ps) == 0 <==> ps == {}
  {
    hide Place, Bit;
    EmptyMask(0);
    assert Bitmask({}) == 0;
    hide Bitmask;
    forall p: Profile
      ensures Bitmask(ps) == Bitmask(qs) ==> (p in ps <==> p in qs)
      ensures Bitmask(ps) == Bitmask({}) ==> p !in ps
    {
      MaskBit(ps, p);
      MaskBit(qs, p);
      MaskBit({}, p);
    }
  }

  lemma {:induction false} EmptyMask(place: nat)
    requires place <= 9
    ensures MaskFrom({}, place) == 0
    decreases 9 - place
  {
    if place < 9 {
      EmptyMask(place + 1);
    }
  }

  // ── consistency ──────────────────────────────────────────────────────

  datatype LineError =
    | ProfileRequiresVdsl2 | AnnexesNotDefined | AnnexNotInStandard(letter: char) | XferModeMismatch(expected: XferMode)

  datatype Verdict = Fine | Faulty(error: LineError)

  /** The annex letters a standard knows; none at all for T1.413 and G.lite. */
  function ValidAnnexes(m: Modulation): string
    requires m != AdslAnsiT1413 && m != AdslGlite
  {
    match m
    case AdslGdmt => "ABC"
    case AdslGdmtBis => "ABCIJM"
    case _ => "ABCIJLM"
  }

  function AnnexLetters(a: Annex): string
  {
    match a
    case A => "A"
    case B => "B"
    case I => "I"
    case M => "M"
    case AL => "AL"
    case ALM => "ALM"
    case J => "J"
    case BJ => "BJ"
    case Auto => ""
  }

  function CheckLetters(letters: string, valid: string): Verdict
  {
    if letters == "" then Fine
    else if letters[0] !in valid then Faulty(AnnexNotInStandard(letters[0]))
    else CheckLetters(letters[1..], valid)
  }

  function ValidateLineConfig(m: Modulation, a: Annex, profiles: set<Profile>): Verdict
  {
    if Bitmask(profiles) != 0 && ModulationCode(m) != 6 && ModulationCode(m) != 7 then Faulty(ProfileRequiresVdsl2)
    else if AnnexCode(a) == 8 then Fine
    else if m == AdslAnsiT1413 || m == AdslGlite then Faulty(AnnexesNotDefined)
    else CheckLetters(AnnexLetters(a), ValidAnnexes(m))
  }

  lemma {:induction false} CheckLettersFine(letters: string, valid: string)
    ensures CheckLetters(letters, valid) == Fine <==> forall c :: c in letters ==> c in valid
  {
    if letters != "" && letters[0] in valid {
      CheckLettersFine(letters[1..], valid);
      assert letters == [letters[0]] + letters[1..];
    }
  }

  /** What passes: profiles only where they are sent, and every letter of the annex known to the standard. */
  lemma LineConfigFine(m: Modulation, a: Annex, profiles: set<Profile>)
    ensures ValidateLineConfig(m, a, profiles) == Fine <==>
      && (profiles == {} || m == Vdsl2 || m == Multimode)
      && (a == Auto ||
          (m != AdslAnsiT1413 && m != AdslGlite && forall c :: c in AnnexLetters(a) ==> c in ValidAnnexes(m)))
  {
    hide Bitmask, CheckLetters, AnnexLetters, ValidAnnexes;
    MaskTells(profiles, {});
    if m != AdslAnsiT1413 && m != AdslGlite {
      CheckLettersFine(AnnexLetters(a), ValidAnnexes(m));
    }
  }

  /** What passes, annex by annex: A and B wherever annexes are defined, I, M, J and B/J not in G.992.1, the two with an L
      only from ADSL2+ on. */
  lemma LineConfigTable(m: Modulation, a: Annex, profiles: set<Profile>)
    ensures ValidateLineConfig(m, a, profiles) == Fine <==>
      && (profiles == {} || m == Vdsl2 || m == Multimode)
      && (match a
          case Auto => true
          case A => m != AdslAnsiT1413 && m != AdslGlite
          case B => m != AdslAnsiT1413 && m != AdslGlite
          case AL => m != AdslAnsiT1413 && m != AdslGlite && m != AdslGdmt && m != AdslGdmtBis
          case ALM => m != AdslAnsiT1413 && m != AdslGlite && m != AdslGdmt && m != AdslGdmtBis
          case _ => m != AdslAnsiT1413 && m != AdslGlite && m != AdslGdmt)
  {
    hide ValidateLineConfig;
    LineConfigFine(m, a, profiles);
    if m != AdslAnsiT1413 && m != AdslGlite && a != Auto {
      LettersKnown(m, a);
    }
  }

  lemma LettersKnown(m: Modulation, a: Annex)
    requires m != AdslAnsiT1413 && m != AdslGlite && a != Auto
    ensures (forall c :: c in AnnexLetters(a) ==> c in ValidAnnexes(m)) <==>
      match a
      case A => true
      case B => true
      case AL => m != AdslGdmt && m != AdslGdmtBis
      case ALM => m != AdslGdmt && m != AdslGdmtBis
      case _ => m != AdslGdmt
  {
    var letters, valid := AnnexLetters(a), ValidAnnexes(m);
    Standards(m);
    assert letters[0] in letters;
    if |letters| > 1 {
      assert letters[1] in letters;
    }
    hide ValidAnnexes;
    assert forall c :: c in letters ==> c == letters[0] || c in letters[1..];
  }

  /** The letters a standard knows. */
  lemma Standards(m: Modulation)
    requires m != AdslAnsiT1413 && m != AdslGlite
    ensures 'A' in ValidAnnexes(m) && 'B' in ValidAnnexes(m)
    ensures forall c :: c in ['I', 'J', 'M'] ==> (c in ValidAnnexes(m) <==> m != AdslGdmt)
    ensures 'L' in ValidAnnexes(m) <==> m != AdslGdmt && m != AdslGdmtBis
  {
    var v := ValidAnnexes(m);
    assert v[0] == 'A' && v[1] == 'B';
    if m != AdslGdmt {
      assert v[3] == 'I' && v[4] == 'J' && v[|v| - 1] == 'M';
      if m != AdslGdmtBis {
        assert v[5] == 'L';
      }
    }
  }

  /** The reason given for what does not pass: profiles first, then a standard without annexes, then the annex's first letter
      that the standard does not know. */
  lemma LineConfigFault(m: Modulation, a: Annex, profiles: set<Profile>)
    ensures
      var v := ValidateLineConfig(m, a, profiles);
      && (v == Faulty(ProfileRequiresVdsl2) <==> profiles != {} && m != Vdsl2 && m != Multimode)
      && (v == Faulty(AnnexesNotDefined) <==>
            (profiles == {} || m == Vdsl2 || m == Multimode) && a != Auto && (m == AdslAnsiT1413 || m == AdslGlite))
      && (v.Faulty? && v.error.AnnexNotInStandard? ==>
            v.error.letter == match a case I => 'I' case M => 'M' case J => 'J' case BJ => 'J' case _ => 'L')
  {
    hide Bitmask;
    MaskTells(profiles, {});
    if m != AdslAnsiT1413 && m != AdslGlite {
      Standards(m);
      FirstUnknown(AnnexLetters(a), ValidAnnexes(m));
    }
  }

  lemma FirstUnknown(letters: string, valid: string)
    requires |letters| <= 3
    ensures CheckLetters(letters, valid) ==
      if |letters| > 0 && letters[0] !in valid then Faulty(AnnexNotInStandard(letters[0]))
      else if |letters| > 1 && letters[1] !in valid then Faulty(AnnexNotInStandard(letters[1]))
      else if |letters| > 2 && letters[2] !in valid then Faulty(AnnexNotInStandard(letters[2]))
      else Fine
  {
    if |letters| > 0 {
      assert letters[1..] == [] || letters[1..][0] == letters[1];
      assert |letters| > 2 ==> letters[1..][1..][0] == letters[2];
      assert |letters| > 2 ==> letters[1..][1..][1..] == [];
    }
  }

  /** VDSL2 goes over PTM and the ADSL standards over ATM; multimode takes both. */
  lemma XferModeTable(m: Modulation, x: XferMode)
    ensures ValidateXferMode(m, x) == Fine <==> m == Multimode || (x == Ptm <==> m == Vdsl2)
  {
  }

  function ValidateXferMode(m: Modulation, x: XferMode): Verdict
  {
    if ModulationCode(m) == 6 && x != Ptm then Faulty(XferModeMismatch(Ptm))
    else if ModulationCode(m) <= 5 && x != Atm then Faulty(XferModeMismatch(Atm))
    else Fine
  }

  // ── opcode 1 ─────────────────────────────────────────────────────────

  function Flag(b: bool): byte { if b then 1 else 0 }

  predicate CarriesProfiles(m: Modulation) { m == Vdsl2 || m == Multimode }

  function PackDslLine(m: Modulation, a: Annex, bitswap: bool, sra: bool, profiles: set<Profile>): (out: Bytes)
    ensures |out| == 12
  {
    [ModulationCode(m), AnnexCode(a), Flag(bitswap), Flag(sra)]
    + Be32(if CarriesProfiles(m) then Bitmask(profiles) else 0) + Zeros(4)
  }

  datatype LineParams = LineParams(modulation: Modulation, annex: Annex, bitswap: bool, sra: bool, profiles: set<Profile>)

  /** How the board reads the descriptor: two codes, two switches, and a big-endian mask of profiles. */
  function ReadDslLine(out: Bytes): LineParams
    requires |out| == 12 && out[0] < 8 && out[1] < 9
  {
    var mask := De32(out[4..8]);
    LineParams(
      [AdslAnsiT1413, AdslGdmt, AdslGlite, AdslGdmtBis, Adsl2Plus, AdslMultimode, Vdsl2, Multimode][out[0]],
      [A, B, I, M, AL, ALM, J, BJ, Auto][out[1]],
      out[2] == 1, out[3] == 1, set i: nat | i < 9 && Bit(mask, i) :: PROFILES_BY_BIT[i])
  }

  /** The documented order of the mask's bits, lowest first. */
  const PROFILES_BY_BIT: seq<Profile> :=
    [EightA, EightB, EightC, EightD, TwelveA, TwelveB, SeventeenA, ThirtyA, ThirtyFiveB]

  lemma BitsAre(sent: set<Profile>)
    ensures (set i: nat | i < 9 && Bit(Bitmask(sent), i) :: PROFILES_BY_BIT[i]) == sent
  {
    hide Bitmask, Bit;
    forall i: nat | i < 9
      ensures Bit(Bitmask(sent), i) <==> PROFILES_BY_BIT[i] in sent
    {
      ByBit(i);
      MaskBit(sent, PROFILES_BY_BIT[i]);
    }
    forall p | p in sent
      ensures exists i: nat :: i < 9 && Bit(Bitmask(sent), i) && PROFILES_BY_BIT[i] == p
    {
      PlaceProfile(p);
      ByBit(Place(p));
      assert PROFILES_BY_BIT[Place(p)] == p;
    }
  }

  lemma ByBit(i: nat)
    requires i < 9
    ensures PROFILES_BY_BIT[i] == ProfileAt(i) && Place(ProfileAt(i)) == i
  {
  }

  /** The board reads what was meant; profiles are cleared where the modulation has none. */
  lemma PackReads(m: Modulation, a: Annex, b: bool, s: bool, p: set<Profile>)
    ensures
      var out := PackDslLine(m, a, b, s, p);
      && out[0] < 8 && out[1] < 9 && out[8..] == [0, 0, 0, 0]
      && ReadDslLine(out) == LineParams(m, a, b, s, if CarriesProfiles(m) then p else {})
  {
    hide Bitmask, Be32, De32, Bit, Place;
    var sent := if CarriesProfiles(m) then p else {};
    MaskTells({}, {});
    De32Be32(Bitmask(sent));
    var out := PackDslLine(m, a, b, s, p);
    assert out[4..8] == Be32(Bitmask(sent));
    BitsAre(sent);
  }

  /** Two descriptors are equal exactly if the board is told the same thing; profiles count only where they are sent. */
  lemma PackTells(m: Modulation, a: Annex, b: bool, s: bool, p: set<Profile>,
                  m': Modulation, a': Annex, b': bool, s': bool, p': set<Profile>)
    ensures PackDslLine(m, a, b, s, p) == PackDslLine(m', a', b', s', p') <==>
      m == m' && a == a' && b == b' && s == s' && (CarriesProfiles(m) ==> p == p')
  {
    hide Bitmask, Be32, De32;
    var x, y := PackDslLine(m, a, b, s, p), PackDslLine(m', a', b', s', p');
    if x == y {
      assert x[0] == y[0] && x[1] == y[1] && x[2] == y[2] && x[3] == y[3];
      if CarriesProfiles(m) {
        assert x[4..8] == Be32(Bitmask(p)) && y[4..8] == Be32(Bitmask(p'));
        De32Be32(Bitmask(p));
        De32Be32(Bitmask(p'));
        MaskTells(p, p');
      }
    }
  }

  /** On configurations that pass the check, the descriptor determines all five parameters. */
  lemma PackInjective(m: Modulation, a: Annex, b: bool, s: bool, p: set<Profile>,
                      m': Modulation, a': Annex, b': bool, s': bool, p': set<Profile>)
    requires ValidateLineConfig(m, a, p) == Fine && ValidateLineConfig(m', a', p') == Fine
    requires PackDslLine(m, a, b, s, p) == PackDslLine(m', a', b', s', p')
    ensures m == m' && a == a' && b == b' && s == s' && p == p'
  {
    hide Bitmask, PackDslLine, CheckLetters;
    PackTells(m, a, b, s, p, m', a', b', s', p');
    MaskTells(p, p');
    MaskTells(p', p);
  }
}
