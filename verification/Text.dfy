/** The string operations the status text and the configuration are built from. */
module Text {
  import opened Options

  // ── white space ──────────────────────────────────────────────────────

  /** The Unicode White_Space property. */
  predicate IsSpace(c: char)
  {
    || '\t' <= c <= '\r' || c == ' ' || c == '\U{85}' || c == '\U{A0}' || c == '\U{1680}'
    || '\U{2000}' <= c <= '\U{200A}' || '\U{2028}' <= c <= '\U{2029}'
    || c == '\U{202F}' || c == '\U{205F}' || c == '\U{3000}'
  }

  function TrimStart(s: string): string
  {
    if s != "" && IsSpace(s[0]) then TrimStart(s[1..]) else s
  }

  function TrimEnd(s: string): string
  {
    if s != "" && IsSpace(s[|s| - 1]) then TrimEnd(s[..|s| - 1]) else s
  }

  function Trim(s: string): string
  {
    TrimEnd(TrimStart(s))
  }

  predicate Trimmed(s: string)
  {
    s == "" || (!IsSpace(s[0]) && !IsSpace(s[|s| - 1]))
  }

  lemma {:induction false} TrimStartEnds(s: string)
    ensures TrimStart(s) == "" || !IsSpace(TrimStart(s)[0])
    ensures |TrimStart(s)| <= |s| && TrimStart(s) == s[|s| - |TrimStart(s)|..]
  {
    if s != "" && IsSpace(s[0]) {
      TrimStartEnds(s[1..]);
    }
  }

  lemma {:induction false} TrimEndEnds(s: string)
    ensures TrimEnd(s) <= s
    ensures TrimEnd(s) == "" || !IsSpace(TrimEnd(s)[|TrimEnd(s)| - 1])
  {
    if s != "" && IsSpace(s[|s| - 1]) {
      TrimEndEnds(s[..|s| - 1]);
    }
  }

  /** What is left starts and ends with a visible character, and nothing else is left unchanged. */
  lemma TrimTrims(s: string)
    ensures Trimmed(Trim(s))
    ensures Trim(s) == s <==> Trimmed(s)
    ensures forall c :: c in Trim(s) ==> c in s
  {
    TrimStartEnds(s);
    TrimEndEnds(TrimStart(s));
  }

  predicate AllSpace(s: string) { forall c :: c in s ==> IsSpace(c) }

  /** Trimming cuts off white space in front and behind, and nothing else. */
  lemma TrimCuts(s: string) returns (front: string, back: string)
    ensures s == front + Trim(s) + back && AllSpace(front) && AllSpace(back)
  {
    front := StartCuts(s);
    back := EndCuts(TrimStart(s));
    assert front + (Trim(s) + back) == front + Trim(s) + back;
  }

  lemma {:induction false} StartCuts(s: string) returns (front: string)
    ensures s == front + TrimStart(s) && AllSpace(front)
  {
    if s != "" && IsSpace(s[0]) {
      var rest := StartCuts(s[1..]);
      front := [s[0]] + rest;
      assert s == [s[0]] + s[1..];
    } else {
      front := "";
    }
  }

  lemma {:induction false} EndCuts(s: string) returns (back: string)
    ensures s == TrimEnd(s) + back && AllSpace(back)
  {
    if s != "" && IsSpace(s[|s| - 1]) {
      var n := |s| - 1;
      var rest := EndCuts(s[..n]);
      back := rest + [s[n]];
      assert s == s[..n] + [s[n]];
    } else {
      back := "";
    }
  }

  /** White space are the 25 characters of the Unicode property. */
  lemma SpacesAre(c: char)
    ensures
      IsSpace(c) <==>
        c as int in {0x9, 0xA, 0xB, 0xC, 0xD, 0x20, 0x85, 0xA0, 0x1680, 0x2000, 0x2001, 0x2002, 0x2003, 0x2004, 0x2005, 0x2006,
                     0x2007, 0x2008, 0x2009, 0x200A, 0x2028, 0x2029, 0x202F, 0x205F, 0x3000}
  {
  }

  // ── pieces ───────────────────────────────────────────────────────────

  /** The words between white space, as `split_whitespace` gives them. */
  function Words(s: string): seq<string>
  {
    WordsAfter("", s)
  }

  /** The words of `word + s`, where `word` has no white space. */
  function WordsAfter(word: string, s: string): seq<string>
    decreases |s|
  {
    if s == "" then Close(word)
    else if IsSpace(s[0]) then Close(word) + WordsAfter("", s[1..])
    else WordsAfter(word + [s[0]], s[1..])
  }

  function Close(word: string): seq<string>
  {
    if word == "" then [] else [word]
  }

  function Join(words: seq<string>): string
  {
    if words == [] then "" else words[0] + (if |words| == 1 then "" else " " + Join(words[1..]))
  }

  predicate IsWord(w: string)
  {
    w != "" && forall c :: c in w ==> !IsSpace(c)
  }

  lemma {:induction false} WordsAfterWord(word: string, more: string, s: string)
    requires forall c :: c in more ==> !IsSpace(c)
    ensures WordsAfter(word, more + s) == WordsAfter(word + more, s)
    decreases |more|
  {
    if more == "" {
      assert more + s == s && word + more == word;
    } else {
      assert (more + s)[1..] == more[1..] + s;
      assert word + [more[0]] + more[1..] == word + more;
      WordsAfterWord(word + [more[0]], more[1..], s);
    }
  }

  /** Words joined by blanks come back as they were. */
  lemma {:induction false} WordsOfJoin(words: seq<string>)
    requires forall w :: w in words ==> IsWord(w)
    ensures Words(Join(words)) == words
  {
    if words != [] {
      var w := words[0];
      assert IsWord(w);
      if |words| == 1 {
        WordsAfterWord("", w, "");
        assert w + "" == w && "" + w == w && words == [w];
      } else {
        var rest := " " + Join(words[1..]);
        WordsAfterWord("", w, rest);
        assert "" + w == w && rest[1..] == Join(words[1..]);
        WordsOfJoin(words[1..]);
        assert words == [w] + words[1..];
      }
    }
  }

  /** A word alone is one word, nothing is none, and a white-space character anywhere separates what is before it from what
      is behind it. */
  lemma WordsSplit(a: string, c: char, b: string)
    requires IsSpace(c)
    ensures Words("") == [] && (IsWord(a) ==> Words(a) == [a])
    ensures Words(a + [c] + b) == Words(a) + Words(b)
  {
    WordsCut("", a, c, b);
    if IsWord(a) {
      WordsAfterWord("", a, "");
      assert a + "" == a && "" + a == a;
    }
  }

  lemma {:induction false} WordsCut(word: string, a: string, c: char, b: string)
    requires IsSpace(c)
    ensures WordsAfter(word, a + [c] + b) == WordsAfter(word, a) + Words(b)
    decreases |a|
  {
    var s := a + [c] + b;
    if a == "" {
      assert s[1..] == b;
    } else {
      assert s[1..] == a[1..] + [c] + b;
      if IsSpace(a[0]) {
        WordsCut("", a[1..], c, b);
        assert Close(word) + (WordsAfter("", a[1..]) + Words(b)) == Close(word) + WordsAfter("", a[1..]) + Words(b);
      } else {
        WordsCut(word + [a[0]], a[1..], c, b);
      }
    }
  }

  // ── numbers ──────────────────────────────────────────────────────────

  function Digit(d: nat): char
    requires d < 10
  {
    '0' + d as char
  }

  /** A number in decimal. */
  function ShowNat(n: nat): (s: string)
    ensures s != "" && forall c :: c in s ==> '0' <= c <= '9'
  {
    if n < 10 then [Digit(n)] else ShowNat(n / 10) + [Digit(n % 10)]
  }

  function ShowInt(n: int): string
  {
    if n < 0 then "-" + ShowNat(-n) else ShowNat(n)
  }

  function ShowBool(b: bool): string
  {
    if b then "true" else "false"
  }

  function ParseDigits(s: string): Option<nat>
  {
    if s == "" then Some(0)
    else
      var c := s[|s| - 1];
      var front := ParseDigits(s[..|s| - 1]);
      if front.Some? && '0' <= c <= '9' then Some(10 * front.value + (c as int - '0' as int)) else None
  }

  /** Parsing a machine integer: one sign is allowed, `-` only for signed types, and the range is checked. */
  function ParseInt(s: string, lo: int, hi: int): (r: Option<int>)
    ensures r.Some? ==> lo <= r.value <= hi
  {
    var negative := s != "" && s[0] == '-' && lo < 0;
    var digits := if s != "" && (s[0] == '+' || negative) then s[1..] else s;
    var value := if digits == "" then None else ParseDigits(digits);
    if value.None? then None
    else
      var v: int := value.value;
      var n := if negative then -v else v;
      if lo <= n <= hi then Some(n) else None
  }

  lemma {:induction false} ParseDigitsShow(n: nat)
    ensures ParseDigits(ShowNat(n)) == Some(n)
  {
    if n < 10 {
      assert [Digit(n)][..0] == "";
    } else {
      ParseDigitsShow(n / 10);
      assert (ShowNat(n / 10) + [Digit(n % 10)])[..|ShowNat(n / 10)|] == ShowNat(n / 10);
    }
  }

  /** Every value of the type is read back from its own text. */
  lemma ParseShow(n: int, lo: int, hi: int)
    requires lo <= n <= hi && lo <= 0
    ensures ParseInt(ShowInt(n), lo, hi) == Some(n)
  {
    hide ParseDigits, ShowNat;
    if n < 0 {
      ParseDigitsShow(-n);
      assert ("-" + ShowNat(-n))[1..] == ShowNat(-n);
    } else {
      ParseDigitsShow(n);
      assert ShowNat(n)[0] in ShowNat(n);
    }
  }

  predicate IsNumeral(s: string) { s != "" && forall c :: c in s ==> '0' <= c <= '9' }

  lemma {:induction false} DigitsOnly(s: string)
    ensures ParseDigits(s).Some? <==> forall c :: c in s ==> '0' <= c <= '9'
  {
    if s != "" {
      var n := |s| - 1;
      DigitsOnly(s[..n]);
      assert s[n] in s && forall c :: c in s[..n] ==> c in s;
      assert forall c :: c in s ==> c in s[..n] || c == s[n];
    }
  }

  /** What is accepted: digits, at least one, after at most one sign, `-` for signed types only, and a value in range. */
  lemma NumberAccepted(s: string, lo: int, hi: int)
    requires lo <= 0 <= hi
    ensures ParseInt(s, lo, hi).Some? ==>
      IsNumeral(s) || (s != "" && (s[0] == '+' || (s[0] == '-' && lo < 0)) && IsNumeral(s[1..]))
    ensures IsNumeral(s) ==> ParseInt("+" + s, lo, hi) == ParseInt(s, lo, hi)
    ensures IsNumeral(s) ==>
      var n := ParseDigits(s);
      n.Some? && ParseInt(s, lo, hi) == if n.value <= hi then Some(n.value) else None
  {
    hide ParseDigits;
    DigitsOnly(s);
    if s != "" {
      DigitsOnly(s[1..]);
      assert s[0] in s;
    }
    assert ("+" + s)[1..] == s;
  }

  /** Leading zeros do not matter. */
  lemma {:induction false} LeadingZero(s: string)
    ensures ParseDigits("0" + s) == ParseDigits(s)
  {
    if s == "" {
      assert ("0" + s)[..0] == "" && |"0" + s| == 1;
    } else {
      var n := |s| - 1;
      assert ("0" + s)[..|s|] == "0" + s[..n] && ("0" + s)[|s|] == s[n];
      LeadingZero(s[..n]);
    }
  }

  /** Numbers and truth values are written without white space. */
  lemma ShownTrimmed(n: int, b: bool)
    ensures Trimmed(ShowInt(n)) && forall c :: c in ShowInt(n) ==> !IsSpace(c)
    ensures Trimmed(ShowBool(b)) && forall c :: c in ShowBool(b) ==> !IsSpace(c)
  {
    var s := ShowInt(n);
    assert s[0] in s && s[|s| - 1] in s;
  }
}
