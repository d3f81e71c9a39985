// The statblock importer's line recognizers (scripts/sbi-importer/sbiRegex.js),
// written as string predicates. Each predicate decides exactly what the
// corresponding anchored JavaScript pattern decides on one trimmed line; the
// backtracking of `[\s:]+`, `\w+` and `\d+` is resolved by hand (a separator is
// never a digit or word character, so every run is taken whole).
module SbiRegex {
  import opened Text
  import opened SbiData

  /** `[\s:]`: the separator class that follows a header word. */
  predicate IsSep(c: char) { IsSpace(c) || c == ':' }

  /** `[\s:]+` at position `i`. */
  predicate SepAt(s: string, i: nat) { i < |s| && IsSep(s[i]) }

  /** `[\s:]+\d` at position `i`. */
  predicate SepThenDigit(s: string, i: nat)
  {
    i <= |s| &&
    var e := SkipWhileFrom(s, i, IsSep);
    e > i && e < |s| && IsDigit(s[e])
  }

  /** `\b` after a word that ends at `i`. */
  predicate WordEndsAt(s: string, i: nat) { i >= |s| || !IsWord(s[i]) }

  /** `\s` at position `i`. */
  predicate SpaceAt(s: string, i: nat) { i < |s| && IsSpace(s[i]) }

  /** `s[i..]` starts with the lower-case text `p`. */
  predicate TextAt(s: string, i: nat, p: string) { i <= |s| && StartsWith(s[i..], p) }

  // ----- one predicate per recognizer; `l` is the line in lower case -----

  predicate ArmorLine(l: string)
  {
    (TextAt(l, 0, "armor class") && SepThenDigit(l, 11))
    || (TextAt(l, 0, "armour class") && SepThenDigit(l, 12))
    || (TextAt(l, 0, "ac") && SepThenDigit(l, 2))
  }

  const AbilityWords: seq<string> := [
    "str", "strength", "dex", "dexterity", "con", "constitution", "int", "intelligence",
    "wis", "wisdom", "cha", "charisma", "mod"]

  predicate StartsWithWordFrom(l: string, words: seq<string>)
  {
    words != [] && ((TextAt(l, 0, words[0]) && WordEndsAt(l, |words[0]|)) || StartsWithWordFrom(l, words[1..]))
  }

  /** `^(\bstr\b|…|\bcharisma\b|\bmod\b(\s+save\b)?)`: the optional save part never changes the verdict. */
  predicate AbilitiesLine(l: string) { StartsWithWordFrom(l, AbilityWords) }

  predicate ChallengeLine(l: string)
  {
    (TextAt(l, 0, "challenge") && SepThenDigit(l, 9))
    || (TextAt(l, 0, "cr") && SepThenDigit(l, 2))
    || (TextAt(l, 0, "challenge rating") && SepThenDigit(l, 16))
  }

  /** `^w1\sw2[\s:]+` */
  predicate TwoWordHeader(l: string, w1: string, w2: string)
  {
    TextAt(l, 0, w1) && SpaceAt(l, |w1|) && TextAt(l, |w1| + 1, w2) && SepAt(l, |w1| + 1 + |w2|)
  }

  /** `^(w1\s)?w2[\s:]+` */
  predicate OptionalFirstWordHeader(l: string, w1: string, w2: string)
  {
    (TextAt(l, 0, w2) && SepAt(l, |w2|)) || TwoWordHeader(l, w1, w2)
  }

  predicate HealthLine(l: string)
  {
    (TextAt(l, 0, "hit points") && SepThenDigit(l, 10)) || (TextAt(l, 0, "hp") && SepThenDigit(l, 2))
  }

  predicate ProficiencyBonusLine(l: string)
  {
    TextAt(l, 0, "proficiency bonus") &&
    var e := SkipWhileFrom(l, 17, IsSep);
    e > 17 && e < |l| && l[e] == '+'
  }

  /**
   * `^(size)?(\sor\s\w+)?(\sswarm of (\w+))?\b\s?(?<type>[\w\s]+\w)…` on a line
   * that does not begin with whitespace: a word character, then, after any
   * whitespace, another word character.
   */
  predicate RacialDetailsLine(l: string)
  {
    |l| >= 2 && IsWord(l[0]) &&
    var j := SkipWhileFrom(l, 1, IsSpace);
    j < |l| && IsWord(l[j])
  }

  const SaveAbbreviations: seq<string> := ["str", "dex", "con", "int", "wis", "cha"]

  predicate WordFromAt(l: string, i: nat, words: seq<string>)
  {
    words != [] && ((TextAt(l, i, words[0]) && WordEndsAt(l, i + |words[0]|)) || WordFromAt(l, i, words[1..]))
  }

  predicate SavingThrowsLine(l: string)
  {
    var h := if TextAt(l, 0, "saving throws") then 13 else if TextAt(l, 0, "saves") then 5 else 0;
    h > 0 &&
    var e := SkipWhileFrom(l, h, IsSep);
    e > h && WordFromAt(l, e, SaveAbbreviations)
  }

  /** JavaScript's `.`: anything but a line terminator. */
  predicate IsLineChar(c: char) { c != '\n' && c != '\r' }

  /** `.+[\+-]\d+` from position `k - 1`, where `s[6..k]` are already line characters. */
  predicate SignedNumberFrom(s: string, k: nat)
    requires k >= 7
    decreases |s| - k
  {
    if k + 1 >= |s| then false
    else if (s[k] == '+' || s[k] == '-') && IsDigit(s[k + 1]) then true
    else IsLineChar(s[k]) && SignedNumberFrom(s, k + 1)
  }

  predicate SkillsLine(l: string)
  {
    TextAt(l, 0, "skills") && |l| > 7 && IsLineChar(l[6]) && SignedNumberFrom(l, 7)
  }

  /** `\d+\s?ft` at position `i`. */
  predicate DigitsThenFeet(l: string, i: nat)
  {
    i <= |l| &&
    var d := SkipWhileFrom(l, i, IsDigit);
    d > i && (TextAt(l, d, "ft") || (SpaceAt(l, d) && TextAt(l, d + 1, "ft")))
  }

  /** `^speed[\s:]+(\w+\s+)?\d+\s?ft` */
  predicate SpeedLine(l: string)
  {
    TextAt(l, 0, "speed") &&
    var e := SkipWhileFrom(l, 5, IsSep);
    e > 5 &&
    (DigitsThenFeet(l, e) ||
      var w := SkipWhileFrom(l, e, IsWord);
      var u := SkipWhileFrom(l, w, IsSpace);
      w > e && u > w && DigitsThenFeet(l, u))
  }

  predicate TraitsLine(l: string)
  {
    l == "traits" || l == "abilities"
    || (|l| > 8 && l[..7] == "special" && IsSpace(l[7]) && (l[8..] == "traits" || l[8..] == "abilities"))
  }

  /** The whole-line headings: the line is exactly the heading, in any case. */
  function HeadingText(b: BlockId): Option<string>
  {
    match b
    case Actions => Some("actions")
    case BonusActions => Some("bonus actions")
    case LairActions => Some("lair actions")
    case Reactions => Some("reactions")
    case UtilitySpells => Some("utility spells")
    case VillainActions => Some("villain actions")
    case _ => None
  }

  /** The line recognizer `sbiRegex[b]` applied to a line (`line.match(...)` is non-null). */
  predicate Recognizes(b: BlockId, line: string)
  {
    var l := Lower(line);
    match b
    case Armor => ArmorLine(l)
    case Actions => l == "actions"
    case Abilities => AbilitiesLine(l)
    case BonusActions => l == "bonus actions"
    case Challenge => ChallengeLine(l)
    case ConditionImmunities => TwoWordHeader(l, "condition", "immunities")
    case DamageImmunities => TwoWordHeader(l, "damage", "immunities")
    case Immunities2024 => TextAt(l, 0, "immunities") && SepAt(l, 10)
    case DamageResistances => OptionalFirstWordHeader(l, "damage", "resistances")
    case DamageVulnerabilities => OptionalFirstWordHeader(l, "damage", "vulnerabilities")
    case Gear => TextAt(l, 0, "gear") && SepAt(l, 4)
    case Health => HealthLine(l)
    case Initiative => TextAt(l, 0, "initiative") && SepAt(l, 10)
    case LairActions => l == "lair actions"
    case Languages => TextAt(l, 0, "languages") && SepAt(l, 9)
    // the parenthesised tail of these two patterns is optional, so a prefix suffices
    case LegendaryActions => TextAt(l, 0, "legendary actions")
    case MythicActions => TextAt(l, 0, "mythic actions")
    case ProficiencyBonus => ProficiencyBonusLine(l)
    case RacialDetails => RacialDetailsLine(line)
    case Reactions => l == "reactions"
    case SavingThrows => SavingThrowsLine(l)
    // `( passive)?(.+\d+\s\bft\b)?` is optional as a whole
    case Senses => TextAt(l, 0, "senses")
    case Skills => SkillsLine(l)
    case Souls => TextAt(l, 0, "souls") && SepThenDigit(l, 5)
    case Source => TextAt(l, 0, "source") && SepAt(l, 6)
    case Speed => SpeedLine(l)
    case Traits => TraitsLine(l)
    case UtilitySpells => l == "utility spells"
    case VillainActions => l == "villain actions"
    // name, features and otherBlock are never looked up by the first-match search
    case Name => false
    case Features => false
    case OtherBlock => false
  }

  /** A whole-line heading recognizer matches exactly the heading, whatever follows is refused. */
  lemma HeadingOnlyWholeLine(b: BlockId, line: string)
    requires HeadingText(b).Some?
    ensures Recognizes(b, line) <==> Lower(line) == HeadingText(b).value
  {
  }

  /** Top-section recognizers with a number need a digit right after the header's separators. */
  lemma HealthNeedsNumber(line: string)
    requires Recognizes(Health, line)
    ensures exists i :: 0 < i < |line| && IsDigit(line[i]) && IsSep(line[i - 1])
  {
    var l := Lower(line);
    var h := if TextAt(l, 0, "hit points") && SepThenDigit(l, 10) then 10 else 2;
    var e := SkipWhileFrom(l, h, IsSep);
    assert IsDigit(l[e]) && IsSep(l[e - 1]);
    assert line[e] == l[e] && line[e - 1] == l[e - 1];
  }

  /** The legendary and mythic headings match any line they begin. */
  lemma LegendaryHeadingIsPrefix(t: string)
    ensures Recognizes(LegendaryActions, "Legendary Actions" + t)
  {
    var u := "Legendary Actions";
    var s := u + t;
    var l := Lower(s);
    assert forall i :: 0 <= i < |u| ==> l[i] == LowerChar(u[i]);
    assert l[..|u|] == "legendary actions";
  }

  // ----- otherBlock: `^([A-Z][A-Za-z]+\s?){1,2}$`, case-sensitive -----

  /** `[A-Z][A-Za-z]+\s?$` */
  predicate CapitalWord(t: string)
  {
    var k := SkipWhileFrom(t, 0, IsLetter);
    k >= 2 && IsUpper(t[0]) && (k == |t| || (k + 1 == |t| && IsSpace(t[k])))
  }

  /**
   * One or two capitalised words: the first word's letter run is taken whole
   * (two words with no space between them are one run of letters).
   */
  predicate OtherBlockLine(s: string)
  {
    var k := SkipWhileFrom(s, 0, IsLetter);
    k >= 2 && IsUpper(s[0]) && (k == |s| || (IsSpace(s[k]) && (k + 1 == |s| || CapitalWord(s[k + 1..]))))
  }

  predicate LettersOnly(w: string) { forall i :: 0 <= i < |w| ==> IsLetter(w[i]) }

  predicate IsCapitalWord(w: string) { |w| >= 2 && IsUpper(w[0]) && LettersOnly(w) }

  lemma LetterRunOfWord(w: string, rest: string)
    requires LettersOnly(w)
    requires rest == [] || !IsLetter(rest[0])
    ensures SkipWhileFrom(w + rest, 0, IsLetter) == |w|
  {
    var s := w + rest;
    assert forall i :: 0 <= i < |w| ==> s[i] == w[i];
    assert |w| < |s| ==> s[|w|] == rest[0];
  }

  /** A line of one or two capitalised words separated by one space is an otherBlock line. */
  lemma OtherBlockAcceptsWords(w1: string, w2: string)
    requires IsCapitalWord(w1) && IsCapitalWord(w2)
    ensures OtherBlockLine(w1)
    ensures OtherBlockLine(w1 + " " + w2)
  {
    LetterRunOfWord(w1, []);
    assert w1 + [] == w1;
    var s := w1 + " " + w2;
    LetterRunOfWord(w1, " " + w2);
    assert s == w1 + (" " + w2);
    assert s[|w1| + 1..] == w2;
    LetterRunOfWord(w2, []);
    assert w2 + [] == w2;
  }

  /** Conversely, an otherBlock line starts with a capital and holds only letters and at most two spaces. */
  lemma OtherBlockShape(s: string)
    requires OtherBlockLine(s)
    ensures IsUpper(s[0])
    ensures forall i :: 0 <= i < |s| ==> IsLetter(s[i]) || IsSpace(s[i])
    ensures forall i :: 0 <= i < |s| - 1 ==> IsSpace(s[i]) ==> IsLetter(s[i + 1])
  {
    var k := SkipWhileFrom(s, 0, IsLetter);
    if k < |s| && k + 1 < |s| {
      var t := s[k + 1..];
      var m := SkipWhileFrom(t, 0, IsLetter);
      forall i | k + 1 <= i < |s|
        ensures IsLetter(s[i]) || IsSpace(s[i])
      {
        assert s[i] == t[i - k - 1];
      }
      forall i | 0 <= i < |s| - 1 && IsSpace(s[i])
        ensures IsLetter(s[i + 1])
      {
        if i > k {
          assert s[i] == t[i - k - 1];
        }
        assert s[k + 1] == t[0];
      }
    }
  }

  // ----- entry titles (`blockTitleBase`) -----

  /** `[\w\d\-+,;'’]`: the characters a title word is made of. */
  predicate IsTitleChar(c: char)
  {
    IsWord(c) || c == '-' || c == '+' || c == ',' || c == ';' || c == '\'' || c == '’'
  }

  predicate IsPreposition(w: string)
  {
    w in ["of", "and", "the", "from", "in", "at", "on", "with", "to", "by", "into"]
  }

  /** End of the maximal run of title characters starting at `i`. */
  function RunEnd(s: string, i: nat): (e: nat)
    requires i <= |s|
    ensures i <= e <= |s|
    ensures forall j :: i <= j < e ==> IsTitleChar(s[j])
    ensures e < |s| ==> !IsTitleChar(s[e])
  {
    SkipWhileFrom(s, i, IsTitleChar)
  }

  /** `[.!]|:(?!\s*\d)` at position `q`. */
  predicate TerminatorAt(s: string, q: nat)
  {
    q < |s| &&
    (s[q] == '.' || s[q] == '!' ||
      (s[q] == ':' && !(var j := SkipWhileFrom(s, q + 1, IsSpace); j < |s| && IsDigit(s[j]))))
  }

  /** `\s\((?!spell save)[^)]+\)` followed by the terminator, at position `q`. */
  predicate ParentheticalAt(s: string, q: nat)
  {
    q + 2 <= |s| && IsSpace(s[q]) && s[q + 1] == '(' && !StartsWith(s[q + 2..], "spell save") &&
    match IndexOf(s, ")", q + 2)
    case Some(r) => r > q + 2 && TerminatorAt(s, r + 1)
    case None => false
  }

  /** What must follow the title group: an optional parenthetical, then a terminator. */
  predicate TitleTailAt(s: string, q: nat) { ParentheticalAt(s, q) || TerminatorAt(s, q) }

  /**
   * The end (exclusive) of the whole `blockTitleBase` match whose title group
   * ends at `q`: past the parenthetical's ")" and its terminator, or past the
   * terminator alone.
   */
  function TailEnd(s: string, q: nat): (r: nat)
    requires TitleTailAt(s, q)
    ensures q < r <= |s|
    ensures TerminatorAt(s, r - 1)
  {
    var close := IndexOf(s, ")", q + 2);
    if ParentheticalAt(s, q) && close.Some? then close.value + 2 else q + 1
  }

  /** Number of whitespace characters in a string. */
  function Spaces(t: string): nat
  {
    if t == [] then 0 else (if IsSpace(t[0]) then 1 else 0) + Spaces(t[1..])
  }

  lemma {:induction false} SpacesAppend(a: string, b: string)
    ensures Spaces(a + b) == Spaces(a) + Spaces(b)
  {
    if a != [] {
      assert (a + b)[0] == a[0];
      assert (a + b)[1..] == a[1..] + b;
      SpacesAppend(a[1..], b);
    } else {
      assert a + b == b;
    }
  }

  lemma {:induction false} SpacesOfRun(s: string, i: nat, e: nat)
    requires i <= e <= |s|
    requires forall j :: i <= j < e ==> IsTitleChar(s[j])
    ensures Spaces(s[i..e]) == 0
    decreases e - i
  {
    if i < e {
      assert s[i..e][1..] == s[i + 1..e];
      SpacesOfRun(s, i + 1, e);
    }
  }

  lemma SplitSpaces(s: string, a: nat, b: nat, c: nat)
    requires a <= b <= c <= |s|
    ensures Spaces(s[a..c]) == Spaces(s[a..b]) + Spaces(s[b..c])
  {
    assert s[a..c] == s[a..b] + s[b..c];
    SpacesAppend(s[a..b], s[b..c]);
  }

  lemma OneSpace(s: string, e: nat)
    requires e < |s|
    ensures Spaces(s[e..e + 1]) <= 1
  {
    assert s[e..e + 1][1..] == [];
  }

  /** A run of title characters, then `q - e` (0 or 1) whitespace, adds at most one whitespace. */
  lemma RunStepSpaces(s: string, p: nat, e: nat, q: nat, n: nat, m: nat)
    requires p <= e <= q <= n <= |s| && q <= e + 1
    requires forall j :: p <= j < e ==> IsTitleChar(s[j])
    requires Spaces(s[q..n]) <= m
    ensures Spaces(s[p..n]) <= m + 1
  {
    SpacesOfRun(s, p, e);
    SplitSpaces(s, p, e, n);
    SplitSpaces(s, e, q, n);
    if q == e + 1 { OneSpace(s, e); } else { assert s[e..q] == []; }
  }

  /**
   * `(?:[\w\d\-+,;'’]+\s?){0,k}` from `p`, then the tail; the end of the title
   * group of the first match the backtracking search finds. Splitting a run
   * into several iterations only reaches run ends already tried, so each
   * iteration takes a whole run, and each brings at most one whitespace.
   */
  function TitleWords(s: string, p: nat, k: nat): (r: Option<nat>)
    requires p <= |s|
    decreases k
    ensures r.Some? ==> p <= r.value <= |s| && TitleTailAt(s, r.value)
    ensures r.Some? ==> Spaces(s[p..r.value]) <= k
  {
    var more :=
      if k > 0 && p < |s| && IsTitleChar(s[p]) then
        var e := RunEnd(s, p);
        var spaced := if e < |s| && IsSpace(s[e]) then TitleWords(s, e + 1, k - 1) else None;
        if spaced.Some? then
          RunStepSpaces(s, p, e, e + 1, spaced.value, k - 1);
          spaced
        else
          var plain := TitleWords(s, e, k - 1);
          if plain.Some? then
            RunStepSpaces(s, p, e, e, plain.value, k - 1);
            plain
          else None
      else None;
    if more.Some? then more
    else if TitleTailAt(s, p) then
      assert s[p..p] == [];
      Some(p)
    else None
  }

  /** The optional preposition `(?:of|and|…|into)\s`, then up to three further words. */
  function AfterFirstWord(s: string, p: nat): (r: Option<nat>)
    requires p <= |s|
    ensures r.Some? ==> p <= r.value <= |s| && TitleTailAt(s, r.value)
    ensures r.Some? ==> Spaces(s[p..r.value]) <= 4
  {
    var withPreposition := AfterPreposition(s, p);
    if withPreposition.Some? then withPreposition else TitleWords(s, p, 3)
  }

  /** A preposition and a whitespace at `p`, then up to three words. */
  function AfterPreposition(s: string, p: nat): (r: Option<nat>)
    requires p <= |s|
    ensures r.Some? ==> p <= r.value <= |s| && TitleTailAt(s, r.value)
    ensures r.Some? ==> Spaces(s[p..r.value]) <= 4
  {
    match PrepositionEnd(s, p)
    case None => None
    case Some(e) =>
      var words := TitleWords(s, e + 1, 3);
      if words.Some? then
        RunStepSpaces(s, p, e, e + 1, words.value, 3);
        words
      else None
  }

  /** The end of the preposition at `p` when a whitespace follows it. */
  function PrepositionEnd(s: string, p: nat): (r: Option<nat>)
    requires p <= |s|
    ensures r.Some? ==> r.value == RunEnd(s, p) && r.value < |s| && IsSpace(s[r.value])
  {
    var e := RunEnd(s, p);
    if IsPreposition(s[p..e]) && e < |s| && IsSpace(s[e]) then Some(e) else None
  }

  /**
   * `blockTitleBase` matched at the start of a line: the length of the `title`
   * group, or None when the line does not begin with an entry title. A title
   * starts with a capital letter, is followed by its terminator (after an
   * optional parenthetical), and holds at most five whitespace characters: one
   * after the first word, one after the preposition and one after each of at
   * most three further words.
   */
  function TitleEnd(s: string): (r: Option<nat>)
    ensures r.Some? ==> 2 <= r.value <= |s| && IsUpper(s[0]) && TitleTailAt(s, r.value)
    ensures r.Some? ==> Spaces(s[..r.value]) <= 5
  {
    if |s| >= 2 && IsUpper(s[0]) && IsTitleChar(s[1]) then
      var e := RunEnd(s, 1);
      var spaced := if e < |s| && IsSpace(s[e]) then AfterFirstWord(s, e + 1) else None;
      if spaced.Some? then
        assert s[..spaced.value] == s[0..spaced.value];
        RunStepSpaces(s, 0, e, e + 1, spaced.value, 4);
        spaced
      else
        var plain := AfterFirstWord(s, e);
        if plain.Some? then
          assert s[..plain.value] == s[0..plain.value];
          RunStepSpaces(s, 0, e, e, plain.value, 4);
          plain
        else None
    else None
  }

  /** A single capitalised word followed by "." is a title, whatever text follows. */
  lemma OneWordTitle(w: string, rest: string)
    requires |w| >= 2 && IsUpper(w[0])
    requires forall i :: 0 <= i < |w| ==> IsTitleChar(w[i])
    ensures TitleEnd(w + "." + rest) == Some(|w|)
  {
    var s := w + "." + rest;
    assert s[|w|] == '.';
    assert forall i :: 0 <= i < |w| ==> s[i] == w[i];
    var e := RunEnd(s, 1);
    assert e == |w|;
    assert RunEnd(s, |w|) == |w|;
    assert s[|w|..|w|] == [];
    assert TitleWords(s, |w|, 3) == Some(|w|);
  }

  /** Which of the two title patterns the parser uses. */
  datatype TitlePattern = CleanLines | AfterSentenceEnd

  /** `getBlockTitle` / `getVillainActionTitle`: the clean-lines variant exactly when the flag is set. */
  function GetBlockTitle(cleanLines: bool): (r: TitlePattern)
    ensures r == CleanLines <==> cleanLines
  {
    if cleanLines then CleanLines else AfterSentenceEnd
  }

  /**
   * Whether a title match may begin at the start of a line of the combined
   * text: always for clean lines (`(?:^|\n)`); otherwise only on the first
   * line or after a line that ends with `.`, `:` or `!` plus whitespace
   * (`(?:^|[.:!]\s*\n)`; the villain variant accepts only `.` and `!`).
   */
  predicate TitleMayStart(p: TitlePattern, previous: Option<string>, villain: bool)
  {
    p == CleanLines || previous.None? ||
    (var t := TrimEnd(previous.value);
     t != [] && (t[|t| - 1] == '.' || t[|t| - 1] == '!' || (!villain && t[|t| - 1] == ':')))
  }

  /**
   * `villainActionTitleBase`, `Action\s[123]:\s.+[.!?]`, at the start of a line:
   * the title runs through the last `.`, `!` or `?` of the line.
   */
  function VillainTitleEnd(s: string): (r: Option<nat>)
    ensures r.Some? ==> 11 < r.value <= |s| && s[..6] == "Action" && s[r.value - 1] in ".!?"
  {
    if |s| >= 12 && s[..6] == "Action" && IsSpace(s[6]) && s[7] in "123" && s[8] == ':' && IsSpace(s[9])
    then LastStop(s, |s|)
    else None
  }

  /** The end (exclusive) of the last `.`, `!` or `?` at index 11 or later, before `n`, with only line characters before it. */
  function LastStop(s: string, n: nat): (r: Option<nat>)
    requires 10 <= n <= |s|
    decreases n
    ensures r.Some? ==> 11 < r.value <= n && s[r.value - 1] in ".!?"
  {
    if n <= 11 then None
    else if s[n - 1] in ".!?" && forall j :: 10 <= j < n - 1 ==> IsLineChar(s[j]) then Some(n)
    else LastStop(s, n - 1)
  }

  // ----- removeNewLines -----

  /** The header alternatives of `pureBlockHeader`, in lower case. */
  predicate IsHeaderText(h: string)
  {
    match |h|
    case 2 => h == "ac" || h == "cr" || h == "hp"
    case 4 => h == "gear"
    case 5 => h == "saves" || h == "souls" || h == "speed"
    case 6 => h == "senses" || h == "skills"
    case 9 => h == "challenge" || h == "languages"
    case 10 => h == "immunities" || h == "hit points" || h == "initiative"
    case 11 => h == "armor class" || h == "resistances"
    case 12 => h == "armour class"
    case 13 => h == "saving throws"
    case 15 => h == "vulnerabilities"
    case 16 => h == "challenge rating"
    case 17 => h == "proficiency bonus" || (h[..6] == "damage" && IsSpace(h[6]) && h[7..] == "immunities")
    case 18 => h[..6] == "damage" && IsSpace(h[6]) && h[7..] == "resistances"
    case 20 => h[..9] == "condition" && IsSpace(h[9]) && h[10..] == "immunities"
    case 22 => h[..6] == "damage" && IsSpace(h[6]) && h[7..] == "vulnerabilities"
    case _ => false
  }

  /** A header-only line. */
  predicate PureHeader(line: string) { IsHeaderText(Lower(line)) }

  /**
   * The negative lookahead `(?!^(header)\s+)` fails on this line: some header
   * begins it and is followed by whitespace, or by the line break when another
   * line follows.
   */
  predicate StartsWithHeader(line: string, lineFollows: bool)
  {
    var l := Lower(line);
    exists n | 0 < n <= |l| :: IsHeaderText(l[..n]) && (if n < |l| then IsSpace(l[n]) else lineFollows)
  }

  /**
   * `text.replace(removeNewLines, "$<header> ")` on the lines of a cleaned
   * text (trimmed, none empty): a header-only line is joined with the next
   * line unless that line itself begins with a header.
   */
  function FixNewLines(lines: seq<string>): (r: seq<string>)
    ensures |r| <= |lines|
    ensures lines != [] ==> r != []
  {
    if |lines| < 2 then lines
    else if PureHeader(lines[0]) && !StartsWithHeader(lines[1], |lines| > 2) then
      [lines[0] + " " + lines[1]] + FixNewLines(lines[2..])
    else [lines[0]] + FixNewLines(lines[1..])
  }

  /** The text with every line break turned into a space. */
  function Unbreak(s: string): (r: string)
    ensures |r| == |s|
    ensures forall i :: 0 <= i < |s| ==> r[i] == if s[i] == '\n' then ' ' else s[i]
  {
    seq(|s|, i requires 0 <= i < |s| => if s[i] == '\n' then ' ' else s[i])
  }

  /** A space or a line break between two texts reads as a space. */
  lemma UnbreakGlue(x: string, y: string, c: char)
    requires c == ' ' || c == '\n'
    ensures Unbreak(x + [c] + y) == Unbreak(x) + " " + Unbreak(y)
  {
    var l, r := Unbreak(x + [c] + y), Unbreak(x) + " " + Unbreak(y);
    assert |l| == |r|;
    forall i | 0 <= i < |l| ensures l[i] == r[i] {
      if i < |x| { assert (x + [c] + y)[i] == x[i]; }
      else if i > |x| { assert (x + [c] + y)[i] == y[i - |x| - 1]; }
    }
  }

  lemma JoinCons(x: string, rest: seq<string>)
    requires rest != []
    ensures Join([x] + rest, "\n") == x + "\n" + Join(rest, "\n")
  {
    assert ([x] + rest)[1..] == rest;
  }

  lemma JoinedLast(x: string, y: string)
    ensures Unbreak(Join([x + " " + y], "\n")) == Unbreak(Join([x, y], "\n"))
  {
    assert Join([x, y], "\n") == x + "\n" + y;
    UnbreakGlue(x, y, ' ');
    UnbreakGlue(x, y, '\n');
  }

  lemma JoinedMiddle(x: string, y: string, jf: string, jr: string)
    requires Unbreak(jf) == Unbreak(jr)
    ensures Unbreak(x + " " + y + "\n" + jf) == Unbreak(x + "\n" + (y + "\n" + jr))
  {
    var a, b := x + " " + y + "\n" + jf, x + "\n" + (y + "\n" + jr);
    var k := |x| + |y| + 2;
    assert |a| == |b|;
    forall i | 0 <= i < |a| ensures Unbreak(a)[i] == Unbreak(b)[i] {
      if i < |x| {
        assert a[i] == x[i] && b[i] == x[i];
      } else if i == |x| {
        assert a[i] == ' ' && b[i] == '\n';
      } else if i < k - 1 {
        assert a[i] == y[i - |x| - 1] && b[i] == y[i - |x| - 1];
      } else if i == k - 1 {
        assert a[i] == '\n' && b[i] == '\n';
      } else {
        assert a[i] == jf[i - k] && b[i] == jr[i - k];
        assert Unbreak(jf)[i - k] == Unbreak(jr)[i - k];
      }
    }
  }

  lemma JoinedCase(x: string, y: string, rest: seq<string>, fr: seq<string>)
    requires Unbreak(Join(fr, "\n")) == Unbreak(Join(rest, "\n"))
    requires rest == [] <==> fr == []
    ensures Unbreak(Join([x + " " + y] + fr, "\n")) == Unbreak(Join([x, y] + rest, "\n"))
  {
    if rest == [] {
      assert [x + " " + y] + fr == [x + " " + y];
      assert [x, y] + rest == [x, y];
      JoinedLast(x, y);
    } else {
      JoinCons(x + " " + y, fr);
      JoinCons(y, rest);
      assert [x, y] + rest == [x] + ([y] + rest);
      JoinCons(x, [y] + rest);
      JoinedMiddle(x, y, Join(fr, "\n"), Join(rest, "\n"));
    }
  }

  lemma KeptCase(x: string, tail: seq<string>, ft: seq<string>)
    requires Unbreak(Join(ft, "\n")) == Unbreak(Join(tail, "\n"))
    requires tail != [] && ft != []
    ensures Unbreak(Join([x] + ft, "\n")) == Unbreak(Join([x] + tail, "\n"))
  {
    JoinCons(x, ft);
    JoinCons(x, tail);
    UnbreakGlue(x, Join(ft, "\n"), '\n');
    UnbreakGlue(x, Join(tail, "\n"), '\n');
  }

  /** A header-only line takes the next line in, unless that line begins with a header; any other line stays as it is. */
  lemma FixNewLinesStep(lines: seq<string>)
    requires |lines| >= 2
    ensures PureHeader(lines[0]) && !StartsWithHeader(lines[1], |lines| > 2)
      ==> FixNewLines(lines) == [lines[0] + " " + lines[1]] + FixNewLines(lines[2..])
    ensures !PureHeader(lines[0]) || StartsWithHeader(lines[1], |lines| > 2)
      ==> FixNewLines(lines) == [lines[0]] + FixNewLines(lines[1..])
  {
  }

  /**
   * Joining only ever replaces a line break by a space: apart from line
   * breaks, the text is unchanged.
   */
  lemma {:induction false} FixNewLinesOnlyJoins(lines: seq<string>)
    ensures Unbreak(Join(FixNewLines(lines), "\n")) == Unbreak(Join(lines, "\n"))
    decreases |lines|
  {
    if |lines| >= 2 {
      var x, y := lines[0], lines[1];
      FixNewLinesStep(lines);
      if FixNewLines(lines) == [x + " " + y] + FixNewLines(lines[2..]) {
        var rest := lines[2..];
        FixNewLinesOnlyJoins(rest);
        assert lines == [x, y] + rest;
        JoinedCase(x, y, rest, FixNewLines(rest));
      } else {
        FixNewLinesOnlyJoins(lines[1..]);
        assert lines == [x] + lines[1..];
        KeptCase(x, lines[1..], FixNewLines(lines[1..]));
      }
    }
  }

  // ----- perDayCountFull: `\((?<perDay>\d+)\/day[\),;]`, case-insensitive -----

  predicate IsPerDayCloser(c: char) { c == ')' || c == ',' || c == ';' }

  /** `\/day`, case-insensitively, at `d`. */
  predicate DayAt(s: string, d: nat)
  {
    d + 4 <= |s| && s[d] == '/' && LowerChar(s[d + 1]) == 'd' && LowerChar(s[d + 2]) == 'a' && LowerChar(s[d + 3]) == 'y'
  }

  /** The `perDay` count of a match that begins at `i`. */
  function PerDayAt(s: string, i: nat): (r: Option<nat>)
    requires i <= |s|
  {
    if i < |s| && s[i] == '(' then
      var d := SkipWhileFrom(s, i + 1, IsDigit);
      if d > i + 1 && d + 5 <= |s| && DayAt(s, d) && IsPerDayCloser(s[d + 4])
      then Some(DigitsValue(s[i + 1..d]))
      else None
    else None
  }

  /** Where the first match at or after `from` begins. */
  function FirstPerDay(s: string, from: nat): (r: Option<nat>)
    requires from <= |s|
    decreases |s| - from
    ensures r.Some? ==> from <= r.value < |s| && PerDayAt(s, r.value).Some?
    ensures r.Some? ==> forall j :: from <= j < r.value ==> PerDayAt(s, j).None?
    ensures r.None? ==> forall i :: from <= i <= |s| ==> PerDayAt(s, i).None?
  {
    if from == |s| then None
    else if PerDayAt(s, from).Some? then Some(from)
    else FirstPerDay(s, from + 1)
  }

  /** The `perDay` count of the first match in the text, if any. */
  function PerDayCount(s: string): (r: Option<nat>)
  {
    match FirstPerDay(s, 0)
    case None => None
    case Some(i) => PerDayAt(s, i)
  }

  /** "(N/day" counts only when ")", "," or ";" follows it. */
  lemma PerDayNeedsCloser(digits: string, c: char)
    requires digits != [] && forall i :: 0 <= i < |digits| ==> IsDigit(digits[i])
    ensures PerDayAt("(" + digits + "/day" + [c], 0).Some? <==> IsPerDayCloser(c)
    ensures IsPerDayCloser(c) ==> PerDayAt("(" + digits + "/day" + [c], 0) == Some(DigitsValue(digits))
  {
    var s := "(" + digits + "/day" + [c];
    var d := SkipWhileFrom(s, 1, IsDigit);
    assert forall i :: 1 <= i < |digits| + 1 ==> s[i] == digits[i - 1];
    assert s[|digits| + 1] == '/';
    assert d == |digits| + 1;
    assert s[d + 1] == 'd' && s[d + 2] == 'a' && s[d + 3] == 'y' && s[d + 4] == c;
    assert s[1..d] == digits;
  }
}
