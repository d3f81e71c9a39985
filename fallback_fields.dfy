// The field setters of the fallback statblock parser
// (scripts/monster-creator-statblock-parser.js), on a value of the monster
// record: `applySetters` for abilities, speed, challenge, the damage and
// condition lines and the action blocks, and `getRacialDetails`. The class
// that owns the record and updates it in place is in fallback_monster.dfy.
module FallbackFields {
  import opened Text
  import SbiRegex
  import opened FallbackText
  import opened FallbackSegmenter

  /** One entry of `speeds`. */
  datatype SpeedEntry = SpeedEntry(name: string, value: nat)

  /** `speed` and `speedAll`, which the speed setter fills together. */
  datatype Movement = Movement(speeds: seq<SpeedEntry>, speedAll: map<string, nat>)

  /** The four damage and condition lists and their special texts. */
  datatype Defences = Defences(
    conditionImmunities: seq<string>,
    damageImmunities: seq<string>,
    damageResistances: seq<string>,
    damageVulnerabilities: seq<string>,
    specialConditionImmunities: Option<string>,
    specialDamageImmunities: Option<string>,
    specialDamageResistances: Option<string>,
    specialDamageVulnerabilities: Option<string>)

  /** The fields `getRacialDetails` writes. */
  datatype Racial = Racial(
    size: Option<string>,
    creatureType: Option<string>,
    alignment: Option<string>,
    race: Option<string>,
    customType: Option<string>)

  /** The lists `applyActionLines` writes. */
  datatype Entries = Entries(
    features: seq<Entry>,
    actions: seq<Entry>,
    bonusActions: seq<Entry>,
    reactions: seq<Entry>,
    legendaryActions: seq<Entry>,
    lairActions: seq<Entry>,
    villainActions: seq<Entry>)

  /**
   * The fields of `MonsterData` the modelled setters read or write, grouped
   * by the setter that fills them. The six ability scores are kept in the
   * order str, dex, con, int, wis, cha.
   */
  datatype Monster = Monster(
    name: string,
    abilities: seq<int>,
    challenge: Option<ChallengeRating>,
    movement: Movement,
    defences: Defences,
    racial: Racial,
    entries: Entries,
    freeLines: seq<string>)

  /** `new MonsterData(name)`: every ability 10, every list empty, every other field null. */
  function Fresh(name: string): (m: Monster)
    ensures m.name == name && |m.abilities| == 6 && forall k :: 0 <= k < 6 ==> m.abilities[k] == 10
    ensures m.movement == Movement([], map[]) && m.freeLines == [] && m.challenge.None?
  {
    Monster(name, [10, 10, 10, 10, 10, 10], None, Movement([], map[]),
      Defences([], [], [], [], None, None, None, None), Racial(None, None, None, None, None),
      Entries([], [], [], [], [], [], []), [])
  }

  /** The end of the run of word characters from `i`. */
  function WordEnd(s: string, i: nat): (e: nat)
    requires i <= |s|
    ensures i <= e <= |s| && (e < |s| ==> !IsWord(s[e]))
    ensures forall k :: i <= k < e ==> IsWord(s[k])
  {
    SkipWhileFrom(s, i, IsWord)
  }

  /** The end of the run of digits from `i`. */
  function DigitEnd(s: string, i: nat): (e: nat)
    requires i <= |s|
    ensures i <= e <= |s| && (e < |s| ==> !IsDigit(s[e]))
    ensures AllDigits(s[i..e])
  {
    var e := SkipWhileFrom(s, i, IsDigit);
    assert forall k :: 0 <= k < e - i ==> s[i..e][k] == s[i + k];
    e
  }

  /** The last position in `lo..hi` whose character has `p`. */
  function LastWhere(s: string, lo: nat, hi: nat, p: char -> bool): (r: Option<nat>)
    requires lo <= hi <= |s|
    decreases hi
    ensures r.Some? ==> lo <= r.value < hi && p(s[r.value]) && forall k :: r.value < k < hi ==> !p(s[k])
    ensures r.None? ==> forall k :: lo <= k < hi ==> !p(s[k])
  {
    if hi == lo then None else if p(s[hi - 1]) then Some(hi - 1) else LastWhere(s, lo, hi - 1, p)
  }

  // ----- the abilities setter -----

  /** A match of `\bstr\b|\bdex\b|...` (any case) at `i`. */
  predicate NameAt(s: string, i: nat)
  {
    i + 3 <= |s| && (i == 0 || !IsWord(s[i - 1])) && Lower(s[i..i + 3]) in SbiRegex.SaveAbbreviations
    && (i + 3 == |s| || !IsWord(s[i + 3]))
  }

  /** The matches of `abilityNames` from `i`, lower-cased. */
  function NamesFrom(s: string, i: nat): (r: seq<string>)
    decreases |s| - i
    ensures forall k :: 0 <= k < |r| ==> r[k] in SbiRegex.SaveAbbreviations
  {
    if i + 3 > |s| then []
    else if NameAt(s, i) then [Lower(s[i..i + 3])] + NamesFrom(s, i + 3)
    else NamesFrom(s, i + 1)
  }

  /** The four signs of the modifier: plus, hyphen-minus, minus sign and en dash. */
  predicate IsSign(c: char) { c == '+' || c == '-' || c == '\U{2212}' || c == '\U{2013}' }

  /**
   * A match of `abilityValues` at `i` — digits, optional spaces, then a
   * modifier in parentheses — as the score's value and the end of the match.
   */
  function ValueAt(s: string, i: nat): (r: Option<(nat, nat)>)
    ensures r.Some? ==> i < r.value.1 <= |s|
  {
    if i >= |s| || !IsDigit(s[i]) then None
    else
      var e := DigitEnd(s, i);
      var p := SkipWhileFrom(s, e, IsSpace);
      if p == |s| || s[p] != '(' then None
      else
        var q := if p + 1 < |s| && IsSign(s[p + 1]) then p + 2 else p + 1;
        var f := DigitEnd(s, q);
        if f == q || f == |s| || s[f] != ')' then None
        else Some((DigitsValue(s[i..e]), f + 1))
  }

  /** The scores of the matches of `abilityValues` from `i`. */
  function ValuesFrom(s: string, i: nat): (r: seq<nat>)
    decreases |s| - i
  {
    if i >= |s| then []
    else match ValueAt(s, i)
      case Some((v, e)) => [v] + ValuesFrom(s, e)
      case None => ValuesFrom(s, i + 1)
  }

  /** The ability names found on all of `lines`, in order. */
  function AllNames(lines: seq<string>): seq<string>
  {
    if lines == [] then [] else AllNames(lines[..|lines| - 1]) + NamesFrom(lines[|lines| - 1], 0)
  }

  /** The scores found on all of `lines`, in order. */
  function AllValues(lines: seq<string>): seq<nat>
  {
    if lines == [] then [] else AllValues(lines[..|lines| - 1]) + ValuesFrom(lines[|lines| - 1], 0)
  }

  /**
   * How many lines the setter reads when it has read `i` without finding six
   * scores: up to the first line after which six or more have been found, or
   * all of them.
   */
  function StopAt(lines: seq<string>, i: nat): (j: nat)
    requires i <= |lines|
    decreases |lines| - i
    ensures i <= j <= |lines|
  {
    if i == |lines| then i
    else if |AllValues(lines[..i + 1])| >= 6 then i + 1
    else StopAt(lines, i + 1)
  }

  /**
   * The setter reads exactly the lines up to the first one after which it
   * holds six or more scores: before it, fewer than six; at it, six or more.
   */
  lemma {:induction false} StopAtFirstSix(lines: seq<string>, i: nat)
    requires i <= |lines|
    decreases |lines| - i
    ensures var j := StopAt(lines, i);
      (j < |lines| ==> |AllValues(lines[..j])| >= 6) && forall k :: i < k < j ==> |AllValues(lines[..k])| < 6
  {
    if i < |lines| && |AllValues(lines[..i + 1])| < 6 {
      StopAtFirstSix(lines, i + 1);
    }
  }

  /** The names and scores the abilities setter collects. */
  function Gathered(lines: seq<string>): (seq<string>, seq<nat>)
  {
    var j := StopAt(lines, 0);
    (AllNames(lines[..j]), AllValues(lines[..j]))
  }

  /**
   * The abilities setter: when some name and some score were found, the first
   * min(6, names, scores) abilities in the order str…cha take the scores by
   * position; the others, and everything else, keep their values.
   */
  function SetAbilities(scores: seq<int>, lines: seq<string>): (r: seq<int>)
    ensures |r| == |scores|
  {
    var (names, values) := Gathered(lines);
    if names == [] || values == [] then scores
    else
      var n := if |names| < |values| then |names| else |values|;
      var count := if n < 6 then n else 6;
      seq(|scores|, k requires 0 <= k < |scores| => if k < count then values[k] as int else scores[k])
  }

  /** The first min(6, names, scores) abilities take the gathered scores by position; the rest keep theirs. */
  lemma AbilitiesByPosition(scores: seq<int>, lines: seq<string>, k: nat)
    requires k < |scores|
    ensures var (names, values) := Gathered(lines);
      SetAbilities(scores, lines)[k]
        == if names != [] && k < 6 && k < |names| && k < |values| then values[k] else scores[k]
  {
  }

  // ----- the speed setter -----

  /** A match of `speedDetails`: the `name` and `value` groups and the end of the match. */
  datatype SpeedMatch = SpeedMatch(name: string, digits: string, end: nat)

  /**
   * A match of `(?<name>\w+)\s?(?<value>\d+)` at `i`. With the whole word as
   * the name, a space and digits must follow; otherwise the regex gives the
   * word back up to its last digit, which becomes the value ("abc12" reads
   * as "abc1" and "2").
   */
  function SpeedAt(s: string, i: nat): (r: Option<SpeedMatch>)
    ensures r.Some? ==> (i < r.value.end <= |s| && r.value.name != [] && r.value.digits != []
      && AllDigits(r.value.digits))
  {
    if i >= |s| || !IsWord(s[i]) then None
    else
      var e := WordEnd(s, i);
      if e + 1 < |s| && IsSpace(s[e]) && IsDigit(s[e + 1]) then
        var f := DigitEnd(s, e + 1);
        Some(SpeedMatch(s[i..e], s[e + 1..f], f))
      else match LastWhere(s, i + 1, e, IsDigit)
        case Some(p) =>
          var f := DigitEnd(s, p);
          Some(SpeedMatch(s[i..p], s[p..f], f))
        case None => None
  }

  /** The matches of `speedDetails` from `i`, left to right. */
  function SpeedsFrom(s: string, i: nat): (r: seq<SpeedMatch>)
    decreases |s| - i
    ensures forall k :: 0 <= k < |r| ==> r[k].name != [] && r[k].digits != [] && AllDigits(r[k].digits)
  {
    if i >= |s| then []
    else match SpeedAt(s, i)
      case Some(m) => [m] + SpeedsFrom(s, m.end)
      case None => SpeedsFrom(s, i + 1)
  }

  /** One match as an entry: None for a zero speed; the name lower-cased, "speed" renamed "walk". */
  function SpeedOf(m: SpeedMatch): (r: Option<SpeedEntry>)
    requires AllDigits(m.digits)
  {
    var name := Lower(m.name);
    var value := DigitsValue(m.digits);
    if name == [] || value == 0 then None
    else Some(SpeedEntry(if name == "speed" then "walk" else name, value))
  }

  /** The entries the setter pushes, in the order of the matches. */
  function SpeedEntries(ms: seq<SpeedMatch>): (r: seq<SpeedEntry>)
    requires forall k :: 0 <= k < |ms| ==> AllDigits(ms[k].digits)
    ensures forall k :: 0 <= k < |r| ==> r[k].value > 0 && r[k].name != "speed" && r[k].name != []
  {
    if ms == [] then []
    else
      var e := SpeedOf(ms[|ms| - 1]);
      SpeedEntries(ms[..|ms| - 1]) + (if e.Some? then [e.value] else [])
  }

  /** `speedAll[key] = value` for each entry in turn. */
  function Record(all: map<string, nat>, es: seq<SpeedEntry>): map<string, nat>
  {
    if es == [] then all
    else Record(all, es[..|es| - 1])[es[|es| - 1].name := es[|es| - 1].value]
  }

  /** One more match adds its entry, if it has one. */
  lemma EntriesStep(ms: seq<SpeedMatch>, k: nat)
    requires k < |ms| && forall i :: 0 <= i < |ms| ==> AllDigits(ms[i].digits)
    ensures SpeedOf(ms[k]).None? ==> SpeedEntries(ms[..k + 1]) == SpeedEntries(ms[..k])
    ensures SpeedOf(ms[k]).Some? ==> SpeedEntries(ms[..k + 1]) == SpeedEntries(ms[..k]) + [SpeedOf(ms[k]).value]
  {
    assert ms[..k + 1][..k] == ms[..k];
  }

  /** Recording one more entry is one more map update. */
  lemma RecordStep(all: map<string, nat>, es: seq<SpeedEntry>, e: SpeedEntry)
    ensures Record(all, es + [e]) == Record(all, es)[e.name := e.value]
  {
    assert (es + [e])[..|es|] == es;
  }

  /** The speed setter: each non-zero match is pushed onto `speeds` and recorded in `speedAll`. */
  function SetSpeed(mv: Movement, lines: seq<string>): (r: Movement)
  {
    var es := SpeedEntries(SpeedsFrom(CombineToString(lines), 0));
    Movement(mv.speeds + es, Record(mv.speedAll, es))
  }

  /** The value of the last entry named `key`. */
  function LastValue(speeds: seq<SpeedEntry>, key: string): Option<nat>
  {
    if speeds == [] then None
    else if speeds[|speeds| - 1].name == key then Some(speeds[|speeds| - 1].value)
    else LastValue(speeds[..|speeds| - 1], key)
  }

  /** `speedAll` holds exactly the names of `speeds`, each with the value of its last entry. */
  ghost predicate Agree(speeds: seq<SpeedEntry>, all: map<string, nat>)
  {
    forall key :: (key in all <==> LastValue(speeds, key).Some?)
      && (key in all ==> all[key] == LastValue(speeds, key).value)
  }

  lemma {:induction false} RecordAgrees(speeds: seq<SpeedEntry>, all: map<string, nat>, es: seq<SpeedEntry>)
    requires Agree(speeds, all)
    ensures Agree(speeds + es, Record(all, es))
  {
    if es != [] {
      var init := es[..|es| - 1];
      var x := es[|es| - 1];
      RecordAgrees(speeds, all, init);
      assert (speeds + es)[..|speeds + es| - 1] == speeds + init;
      var r := Record(all, es);
      assert r == Record(all, init)[x.name := x.value];
      forall key
        ensures (key in r <==> LastValue(speeds + es, key).Some?)
          && (key in r ==> r[key] == LastValue(speeds + es, key).value)
      {
        assert LastValue(speeds + es, key) == if x.name == key then Some(x.value) else LastValue(speeds + init, key);
      }
    } else {
      assert speeds + es == speeds;
    }
  }

  /**
   * The speed setter keeps `speeds` and `speedAll` consistent, and what it
   * adds is non-zero and never named "speed".
   */
  lemma SpeedSetterAgrees(mv: Movement, lines: seq<string>)
    requires Agree(mv.speeds, mv.speedAll)
    ensures var r := SetSpeed(mv, lines);
      Agree(r.speeds, r.speedAll) && r.speeds[..|mv.speeds|] == mv.speeds
      && forall k :: |mv.speeds| <= k < |r.speeds| ==> r.speeds[k].value > 0 && r.speeds[k].name != "speed"
  {
    var es := SpeedEntries(SpeedsFrom(CombineToString(lines), 0));
    RecordAgrees(mv.speeds, mv.speedAll, es);
    assert forall k :: |mv.speeds| <= k < |mv.speeds + es| ==> (mv.speeds + es)[k] == es[k - |mv.speeds|];
  }

  // ----- the challenge setter -----

  /** The challenge setter: the rating read from the joined lines, when the challenge pattern matches. */
  function SetChallenge(challenge: Option<ChallengeRating>, lines: seq<string>): (r: Option<ChallengeRating>)
    ensures ParseChallenge(CombineToString(lines)).None? ==> r == challenge
    ensures ParseChallenge(CombineToString(lines)).Some? ==> r.Some? && r.value.cr >= 0.0
  {
    match ParseChallenge(CombineToString(lines))
    case Some(c) => Some(c)
    case None => challenge
  }

  // ----- parseDamageOrConditionLine -----

  /** The four lists the damage and condition setters fill. */
  datatype Defence = ConditionImmune | DamageImmune | DamageResist | DamageVulnerable

  /** The condition pattern of the condition-immunities setter (`a?blinded` admits "ablinded"). */
  const ConditionWords: seq<string> := ["ablinded", "blinded", "charmed", "deafened", "diseased", "exhaustion",
    "frightened", "incapacitated", "invisible", "paralyzed", "petrified", "poisoned", "prone", "restrained",
    "stunned", "unconscious"]

  /** `sbiRegex.damageTypes`. */
  const DamageWords: seq<string> := ["bludgeoning", "piercing", "slashing", "acid", "cold", "fire", "lightning",
    "necrotic", "poison", "psychic", "radiant", "thunder"]

  function KnownWords(d: Defence): seq<string>
  {
    if d == ConditionImmune then ConditionWords else DamageWords
  }

  /** `replace(/^header/i, '')`. */
  function DropHeader(s: string, h: string): (r: string)
    ensures |r| <= |s|
  {
    if |h| <= |s| && Lower(s[..|h|]) == h then s[|h|..] else s
  }

  /** The line with the four headers removed in turn, trimmed. */
  function CleanDefence(line: string): string
  {
    Trim(DropHeader(DropHeader(DropHeader(DropHeader(line, "damage immunities"), "damage resistances"),
      "damage vulnerabilities"), "condition immunities"))
  }

  /** A word starts at `i`: `\b` before a word character. */
  predicate WordStart(s: string, i: nat)
  {
    i < |s| && IsWord(s[i]) && (i == 0 || !IsWord(s[i - 1]))
  }

  /** One of `words`, as a whole word in any case, starts at `i`. */
  predicate KnownAt(s: string, i: nat, words: seq<string>)
  {
    WordStart(s, i) && Lower(s[i..WordEnd(s, i)]) in words
  }

  /** The matches of the word pattern from `i`, lower-cased. */
  function KnownFrom(s: string, i: nat, words: seq<string>): (r: seq<string>)
    decreases |s| - i
    ensures forall k :: 0 <= k < |r| ==> r[k] in words
  {
    if i >= |s| then []
    else if KnownAt(s, i, words) then [Lower(s[i..WordEnd(s, i)])] + KnownFrom(s, WordEnd(s, i), words)
    else KnownFrom(s, i + 1, words)
  }

  /** `replace(pattern, '')` with the global pattern: the text from `i` without its matches. */
  function Removed(s: string, i: nat, words: seq<string>): (r: string)
    decreases |s| - i
  {
    if i >= |s| then []
    else if KnownAt(s, i, words) then Removed(s, WordEnd(s, i), words)
    else [s[i]] + Removed(s, i + 1, words)
  }

  function TotalLength(parts: seq<string>): nat
  {
    if parts == [] then 0 else |parts[0]| + TotalLength(parts[1..])
  }

  /** The matches and the text left after removing them account for every character. */
  lemma {:induction false} RemovedPartition(s: string, i: nat, words: seq<string>)
    requires i <= |s|
    decreases |s| - i
    ensures |Removed(s, i, words)| + TotalLength(KnownFrom(s, i, words)) == |s| - i
  {
    if i < |s| {
      if KnownAt(s, i, words) {
        var e := WordEnd(s, i);
        RemovedPartition(s, e, words);
        assert TotalLength(KnownFrom(s, i, words)) == e - i + TotalLength(KnownFrom(s, e, words));
      } else {
        RemovedPartition(s, i + 1, words);
      }
    }
  }

  /** `replace(/\s+,/g, ',')` from `i`. */
  function SpaceCommas(s: string, i: nat): (r: string)
    decreases |s| - i
  {
    if i >= |s| then []
    else if IsSpace(s[i]) && SkipWhileFrom(s, i, IsSpace) < |s| && s[SkipWhileFrom(s, i, IsSpace)] == ',' then
      "," + SpaceCommas(s, SkipWhileFrom(s, i, IsSpace) + 1)
    else [s[i]] + SpaceCommas(s, i + 1)
  }

  /** `replace(/^,|,$/, '')`: one leading comma, or else one trailing comma. */
  function EdgeComma(s: string): (r: string)
  {
    if s != [] && s[0] == ',' then s[1..]
    else if s != [] && s[|s| - 1] == ',' then s[..|s| - 1]
    else s
  }

  /** The pieces between semicolons, trimmed, the empty ones dropped. */
  function Tokens(clean: string): (r: seq<string>)
    ensures forall k :: 0 <= k < |r| ==> r[k] != []
  {
    var parts := Split(clean, ';');
    NonEmpty(seq(|parts|, k requires 0 <= k < |parts| => Trim(parts[k])))
  }

  /** The list a damage or condition setter fills. */
  function DefenceList(m: Defences, d: Defence): seq<string>
  {
    match d
    case ConditionImmune => m.conditionImmunities
    case DamageImmune => m.damageImmunities
    case DamageResist => m.damageResistances
    case DamageVulnerable => m.damageVulnerabilities
  }

  /**
   * `parseDamageOrConditionLine`: nothing for an empty line. Otherwise the
   * list becomes the known words found, or the semicolon pieces when there
   * are pieces but no known word, and the special text is what is left of
   * the line without the known words, null when blank.
   */
  function SetDefence(m: Defences, d: Defence, lines: seq<string>): (r: Defences)
  {
    var line := CombineToString(lines);
    if line == [] then m
    else
      var clean := CleanDefence(line);
      var values := KnownFrom(clean, 0, KnownWords(d));
      var tokens := Tokens(clean);
      WriteDefence(m, d, if tokens != [] && values == [] then tokens else values, SpecialText(clean, d))
  }

  /** What is left of the cleaned line without the known words, null when blank. */
  function SpecialText(clean: string, d: Defence): (r: Option<string>)
    ensures r.Some? ==> r.value != []
  {
    var left := Trim(EdgeComma(SpaceCommas(Removed(clean, 0, KnownWords(d)), 0)));
    if left == [] then None else Some(left)
  }

  /** The list and the special text of one of the four kinds. */
  function WriteDefence(m: Defences, d: Defence, list: seq<string>, special: Option<string>): (r: Defences)
  {
    match d
    case ConditionImmune => m.(conditionImmunities := list, specialConditionImmunities := special)
    case DamageImmune => m.(damageImmunities := list, specialDamageImmunities := special)
    case DamageResist => m.(damageResistances := list, specialDamageResistances := special)
    case DamageVulnerable => m.(damageVulnerabilities := list, specialDamageVulnerabilities := special)
  }

  /**
   * A line with text between its semicolons always leaves a non-empty list:
   * every element is a known word, unless no known word occurs, and then the
   * list is the pieces of the line.
   */
  lemma DefenceFilled(m: Defences, d: Defence, lines: seq<string>)
    requires CombineToString(lines) != []
    ensures var clean := CleanDefence(CombineToString(lines));
      var list := DefenceList(SetDefence(m, d, lines), d);
      (Tokens(clean) != [] ==> list != [])
      && ((forall k :: 0 <= k < |list| ==> list[k] in KnownWords(d)) || list == Tokens(clean))
  {
  }

  // ----- getRacialDetails -----

  /** The size words of `racialDetails`. */
  const Sizes: seq<string> := ["fine", "diminutive", "tiny", "small", "medium", "large", "huge", "gargantuan"]

  /** `KNOWN_CREATURE_TYPES`. */
  const KnownTypes: seq<string> := ["aberration", "celestial", "dragon", "fey", "fiend", "giant", "humanoid",
    "monstrosity", "ooze", "undead", "beast", "construct", "elemental", "plant", "swarm", "human"]

  /** The groups of a match of `racialDetails`. */
  datatype RacialGroups = RacialGroups(size: string, creatureType: string, race: Option<string>, alignment: Option<string>)

  predicate IsSepChar(c: char) { c == ',' || IsSpace(c) }
  predicate IsRaceChar(c: char) { c == ',' || IsWord(c) || IsSpace(c) }
  predicate IsAlignChar(c: char) { IsWord(c) || IsSpace(c) || c == '-' }

  /**
   * Where the `type` group starts after the size word ending at `e`: after
   * " swarm of <word> " when that is followed by a word, else after one space.
   */
  function TypeStart(s: string, e: nat): (r: Option<nat>)
    requires e <= |s|
    ensures r.Some? ==> e < r.value < |s| && IsWord(s[r.value])
  {
    var swarm := if e + 10 < |s| && IsSpace(s[e]) && Lower(s[e + 1..e + 10]) == "swarm of " && IsWord(s[e + 10])
      then Some(WordEnd(s, e + 10)) else None;
    if swarm.Some? && swarm.value + 1 < |s| && IsSpace(s[swarm.value]) && IsWord(s[swarm.value + 1]) then
      Some(swarm.value + 1)
    else if e + 1 < |s| && IsSpace(s[e]) && IsWord(s[e + 1]) then Some(e + 1)
    else None
  }

  /** The `race` group from `t`: separators, "(", race characters, ")"; with the end of the group. */
  function RaceAt(s: string, t: nat): (r: Option<(string, nat)>)
    requires t <= |s|
    ensures r.Some? ==> t < r.value.1 <= |s|
  {
    var p := SkipWhileFrom(s, t, IsSepChar);
    if p == t || p == |s| || s[p] != '(' then None
    else
      var q := SkipWhileFrom(s, p + 1, IsRaceChar);
      if q == p + 1 || q == |s| || s[q] != ')' then None else Some((s[p + 1..q], q + 1))
  }

  /**
   * The `alignment` group from `a`. When the separators are not followed by
   * an alignment character the regex gives back separators up to the last
   * space, which alone becomes the group.
   */
  function AlignmentAt(s: string, a: nat): (r: Option<string>)
    requires a <= |s|
  {
    var q := SkipWhileFrom(s, a, IsSepChar);
    if q == a then None
    else if q < |s| && IsAlignChar(s[q]) then Some(s[q..SkipWhileFrom(s, q, IsAlignChar)])
    else match LastWhere(s, a + 1, q, IsSpace)
      case Some(l) => Some(s[l..SkipWhileFrom(s, l, IsAlignChar)])
      case None => None
  }

  /** `racialDetails.exec(line)`, anchored at the start of the line. */
  function RacialMatch(s: string): (r: Option<RacialGroups>)
    ensures r.Some? ==> s != [] && IsWord(s[0]) && r.value.creatureType != []
  {
    var e := WordEnd(s, 0);
    if e == 0 || Lower(s[..e]) !in Sizes then None
    else match TypeStart(s, e)
      case None => None
      case Some(t) =>
        var te := WordEnd(s, t);
        var race := RaceAt(s, te);
        var next := if race.Some? then race.value.1 else te;
        Some(RacialGroups(s[..e], s[t..te], if race.Some? then Some(race.value.0) else None, AlignmentAt(s, next)))
  }

  /** `type.toLowerCase().replace(/s$/, '')`. */
  function Singular(t: string): (r: string)
  {
    var l := Lower(t);
    if l != [] && l[|l| - 1] == 's' then l[..|l| - 1] else l
  }

  /**
   * `getRacialDetails(line, monster)`: nothing when the pattern does not
   * match; otherwise size, type and alignment from the groups (alignment
   * kept when blank), race from its group, and a type whose singular is a
   * known creature type becomes that type, any other becomes the custom type.
   */
  function SetRacial(m: Racial, line: string): (r: Racial)
    ensures RacialMatch(line).None? ==> r == m
  {
    match RacialMatch(line)
    case None => m
    case Some(g) => SettleType(RacialFields(m, g))
  }

  /** The four fields read from the groups; the alignment is kept when its group is missing or blank. */
  function RacialFields(m: Racial, g: RacialGroups): Racial
  {
    m.(size := SafeString(Some(g.size), m.size), creatureType := SafeString(Some(g.creatureType), m.creatureType),
      alignment := SafeString(g.alignment, m.alignment), race := SafeString(g.race, None))
  }

  /** A type whose singular is a known creature type becomes that type; any other non-blank type is custom. */
  function SettleType(m: Racial): Racial
  {
    var t := m.creatureType;
    if t.Some? && Singular(t.value) != [] && Singular(t.value) in KnownTypes then
      m.(creatureType := Some(Singular(t.value)), customType := None)
    else if t.Some? && t.value != [] then m.(customType := t)
    else m
  }

  /**
   * After a match the type is settled: either it is a known creature type in
   * the singular with no custom type, or the custom type repeats it.
   */
  lemma RacialTypeSettled(m: Racial, line: string)
    requires RacialMatch(line).Some?
    ensures var r := SetRacial(m, line);
      r.creatureType.Some? && r.size == Some(RacialMatch(line).value.size)
      && ((r.creatureType.value in KnownTypes && r.customType.None?) || r.customType == r.creatureType)
  {
    var g := RacialMatch(line).value;
    assert g.size != [] && !IsSpace(g.size[0]);
    assert Trim(g.size) == g.size by { TrimWord(g.size); }
    TrimWord(g.creatureType);
  }

  /** A word is its own trimmed text. */
  lemma TrimWord(w: string)
    requires forall k :: 0 <= k < |w| ==> IsWord(w[k])
    ensures Trim(w) == w
  {
    TrimWordStart(w);
    TrimWordEnd(w);
  }

  lemma TrimWordStart(w: string)
    requires forall k :: 0 <= k < |w| ==> IsWord(w[k])
    ensures TrimStart(w) == w
  {
  }

  lemma TrimWordEnd(w: string)
    requires forall k :: 0 <= k < |w| ==> IsWord(w[k])
    ensures TrimEnd(w) == w
  {
  }

  // ----- applyActionLines -----

  /** The blocks `applyActionLines` fills. */
  predicate IsActionBlock(b: Block)
  {
    b == Features || b == Actions || b == BonusActions || b == Reactions || b == LegendaryActions
    || b == LairActions || b == VillainActions || b == Traits
  }

  /**
   * `applyActionLines(lines, type, monster)`: the entries of the block's
   * lines after its heading (all of them for `features`) become that list;
   * the entries of a `traits` block are added after the features.
   */
  function SetActions(m: Entries, b: Block, lines: seq<string>): (r: Entries)
  {
    var blockLines := if b == Features || lines == [] then lines else lines[1..];
    StoreEntries(m, b, BlockDatas(blockLines))
  }

  /** The list an action block's entries go to. */
  function StoreEntries(m: Entries, b: Block, values: seq<Entry>): (r: Entries)
  {
    match b
    case Features => m.(features := values)
    case Actions => m.(actions := values)
    case BonusActions => m.(bonusActions := values)
    case Reactions => m.(reactions := values)
    case LegendaryActions => m.(legendaryActions := values)
    case LairActions => m.(lairActions := values)
    case VillainActions => m.(villainActions := values)
    case Traits => m.(features := m.features + values)
    case _ => m
  }

  /** The heading line of an action block does not matter, and `traits` only adds features. */
  lemma HeadingIgnored(m: Entries, b: Block, h1: string, h2: string, rest: seq<string>)
    requires b != Features
    ensures SetActions(m, b, [h1] + rest) == SetActions(m, b, [h2] + rest)
    ensures SetActions(m, Traits, [h1] + rest).features == m.features + BlockDatas(rest)
  {
    assert ([h1] + rest)[1..] == rest;
    assert SetActions(m, b, [h1] + rest) == StoreEntries(m, b, BlockDatas(rest));
    assert ([h2] + rest)[1..] == rest;
    assert SetActions(m, b, [h2] + rest) == StoreEntries(m, b, BlockDatas(rest));
    assert SetActions(m, Traits, [h1] + rest) == StoreEntries(m, Traits, BlockDatas(rest));
  }

  // ----- applySetters and the race setter -----

  /** The heading line the segmenter opens the `race` block with. */
  const RacialDetailsHeading: string := "Racial Details"

  /**
   * One block through `applySetters` as written: `features` and
   * `utilitySpells` have no setter, `race` is parsed from its lines joined
   * with spaces, and the blocks whose fields are not modelled change nothing
   * modelled here.
   */
  function ApplyAsWritten(m: Monster, b: Block, lines: seq<string>): (r: Monster)
  {
    match b
    case Abilities => m.(abilities := SetAbilities(m.abilities, lines))
    case Speed => m.(movement := SetSpeed(m.movement, lines))
    case Challenge => m.(challenge := SetChallenge(m.challenge, lines))
    case ConditionImmunities => m.(defences := SetDefence(m.defences, ConditionImmune, lines))
    case DamageImmunities => m.(defences := SetDefence(m.defences, DamageImmune, lines))
    case DamageResistances => m.(defences := SetDefence(m.defences, DamageResist, lines))
    case DamageVulnerabilities => m.(defences := SetDefence(m.defences, DamageVulnerable, lines))
    case Race => m.(racial := RaceAsWritten(m.racial, lines))
    case Features => m
    case _ => if IsActionBlock(b) then m.(entries := SetActions(m.entries, b, lines)) else m
  }

  /** The `race` setter as written: `getRacialDetails` on the block's lines joined with spaces. */
  function RaceAsWritten(m: Racial, lines: seq<string>): Racial
  {
    SetRacial(m, Join(lines, " "))
  }

  /** The `race` setter as evidently intended: the heading line is not part of the details. */
  function RaceSetter(m: Racial, lines: seq<string>): Racial
  {
    SetRacial(m, Join(DropHeading(lines), " "))
  }

  /** The block's lines without the "Racial Details" heading. */
  function DropHeading(lines: seq<string>): (r: seq<string>)
  {
    if lines != [] && lines[0] == RacialDetailsHeading then lines[1..] else lines
  }

  /**
   * One block through the setters as evidently intended: as written, except
   * that the `features` block goes through `applyActionLines` and the `race`
   * block is parsed without its heading line.
   */
  function ApplyBlock(m: Monster, b: Block, lines: seq<string>): (r: Monster)
    ensures r.name == m.name && r.freeLines == m.freeLines
  {
    if IsActionBlock(b) then m.(entries := SetActions(m.entries, b, lines))
    else if b == Race then m.(racial := RaceSetter(m.racial, lines))
    else ApplyAsWritten(m, b, lines)
  }

  /** The abilities block goes to the abilities setter alone. */
  lemma ApplyAbilitiesBlock(m: Monster, lines: seq<string>)
    ensures ApplyBlock(m, Abilities, lines) == m.(abilities := SetAbilities(m.abilities, lines))
  {
  }

  /** The speed block goes to the speed setter alone. */
  lemma ApplySpeedBlock(m: Monster, lines: seq<string>)
    ensures ApplyBlock(m, Speed, lines) == m.(movement := SetSpeed(m.movement, lines))
  {
  }

  /** A joined race block that opens with the heading starts with the word "Racial". */
  lemma JoinedHeading(rest: seq<string>)
    ensures var s := Join([RacialDetailsHeading] + rest, " ");
      |s| >= 7 && s[..6] == "Racial" && !IsWord(s[6])
  {
    var s := Join([RacialDetailsHeading] + rest, " ");
    if rest == [] {
      assert s == RacialDetailsHeading;
    } else {
      JoinCons(RacialDetailsHeading, rest);
    }
  }

  lemma JoinCons(x: string, rest: seq<string>)
    requires rest != []
    ensures Join([x] + rest, " ") == x + " " + Join(rest, " ")
  {
    assert ([x] + rest)[1..] == rest;
  }

  /** No size word is "racial". */
  lemma RacialIsNoSize(s: string)
    requires |s| >= 7 && s[..6] == "Racial" && !IsWord(s[6])
    ensures RacialMatch(s).None?
  {
    var e := WordEnd(s, 0);
    assert e == 6;
    assert Lower(s[..e]) == "racial";
  }

  /**
   * As written, a `race` block opened by the "Racial Details" heading is
   * never parsed: the joined text starts with "Racial", which is no size, so
   * the record is left as it was.
   */
  lemma HeadingBlocksRaceAsWritten(m: Racial, rest: seq<string>)
    ensures RaceAsWritten(m, [RacialDetailsHeading] + rest) == m
  {
    JoinedHeading(rest);
    RacialIsNoSize(Join([RacialDetailsHeading] + rest, " "));
  }

  /** With the heading dropped, the line after it is parsed as the racial details. */
  lemma HeadingSkipped(m: Racial, line: string)
    ensures RaceSetter(m, [RacialDetailsHeading, line]) == SetRacial(m, line)
  {
    assert DropHeading([RacialDetailsHeading, line]) == [line];
  }

  /** As written, the lines of the implicit `features` block are dropped. */
  lemma FeaturesDroppedAsWritten(m: Monster, lines: seq<string>)
    ensures ApplyAsWritten(m, Features, lines) == m
  {
  }

  /** With the setter in place, the `features` block's entries become the features, no heading dropped. */
  lemma FeaturesKept(m: Monster, lines: seq<string>)
    ensures ApplyBlock(m, Features, lines) == m.(entries := m.entries.(features := BlockDatas(lines)))
  {
  }

  /** Which setters run: `applySetters` as written, or as evidently intended. */
  datatype Variant = AsWritten | Corrected

  /** The setter of one block in the chosen variant. */
  function SetterOf(v: Variant, m: Monster, b: Block, lines: seq<string>): (r: Monster)
  {
    if v == AsWritten then ApplyAsWritten(m, b, lines) else ApplyBlock(m, b, lines)
  }

  /** The two variants differ only on the `features` and `race` blocks. */
  lemma SettersAgree(m: Monster, b: Block, lines: seq<string>)
    requires b != Features && b != Race
    ensures ApplyAsWritten(m, b, lines) == ApplyBlock(m, b, lines)
  {
  }

  /** The setters applied to the blocks in the order their keys were first seen. */
  function ApplyAll(v: Variant, m: Monster, blocks: map<Block, seq<string>>, keys: seq<Block>): (r: Monster)
    requires forall b :: b in keys ==> b in blocks
    ensures r.name == m.name && r.freeLines == m.freeLines
  {
    if keys == [] then m
    else
      var r := SetterOf(v, ApplyAll(v, m, blocks, keys[..|keys| - 1]), keys[|keys| - 1], blocks[keys[|keys| - 1]]);
      assert r.name == m.name && r.freeLines == m.freeLines by {
        AsWrittenKeepsName(ApplyAll(v, m, blocks, keys[..|keys| - 1]), keys[|keys| - 1], blocks[keys[|keys| - 1]]);
      }
      r
  }

  /** Without a `features` or `race` block, the setters as written and as corrected fill the same record. */
  lemma {:induction false} VariantsAgree(m: Monster, blocks: map<Block, seq<string>>, keys: seq<Block>)
    requires forall b :: b in keys ==> b in blocks
    requires Features !in keys && Race !in keys
    ensures ApplyAll(AsWritten, m, blocks, keys) == ApplyAll(Corrected, m, blocks, keys)
  {
    if keys != [] {
      var init := keys[..|keys| - 1];
      assert forall b :: b in init ==> b in keys;
      VariantsAgree(m, blocks, init);
      SettersAgree(ApplyAll(Corrected, m, blocks, init), keys[|keys| - 1], blocks[keys[|keys| - 1]]);
    }
  }

  lemma AsWrittenKeepsName(m: Monster, b: Block, lines: seq<string>)
    ensures ApplyAsWritten(m, b, lines).name == m.name && ApplyAsWritten(m, b, lines).freeLines == m.freeLines
  {
  }
}
