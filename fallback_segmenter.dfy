// The fallback statblock parser's line segmenter: `getFirstMatch` and the
// loop of `parse5eStatblockToOpen5e`
// (scripts/monster-creator-statblock-parser.js). One forward pass over the
// non-empty lines after the name puts each line into the buffer of the
// current block, or into `freeLines` while there is no current block.
module FallbackSegmenter {
  import opened Text
  import SbiRegex
  import FallbackText

  /** `BLOCK_IDS`. */
  datatype Block =
    | Armor | Actions | Abilities | BonusActions | Challenge | ConditionImmunities | DamageImmunities
    | DamageResistances | DamageVulnerabilities | Features | Health | LairActions | Languages
    | LegendaryActions | Reactions | SavingThrows | Senses | Skills | Speed | Souls | Race | Traits
    | UtilitySpells | VillainActions

  /** `TOP_BLOCK_IDS`: the blocks of the statistics region at the top of a statblock. */
  predicate IsTop(b: Block)
  {
    b == Armor || b == Abilities || b == Challenge || b == ConditionImmunities || b == DamageImmunities
    || b == DamageResistances || b == DamageVulnerabilities || b == Health || b == Languages
    || b == SavingThrows || b == Senses || b == Skills || b == Speed || b == Souls
  }

  /** The number of entries of `lineCheckRegexes`. */
  const EntryCount: nat := 24

  /** The block of entry `k` of `lineCheckRegexes`; "mythic actions" is filed under legendary actions. */
  function EntryId(k: nat): Block
  {
    match k
    case 0 => Armor
    case 1 => Actions
    case 2 => Abilities
    case 3 => BonusActions
    case 4 => Challenge
    case 5 => ConditionImmunities
    case 6 => DamageImmunities
    case 7 => DamageResistances
    case 8 => DamageVulnerabilities
    case 9 => Health
    case 10 => LairActions
    case 11 => Languages
    case 12 => LegendaryActions
    case 13 => LegendaryActions
    case 14 => Reactions
    case 15 => SavingThrows
    case 16 => Senses
    case 17 => Skills
    case 18 => Souls
    case 19 => Speed
    case 20 => Traits
    case 21 => UtilitySpells
    case 22 => VillainActions
    case _ => Race
  }

  // ----- the entry patterns, on the line in lower case -----

  /** `\s\d` at position `i`. */
  predicate SpaceThenDigit(l: string, i: nat) { i + 1 < |l| && IsSpace(l[i]) && IsDigit(l[i + 1]) }

  /** `^w\s`: the header word followed by one whitespace character. */
  predicate HeaderThenSpace(l: string, w: string) { SbiRegex.TextAt(l, 0, w) && SbiRegex.SpaceAt(l, |w|) }

  /** `^(challenge|\bcr\b|challenge rating)\s\d+` */
  predicate ChallengeEntry(l: string)
  {
    (SbiRegex.TextAt(l, 0, "challenge") && SpaceThenDigit(l, 9))
    || (SbiRegex.TextAt(l, 0, "cr") && SpaceThenDigit(l, 2))
    || (SbiRegex.TextAt(l, 0, "challenge rating") && SpaceThenDigit(l, 16))
  }

  /** `^(saving throws|saves)\s(\bstr\b|…|\bcha\b)` */
  predicate SavesEntry(l: string)
  {
    (SbiRegex.TextAt(l, 0, "saving throws") && SbiRegex.SpaceAt(l, 13) && SbiRegex.WordFromAt(l, 14, SbiRegex.SaveAbbreviations))
    || (SbiRegex.TextAt(l, 0, "saves") && SbiRegex.SpaceAt(l, 5) && SbiRegex.WordFromAt(l, 6, SbiRegex.SaveAbbreviations))
  }

  /** `^speed\s\d+\sft` */
  predicate SpeedEntry(l: string)
  {
    SbiRegex.TextAt(l, 0, "speed") && SbiRegex.SpaceAt(l, 5) &&
    var d := SkipWhileFrom(l, 6, IsDigit);
    d > 6 && SbiRegex.SpaceAt(l, d) && SbiRegex.TextAt(l, d + 1, "ft")
  }

  const SizeWords: seq<string> := ["fine", "diminutive", "tiny", "small", "medium", "large", "huge", "gargantuan"]

  /**
   * `^\(?(size)(\sswarm of (\w+))?\s(\w+)…`: everything after the type word is
   * optional, and the swarm part never changes the verdict (when it is left
   * out, "swarm" itself is the type word), so the pattern accepts an optional
   * "(", a size word, one whitespace character and a word character.
   */
  predicate RaceEntry(l: string)
  {
    var j := if l != [] && l[0] == '(' then 1 else 0;
    exists k :: 0 <= k < |SizeWords| && SbiRegex.TextAt(l, j, SizeWords[k])
      && SbiRegex.SpaceAt(l, j + |SizeWords[k]|) && j + |SizeWords[k]| + 1 < |l| && IsWord(l[j + |SizeWords[k]| + 1])
  }

  /** Whether entry `k` of `lineCheckRegexes` matches the line (all of them ignore case). */
  predicate EntryMatches(k: nat, line: string)
  {
    var l := Lower(line);
    match k
    case 0 => (SbiRegex.TextAt(l, 0, "armor class") && SpaceThenDigit(l, 11)) || (SbiRegex.TextAt(l, 0, "armour class") && SpaceThenDigit(l, 12))
    case 1 => l == "actions"
    case 2 => SbiRegex.StartsWithWordFrom(l, SbiRegex.SaveAbbreviations)
    case 3 => l == "bonus actions"
    case 4 => ChallengeEntry(l)
    case 5 => HeaderThenSpace(l, "condition immunities")
    case 6 => HeaderThenSpace(l, "damage immunities")
    case 7 => HeaderThenSpace(l, "damage resistances")
    case 8 => HeaderThenSpace(l, "damage vulnerabilities")
    case 9 => (SbiRegex.TextAt(l, 0, "hit points") && SpaceThenDigit(l, 10)) || (SbiRegex.TextAt(l, 0, "hp") && SpaceThenDigit(l, 2))
    case 10 => l == "lair actions"
    case 11 => HeaderThenSpace(l, "languages")
    case 12 => l == "legendary actions"
    case 13 => l == "mythic actions"
    case 14 => l == "reactions"
    case 15 => SavesEntry(l)
    // `( passive)?(.+\d+\s\bft\b)?` is optional as a whole
    case 16 => SbiRegex.TextAt(l, 0, "senses")
    case 17 => SbiRegex.SkillsLine(l)
    case 18 => SbiRegex.TextAt(l, 0, "souls") && SpaceThenDigit(l, 5)
    case 19 => SpeedEntry(l)
    case 20 => l == "traits"
    case 21 => l == "utility spells"
    case 22 => l == "villain actions"
    case 23 => RaceEntry(l)
    case _ => false
  }

  /**
   * What the loop consults: whether entry `k` matches a line, and the
   * entry-title test. The segmenter's properties hold for any such tests;
   * `FallbackTests` are the parser's own.
   */
  datatype Tests = Tests(matches: (nat, string) -> bool, title: string -> bool)

  /** `lineCheckRegexes` and `sbiRegex.blockTitle`. */
  const FallbackTests: Tests := Tests((k: nat, line: string) => EntryMatches(k, line), FallbackText.FallbackTitle)

  // ----- getFirstMatch -----

  /** Entry `k` matches the line and its block is not excluded. */
  predicate Candidate(tests: Tests, k: nat, line: string, excluded: set<Block>)
  {
    EntryId(k) !in excluded && tests.matches(k, line)
  }

  /** The first candidate entry at or after entry `k`. */
  function FirstEntry(tests: Tests, line: string, excluded: set<Block>, k: nat): (r: Option<nat>)
    requires k <= EntryCount
    decreases EntryCount - k
    ensures r.Some? ==> k <= r.value < EntryCount && Candidate(tests, r.value, line, excluded)
  {
    if k == EntryCount then None
    else if Candidate(tests, k, line, excluded) then Some(k)
    else FirstEntry(tests, line, excluded, k + 1)
  }

  /** The entry found is the first candidate, and there is none only when no entry is a candidate. */
  lemma {:induction false} FirstEntryIsFirst(tests: Tests, line: string, excluded: set<Block>, k: nat)
    requires k <= EntryCount
    decreases EntryCount - k
    ensures var r := FirstEntry(tests, line, excluded, k);
      r.Some? ==> forall j :: k <= j < r.value ==> !Candidate(tests, j, line, excluded)
    ensures FirstEntry(tests, line, excluded, k).None? <==> forall j :: k <= j < EntryCount ==> !Candidate(tests, j, line, excluded)
  {
    if k < EntryCount && !Candidate(tests, k, line, excluded) {
      FirstEntryIsFirst(tests, line, excluded, k + 1);
      assert FirstEntry(tests, line, excluded, k) == FirstEntry(tests, line, excluded, k + 1);
    }
  }

  /**
   * `getFirstMatch(line, excludeIds)`: the block of the first entry that
   * matches and whose block is not excluded, None when there is none.
   */
  function FirstMatch(tests: Tests, line: string, excluded: set<Block>): (r: Option<Block>)
    ensures r.Some? ==> r.value !in excluded
  {
    match FirstEntry(tests, line, excluded, 0)
    case None => None
    case Some(k) => Some(EntryId(k))
  }

  // ----- the loop's state and one step -----

  /**
   * The loop's state: the `statBlocks` map (its keys in insertion order kept
   * beside it), `lastBlockId`, `foundTopBlock`, `foundAbilityLine` and the
   * monster's `freeLines`.
   */
  datatype SegState = SegState(
    blocks: map<Block, seq<string>>,
    order: seq<Block>,
    last: Option<Block>,
    foundTop: bool,
    foundAbility: bool,
    freeLines: seq<string>)

  /** The state before the first line. */
  const Start: SegState := SegState(map[], [], None, true, false, [])

  /** `if (!statBlocks.has(b)) statBlocks.set(b, [])`. */
  function OpenNew(st: SegState, b: Block): SegState
  {
    if b in st.blocks then st else st.(blocks := st.blocks[b := []], order := st.order + [b])
  }

  /**
   * The implicit `features` block: an unmatched line in the top region that
   * is an entry title leaves the top region and makes `features` current,
   * creating its buffer when there is none.
   */
  function FeaturesFallback(tests: Tests, st: SegState, line: string, m: Option<Block>): SegState
  {
    if m.None? && st.foundTop && tests.title(line) then OpenNew(st.(foundTop := false, last := Some(Features)), Features)
    else st
  }

  /**
   * A match sets the top-region flag from the block, ends an ability run
   * unless it is `abilities`, and outside an ability run makes its block
   * current, creating its buffer.
   */
  function OpenMatch(st: SegState, m: Option<Block>): SegState
  {
    if m.None? then st
    else
      var s := st.(foundTop := IsTop(m.value), foundAbility := st.foundAbility && m.value == Abilities);
      if s.foundAbility then s
      else OpenNew(s.(last := m), m.value).(foundAbility := m.value == Abilities)
  }

  /** The exact line "Racial Details" makes `race` current when it has no buffer yet. */
  function RacialHeading(st: SegState, line: string): SegState
  {
    if line == "Racial Details" && Race !in st.blocks then OpenNew(st.(last := Some(Race)), Race) else st
  }

  /** The line goes to the current block's buffer, or to `freeLines` when there is none. */
  function Push(st: SegState, line: string): SegState
  {
    if st.last.Some? && st.last.value in st.blocks then
      st.(blocks := st.blocks[st.last.value := st.blocks[st.last.value] + [line]])
    else st.(freeLines := st.freeLines + [line])
  }

  /** One iteration of the loop: the line is matched against the entries not yet seen. */
  function Step(tests: Tests, st: SegState, line: string): SegState
  {
    var m := FirstMatch(tests, line, st.blocks.Keys);
    Push(RacialHeading(OpenMatch(FeaturesFallback(tests, st, line, m), m), line), line)
  }

  /** The state after the first `n` lines. */
  function Run(tests: Tests, lines: seq<string>, n: nat): SegState
    requires n <= |lines|
  {
    if n == 0 then Start else Step(tests, Run(tests, lines, n - 1), lines[n - 1])
  }

  // ----- the invariant -----

  /** No block is listed twice. */
  predicate Distinct(order: seq<Block>)
  {
    forall k, j :: 0 <= k < j < |order| ==> order[k] != order[j]
  }

  /** The key order lists each key of the map exactly once. */
  predicate OrderOk(st: SegState)
  {
    (forall b :: b in st.blocks <==> b in st.order) && Distinct(st.order)
  }

  /**
   * The invariant of the pass: the key order is right; there is a current
   * block exactly when some buffer exists, and it has a buffer; an ability
   * run is only open while `abilities` has a buffer.
   */
  predicate Valid(st: SegState)
  {
    OrderOk(st)
    && (st.last.Some? <==> st.order != [])
    && (st.last.Some? ==> st.last.value in st.blocks)
    && (st.foundAbility ==> Abilities in st.blocks)
  }

  /**
   * `r` is `st` with the same free lines, every buffer kept as it was, and
   * possibly new empty buffers listed after the old keys.
   */
  predicate Extends(st: SegState, r: SegState)
  {
    (forall b :: b in st.blocks ==> b in r.blocks && r.blocks[b] == st.blocks[b])
    && (forall b :: b in r.blocks && b !in st.blocks ==> r.blocks[b] == [])
    && st.order <= r.order
    && r.freeLines == st.freeLines
  }

  lemma ExtendsTrans(a: SegState, b: SegState, c: SegState)
    requires Extends(a, b) && Extends(b, c)
    ensures Extends(a, c)
  {
  }

  lemma StartValid()
    ensures Valid(Start)
  {
  }

  lemma OpenNewKeeps(st: SegState, b: Block)
    ensures Extends(st, OpenNew(st, b))
    ensures OrderOk(st) ==> OrderOk(OpenNew(st, b))
  {
  }

  lemma FeaturesKeeps(tests: Tests, st: SegState, line: string, m: Option<Block>)
    requires Valid(st)
    ensures Valid(FeaturesFallback(tests, st, line, m)) && Extends(st, FeaturesFallback(tests, st, line, m))
  {
    if m.None? && st.foundTop && tests.title(line) {
      OpenNewKeeps(st.(foundTop := false, last := Some(Features)), Features);
    }
  }

  lemma OpenMatchKeeps(st: SegState, m: Option<Block>)
    requires Valid(st)
    ensures Valid(OpenMatch(st, m)) && Extends(st, OpenMatch(st, m))
  {
    if m.Some? {
      var s := st.(foundTop := IsTop(m.value), foundAbility := st.foundAbility && m.value == Abilities);
      if !s.foundAbility {
        OpenNewKeeps(s.(last := m), m.value);
      }
    }
  }

  lemma RacialHeadingKeeps(st: SegState, line: string)
    requires Valid(st)
    ensures Valid(RacialHeading(st, line)) && Extends(st, RacialHeading(st, line))
  {
    if line == "Racial Details" && Race !in st.blocks {
      OpenNewKeeps(st.(last := Some(Race)), Race);
    }
  }

  /** The state after the decisions and before the line is buffered. */
  function Decided(tests: Tests, st: SegState, line: string): SegState
  {
    var m := FirstMatch(tests, line, st.blocks.Keys);
    RacialHeading(OpenMatch(FeaturesFallback(tests, st, line, m), m), line)
  }

  lemma DecidedKeeps(tests: Tests, st: SegState, line: string)
    requires Valid(st)
    ensures Valid(Decided(tests, st, line)) && Extends(st, Decided(tests, st, line))
  {
    var m := FirstMatch(tests, line, st.blocks.Keys);
    var s1 := FeaturesFallback(tests, st, line, m);
    var s2 := OpenMatch(s1, m);
    FeaturesKeeps(tests, st, line, m);
    OpenMatchKeeps(s1, m);
    RacialHeadingKeeps(s2, line);
    ExtendsTrans(st, s1, s2);
    ExtendsTrans(st, s2, RacialHeading(s2, line));
  }

  lemma PushValid(st: SegState, line: string)
    requires Valid(st)
    ensures Valid(Push(st, line))
  {
  }

  /** Each step keeps the invariant. */
  lemma StepValid(tests: Tests, st: SegState, line: string)
    requires Valid(st)
    ensures Valid(Step(tests, st, line))
  {
    DecidedKeeps(tests, st, line);
    PushValid(Decided(tests, st, line), line);
  }

  /** The pass over `n` lines is one step after the pass over `n - 1`. */
  lemma RunStep(tests: Tests, lines: seq<string>, n: nat)
    requires 0 < n <= |lines|
    ensures Run(tests, lines, n) == Step(tests, Run(tests, lines, n - 1), lines[n - 1])
  {
  }

  // ----- every line goes to exactly one place -----

  /** The lines held by the buffers of the blocks listed in `order`. */
  function Placed(blocks: map<Block, seq<string>>, order: seq<Block>): multiset<string>
  {
    if order == [] then multiset{}
    else
      var b := order[|order| - 1];
      Placed(blocks, order[..|order| - 1]) + (if b in blocks then multiset(blocks[b]) else multiset{})
  }

  /** Buffers of blocks not listed do not count. */
  lemma {:induction false} PlacedFrame(blocks: map<Block, seq<string>>, order: seq<Block>, b: Block, v: seq<string>)
    requires b !in order
    ensures Placed(blocks[b := v], order) == Placed(blocks, order)
  {
    if order != [] {
      PlacedFrame(blocks, order[..|order| - 1], b, v);
    }
  }

  /** Buffers that agree on the listed blocks hold the same lines. */
  lemma {:induction false} PlacedSame(a: map<Block, seq<string>>, c: map<Block, seq<string>>, order: seq<Block>)
    requires forall b :: b in order ==> (b in a <==> b in c) && (b in a ==> a[b] == c[b])
    ensures Placed(a, order) == Placed(c, order)
  {
    if order != [] {
      PlacedSame(a, c, order[..|order| - 1]);
    }
  }

  lemma DistinctInit(order: seq<Block>)
    requires order != [] && Distinct(order)
    ensures Distinct(order[..|order| - 1]) && order[|order| - 1] !in order[..|order| - 1]
  {
  }

  /** Adding a line to the buffer of a block listed once adds it once. */
  lemma {:induction false} PlacedAppend(blocks: map<Block, seq<string>>, order: seq<Block>, b: Block, line: string)
    requires b in blocks && b in order && Distinct(order)
    ensures Placed(blocks[b := blocks[b] + [line]], order) == Placed(blocks, order) + multiset{line}
  {
    var init := order[..|order| - 1];
    var c := order[|order| - 1];
    var blocks' := blocks[b := blocks[b] + [line]];
    DistinctInit(order);
    if c == b {
      PlacedFrame(blocks, init, b, blocks[b] + [line]);
      assert multiset(blocks'[b]) == multiset(blocks[b]) + multiset{line};
    } else {
      assert b in init;
      PlacedAppend(blocks, init, b, line);
    }
  }

  /** Opening empty buffers adds nothing. */
  lemma ExtendsPlaced(st: SegState, r: SegState)
    requires OrderOk(st) && OrderOk(r) && Extends(st, r)
    ensures AllPlaced(r) == AllPlaced(st)
  {
    PlacedAfter(r.blocks, st.order, r.order);
    PlacedSame(st.blocks, r.blocks, st.order);
  }

  /** Listing more blocks whose buffers are empty adds nothing. */
  lemma {:induction false} PlacedAfter(blocks: map<Block, seq<string>>, order: seq<Block>, longer: seq<Block>)
    requires order <= longer
    requires forall k :: |order| <= k < |longer| ==> longer[k] !in blocks || blocks[longer[k]] == []
    ensures Placed(blocks, longer) == Placed(blocks, order)
  {
    if |longer| > |order| {
      var init := longer[..|longer| - 1];
      assert order <= init;
      PlacedAfter(blocks, order, init);
    } else {
      assert longer == order;
    }
  }

  /** The lines of all buffers together with the free lines. */
  function AllPlaced(st: SegState): multiset<string>
  {
    Placed(st.blocks, st.order) + multiset(st.freeLines)
  }

  lemma PushPlaced(st: SegState, line: string)
    requires Valid(st)
    ensures AllPlaced(Push(st, line)) == AllPlaced(st) + multiset{line}
  {
    if st.last.Some? && st.last.value in st.blocks {
      PlacedAppend(st.blocks, st.order, st.last.value, line);
    }
  }

  /** Each step places its line exactly once: in one buffer or among the free lines. */
  lemma StepPlaced(tests: Tests, st: SegState, line: string)
    requires Valid(st)
    ensures AllPlaced(Step(tests, st, line)) == AllPlaced(st) + multiset{line}
  {
    var d := Decided(tests, st, line);
    DecidedKeeps(tests, st, line);
    ExtendsPlaced(st, d);
    PushPlaced(d, line);
  }

  // ----- buffers only grow, and free lines come first -----

  /** `r` extends `st`: no key is lost, every buffer and the free lines only grow, the key order only grows. */
  predicate Grows(st: SegState, r: SegState)
  {
    (forall b :: b in st.blocks ==> b in r.blocks && st.blocks[b] <= r.blocks[b])
    && st.order <= r.order
    && st.freeLines <= r.freeLines
  }

  /** A step only adds: no buffer is ever replaced, so no line once placed is dropped. */
  lemma StepGrows(tests: Tests, st: SegState, line: string)
    requires Valid(st)
    ensures Grows(st, Step(tests, st, line))
  {
    DecidedKeeps(tests, st, line);
  }

  /** While no block is open the line is free; once one is, the free lines stay as they are. */
  lemma FreeLinesStep(tests: Tests, st: SegState, line: string, r: SegState)
    requires Valid(st) && r == Step(tests, st, line)
    ensures r.order == [] ==> st.order == [] && r.freeLines == st.freeLines + [line]
    ensures r.order != [] ==> r.freeLines == st.freeLines
  {
    DecidedKeeps(tests, st, line);
  }

  /** The free lines are the first lines of the input, all `n` read so far while no block is open. */
  predicate FreePrefix(st: SegState, lines: seq<string>, n: nat)
  {
    |st.freeLines| <= n <= |lines| && (forall k :: 0 <= k < |st.freeLines| ==> st.freeLines[k] == lines[k])
    && (st.order == [] ==> |st.freeLines| == n)
  }

  /** What a step does to the free lines keeps them the prefix of the input read so far. */
  lemma FreeLinesNext(st: SegState, r: SegState, lines: seq<string>, n: nat)
    requires 0 < n <= |lines| && FreePrefix(st, lines, n - 1)
    requires r.order == [] ==> st.order == [] && r.freeLines == st.freeLines + [lines[n - 1]]
    requires r.order != [] ==> r.freeLines == st.freeLines
    ensures FreePrefix(r, lines, n)
  {
  }

  /** What holds after the first `n` lines: the invariant, every line placed once, the free lines first. */
  predicate Sound(st: SegState, lines: seq<string>, n: nat)
    requires n <= |lines|
  {
    Valid(st) && AllPlaced(st) == multiset(lines[..n]) && FreePrefix(st, lines, n)
  }

  /** A successor that keeps the invariant, places its line once and treats free lines as a step does stays sound. */
  lemma SoundNext(st: SegState, r: SegState, lines: seq<string>, n: nat)
    requires 0 < n <= |lines| && Sound(st, lines, n - 1) && Valid(r)
    requires AllPlaced(r) == AllPlaced(st) + multiset{lines[n - 1]}
    requires r.order == [] ==> st.order == [] && r.freeLines == st.freeLines + [lines[n - 1]]
    requires r.order != [] ==> r.freeLines == st.freeLines
    ensures Sound(r, lines, n)
  {
    FreeLinesNext(st, r, lines, n);
    assert lines[..n] == lines[..n - 1] + [lines[n - 1]];
  }

  lemma SoundStep(tests: Tests, st: SegState, lines: seq<string>, n: nat)
    requires 0 < n <= |lines| && Sound(st, lines, n - 1)
    ensures Sound(Step(tests, st, lines[n - 1]), lines, n)
  {
    var r := Step(tests, st, lines[n - 1]);
    StepValid(tests, st, lines[n - 1]);
    StepPlaced(tests, st, lines[n - 1]);
    FreeLinesStep(tests, st, lines[n - 1], r);
    SoundNext(st, r, lines, n);
  }

  lemma {:induction false} RunSound(tests: Tests, lines: seq<string>, n: nat)
    requires n <= |lines|
    ensures Sound(Run(tests, lines, n), lines, n)
  {
    if n == 0 {
      StartValid();
    } else {
      RunSound(tests, lines, n - 1);
      SoundStep(tests, Run(tests, lines, n - 1), lines, n);
    }
  }

  /**
   * After the pass every line is in exactly one place: the buffers and the
   * free lines together hold each line as often as the input does.
   */
  lemma RunPlaced(tests: Tests, lines: seq<string>)
    ensures AllPlaced(Run(tests, lines, |lines|)) == multiset(lines)
  {
    RunSound(tests, lines, |lines|);
    assert lines[..|lines|] == lines;
  }

  /**
   * The free lines are the lines before the first block opens: they are a
   * prefix of the input, all of it when no block ever opens.
   */
  lemma FreeLinesFirst(tests: Tests, lines: seq<string>)
    ensures var q := Run(tests, lines, |lines|);
      q.freeLines <= lines && (q.order == [] ==> q.freeLines == lines)
  {
    RunSound(tests, lines, |lines|);
  }

  // ----- what a step does -----

  /**
   * A matched line starts its block: the block had no buffer (seen blocks are
   * excluded), it becomes current, and its buffer is the line alone. So a
   * block seen once is never matched again, and an open ability run never
   * keeps a match from opening its block.
   */
  lemma MatchStartsBlock(tests: Tests, st: SegState, line: string, b: Block)
    requires Valid(st) && line != "Racial Details"
    requires FirstMatch(tests, line, st.blocks.Keys) == Some(b)
    ensures b !in st.blocks
    ensures var r := Step(tests, st, line);
      r.last == Some(b) && b in r.blocks && r.blocks[b] == [line] && r.order == st.order + [b]
      && r.foundTop == IsTop(b) && r.foundAbility == (b == Abilities)
  {
  }

  /**
   * An unmatched line in the top region that is an entry title leaves the
   * top region and goes to the `features` buffer, after the lines it already
   * holds.
   */
  lemma TitleJoinsFeatures(tests: Tests, st: SegState, line: string)
    requires Valid(st) && line != "Racial Details"
    requires FirstMatch(tests, line, st.blocks.Keys).None? && st.foundTop && tests.title(line)
    ensures var r := Step(tests, st, line);
      r.last == Some(Features) && !r.foundTop && Features in r.blocks
      && r.blocks[Features] == (if Features in st.blocks then st.blocks[Features] else []) + [line]
  {
  }

  /**
   * Any other unmatched line continues the current block: an ability line
   * that matches nothing stays with the ability lines before it.
   */
  lemma UnmatchedContinues(tests: Tests, st: SegState, line: string)
    requires Valid(st) && line != "Racial Details" && st.last.Some?
    requires FirstMatch(tests, line, st.blocks.Keys).None? && !(st.foundTop && tests.title(line))
    ensures var r := Step(tests, st, line);
      r.last == st.last && r.blocks == st.blocks[st.last.value := st.blocks[st.last.value] + [line]]
      && r.freeLines == st.freeLines
  {
  }

  /** "Racial Details", matching nothing, opens the `race` buffer once, holding that line. */
  lemma RacialDetailsOpensRace(tests: Tests, st: SegState, line: string)
    requires Valid(st) && Race !in st.blocks && line == "Racial Details"
    requires FirstMatch(tests, line, st.blocks.Keys).None? && !(st.foundTop && tests.title(line))
    ensures var r := Step(tests, st, line);
      r.last == Some(Race) && r.blocks == st.blocks[Race := [line]]
  {
    var d := Decided(tests, st, line);
    assert d.last == Some(Race) && d.blocks == st.blocks[Race := []];
    assert [] + [line] == [line];
  }

  // ----- the loop -----

  /**
   * The segmentation loop of `parse5eStatblockToOpen5e` over the lines after
   * the name, from no buffers, in the top region.
   */
  method Segment(tests: Tests, lines: seq<string>) returns (statBlocks: map<Block, seq<string>>, keys: seq<Block>, freeLines: seq<string>)
    ensures var st := Run(tests, lines, |lines|);
      statBlocks == st.blocks && keys == st.order && freeLines == st.freeLines
    ensures Placed(statBlocks, keys) + multiset(freeLines) == multiset(lines)
    ensures freeLines <= lines
    ensures (forall b :: b in statBlocks <==> b in keys) && Distinct(keys)
  {
    statBlocks, keys, freeLines := map[], [], [];
    var lastBlockId: Option<Block> := None;
    var foundAbilityLine := false;
    var foundTopBlock := true;
    var i := 0;
    while i < |lines|
      invariant i <= |lines|
      invariant SegState(statBlocks, keys, lastBlockId, foundTopBlock, foundAbilityLine, freeLines) == Run(tests, lines, i)
    {
      var st := SegState(statBlocks, keys, lastBlockId, foundTopBlock, foundAbilityLine, freeLines);
      st := TakeLine(tests, st, lines[i]);
      RunStep(tests, lines, i + 1);
      statBlocks, keys, lastBlockId, foundTopBlock, foundAbilityLine, freeLines :=
        st.blocks, st.order, st.last, st.foundTop, st.foundAbility, st.freeLines;
      i := i + 1;
    }
    RunSound(tests, lines, |lines|);
    RunPlaced(tests, lines);
    FreeLinesFirst(tests, lines);
  }

  /** One iteration of the loop, its decisions taken in the order of the source. */
  method TakeLine(tests: Tests, st: SegState, line: string) returns (r: SegState)
    ensures r == Step(tests, st, line)
  {
    var matched := FirstMatch(tests, line, st.blocks.Keys);
    r := st;
    if matched.None? && r.foundTop && tests.title(line) {
      r := r.(foundTop := false, last := Some(Features));
      if Features !in r.blocks {
        r := r.(blocks := r.blocks[Features := []], order := r.order + [Features]);
      }
    }
    assert r == FeaturesFallback(tests, st, line, matched);
    ghost var s1 := r;
    if matched.Some? {
      r := r.(foundTop := IsTop(matched.value));
      if r.foundAbility && matched.value != Abilities {
        r := r.(foundAbility := false);
      }
      if !r.foundAbility {
        r := r.(last := matched);
        if matched.value !in r.blocks {
          r := r.(blocks := r.blocks[matched.value := []], order := r.order + [matched.value]);
        }
        r := r.(foundAbility := matched.value == Abilities);
      }
    }
    assert r == OpenMatch(s1, matched);
    ghost var s2 := r;
    if line == "Racial Details" && Race !in r.blocks {
      r := r.(last := Some(Race), blocks := r.blocks[Race := []], order := r.order + [Race]);
    }
    assert r == RacialHeading(s2, line);
    if r.last.Some? && r.last.value in r.blocks {
      r := r.(blocks := r.blocks[r.last.value := r.blocks[r.last.value] + [line]]);
    } else {
      r := r.(freeLines := r.freeLines + [line]);
    }
  }

  /**
   * The lines of the pass: the raw text with "\r\n" turned into "\n", split
   * on "\n", each line trimmed, the empty ones dropped.
   */
  function CrLfToLf(s: string): (r: string)
    ensures |r| <= |s|
  {
    if |s| >= 2 && s[0] == '\r' && s[1] == '\n' then "\n" + CrLfToLf(s[2..])
    else if s == [] then [] else [s[0]] + CrLfToLf(s[1..])
  }

  function TrimmedLines(text: string): (r: seq<string>)
    ensures forall k :: 0 <= k < |r| ==> r[k] != []
  {
    var split := Split(CrLfToLf(text), '\n');
    FallbackText.NonEmpty(seq(|split|, k requires 0 <= k < |split| => Trim(split[k])))
  }
}
