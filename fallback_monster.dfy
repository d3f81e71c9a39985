// `MonsterData` of the fallback statblock parser
// (scripts/monster-creator-statblock-parser.js) as an object whose setters
// update its fields in place, and `parse5eStatblockToOpen5e` up to the
// record those setters fill. Each method is proved to leave the record that
// the matching function of fallback_fields.dfy computes.
module FallbackMonster {
  import opened Text
  import opened FallbackText
  import opened FallbackSegmenter
  import opened FallbackFields

  /**
   * `MonsterData`, with the fields a setter fills together kept in one
   * record: `defences` holds the four damage and condition lists and their
   * special texts, `racial` the fields `getRacialDetails` writes, `entries`
   * the lists `applyActionLines` writes. Writing one of those properties is
   * an update of one field of its record.
   */
  class MonsterData {
    var name: string
    var abilities: seq<int>
    var challenge: Option<ChallengeRating>
    var movement: Movement
    var defences: Defences
    var racial: Racial
    var entries: Entries
    var freeLines: seq<string>

    /** The record the fields hold. */
    function State(): Monster
      reads this
    {
      Monster(name, abilities, challenge, movement, defences, racial, entries, freeLines)
    }

    /** The six ability scores are always there. */
    predicate Valid()
      reads this
    {
      |abilities| == 6
    }

    constructor(name: string)
      ensures Valid() && State() == Fresh(name)
    {
      this.name := name;
      abilities := [10, 10, 10, 10, 10, 10];
      challenge := None;
      movement := Movement([], map[]);
      defences := Defences([], [], [], [], None, None, None, None);
      racial := Racial(None, None, None, None, None);
      entries := Entries([], [], [], [], [], [], []);
      freeLines := [];
    }

    /**
     * The collecting loop of the abilities setter: names and scores line by
     * line, stopping after the line that brings the scores to six or more.
     */
    static method GatherAbilities(lines: seq<string>) returns (foundNames: seq<string>, foundValues: seq<nat>)
      ensures (foundNames, foundValues) == Gathered(lines)
    {
      foundNames, foundValues := [], [];
      ghost var j := StopAt(lines, 0);
      var i := 0;
      while i < |lines|
        invariant i <= |lines| && StopAt(lines, i) == j
        invariant foundNames == AllNames(lines[..i]) && foundValues == AllValues(lines[..i])
      {
        foundNames := foundNames + NamesFrom(lines[i], 0);
        foundValues := foundValues + ValuesFrom(lines[i], 0);
        assert lines[..i + 1][..i] == lines[..i];
        assert foundNames == AllNames(lines[..i + 1]) && foundValues == AllValues(lines[..i + 1]);
        i := i + 1;
        if |foundValues| >= 6 {
          assert i == j;
          break;
        }
      }
      assert i == j;
    }

    /**
     * The abilities setter: collect names and scores line by line, stopping
     * after the line that brings the scores to six or more, then assign the
     * scores by position.
     */
    method SetAbilities(lines: seq<string>)
      requires Valid()
      modifies this`abilities
      ensures Valid() && abilities == FallbackFields.SetAbilities(old(abilities), lines)
    {
      var foundNames, foundValues := GatherAbilities(lines);
      if foundNames == [] || foundValues == [] {
        return;
      }
      var n := if |foundNames| < |foundValues| then |foundNames| else |foundValues|;
      var count := if n < 6 then n else 6;
      ghost var scores := abilities;
      for k := 0 to count
        invariant |abilities| == 6
        invariant forall x :: 0 <= x < 6 ==> abilities[x] == if x < k then foundValues[x] as int else scores[x]
      {
        abilities := abilities[k := foundValues[k]];
      }
      assert abilities == seq(6, x requires 0 <= x < 6 => if x < count then foundValues[x] as int else scores[x]);
    }

    /** The speed setter: each match with a non-zero value is pushed and recorded under its name. */
    method SetSpeed(lines: seq<string>)
      modifies this`movement
      ensures movement == FallbackFields.SetSpeed(old(movement), lines)
    {
      var matches := SpeedsFrom(CombineToString(lines), 0);
      if matches == [] {
        assert movement.speeds + [] == movement.speeds;
        return;
      }
      for k := 0 to |matches|
        invariant movement.speeds == old(movement.speeds) + SpeedEntries(matches[..k])
        invariant movement.speedAll == Record(old(movement.speedAll), SpeedEntries(matches[..k]))
      {
        ghost var es := SpeedEntries(matches[..k]);
        EntriesStep(matches, k);
        var name := Lower(matches[k].name);
        var value := DigitsValue(matches[k].digits);
        if name == [] || value == 0 {
          assert SpeedOf(matches[k]).None?;
          continue;
        }
        var key := if name == "speed" then "walk" else name;
        var entry := SpeedEntry(key, value);
        assert SpeedOf(matches[k]) == Some(entry);
        RecordStep(old(movement.speedAll), es, entry);
        assert old(movement.speeds) + es + [entry] == old(movement.speeds) + (es + [entry]);
        movement := Movement(movement.speeds + [entry], movement.speedAll[key := value]);
      }
      assert matches[..|matches|] == matches;
    }

    /** The challenge setter. */
    method SetChallenge(lines: seq<string>)
      modifies this`challenge
      ensures challenge == FallbackFields.SetChallenge(old(challenge), lines)
    {
      var parsed := ParseChallenge(CombineToString(lines));
      if parsed.Some? {
        challenge := parsed;
      }
    }

    /** `parseDamageOrConditionLine(lines, type, monster)`. */
    method ParseDefence(lines: seq<string>, d: Defence)
      modifies this`defences
      ensures defences == SetDefence(old(defences), d, lines)
    {
      var line := CombineToString(lines);
      if line == [] {
        return;
      }
      var clean := CleanDefence(line);
      var tokens := Tokens(clean);
      var tokenValues := KnownFrom(clean, 0, KnownWords(d));
      var special := SpecialText(clean, d);
      WriteLists(d, tokenValues, special);
      if tokens != [] && tokenValues == [] {
        WriteLists(d, tokens, special);
      }
    }

    /** `monster[type] = list` and its special text. */
    method WriteLists(d: Defence, list: seq<string>, special: Option<string>)
      modifies this`defences
      ensures defences == WriteDefence(old(defences), d, list, special)
    {
      match d {
        case ConditionImmune =>
          defences := defences.(conditionImmunities := list, specialConditionImmunities := special);
        case DamageImmune =>
          defences := defences.(damageImmunities := list, specialDamageImmunities := special);
        case DamageResist =>
          defences := defences.(damageResistances := list, specialDamageResistances := special);
        case DamageVulnerable =>
          defences := defences.(damageVulnerabilities := list, specialDamageVulnerabilities := special);
      }
    }

    /** `getRacialDetails(line, monster)`. */
    method GetRacialDetails(line: string)
      modifies this`racial
      ensures racial == SetRacial(old(racial), line)
    {
      var groups := RacialMatch(line);
      if groups.None? {
        return;
      }
      var g := groups.value;
      racial := racial.(size := SafeString(Some(g.size), racial.size));
      racial := racial.(creatureType := SafeString(Some(g.creatureType), racial.creatureType));
      racial := racial.(alignment := SafeString(g.alignment, racial.alignment));
      racial := racial.(race := SafeString(g.race, None));
      assert racial == RacialFields(old(racial), g);
      var t := racial.creatureType;
      if t.Some? && Singular(t.value) != [] && Singular(t.value) in KnownTypes {
        racial := racial.(creatureType := Some(Singular(t.value)), customType := None);
      } else if t.Some? && t.value != [] {
        racial := racial.(customType := t);
      }
    }

    /** `applyActionLines(lines, type, monster)`. */
    method ApplyActionLines(lines: seq<string>, b: Block)
      modifies this`entries
      ensures entries == SetActions(old(entries), b, lines)
    {
      var blockLines := lines;
      if b != Features && blockLines != [] {
        blockLines := blockLines[1..];
      }
      if b == Features {
        var features := GetBlockDatas(blockLines);
        entries := entries.(features := features);
        return;
      }
      var values := GetBlockDatas(blockLines);
      StoreEntries(b, values);
    }

    /** The assignment at the end of `applyActionLines`, for a block other than `features`. */
    method StoreEntries(b: Block, values: seq<Entry>)
      requires b != Features
      modifies this`entries
      ensures entries == FallbackFields.StoreEntries(old(entries), b, values)
    {
      if b == Actions {
        entries := entries.(actions := values);
      } else if b == BonusActions {
        entries := entries.(bonusActions := values);
      } else if b == Reactions {
        entries := entries.(reactions := values);
      } else if b == LegendaryActions {
        entries := entries.(legendaryActions := values);
      } else if b == LairActions {
        entries := entries.(lairActions := values);
      } else if b == VillainActions {
        entries := entries.(villainActions := values);
      } else if b == Traits {
        entries := entries.(features := entries.features + values);
      }
    }

    /** The setter of one block, `features` and `race` as evidently intended. */
    method ApplyBlock(b: Block, lines: seq<string>)
      requires Valid()
      modifies this
      ensures Valid() && State() == FallbackFields.ApplyBlock(old(State()), b, lines)
    {
      ghost var m := State();
      if IsActionBlock(b) {
        ApplyActionLines(lines, b);
        assert State() == m.(entries := entries);
      } else if b == Race {
        GetRacialDetails(Join(DropHeading(lines), " "));
        assert State() == m.(racial := racial);
      } else if b == Challenge {
        SetChallenge(lines);
        assert State() == m.(challenge := challenge);
      } else if b == Abilities || b == Speed {
        ApplyScoreBlock(b, lines);
      } else {
        ApplyDefenceBlock(b, lines);
      }
    }

    /** The setters of the `abilities` and `speed` blocks. */
    method ApplyScoreBlock(b: Block, lines: seq<string>)
      requires Valid() && (b == Abilities || b == Speed)
      modifies this
      ensures Valid() && State() == FallbackFields.ApplyBlock(old(State()), b, lines)
    {
      ghost var m := State();
      if b == Abilities {
        SetAbilities(lines);
        assert State() == m.(abilities := abilities);
        FallbackFields.ApplyAbilitiesBlock(m, lines);
      } else {
        SetSpeed(lines);
        assert State() == m.(movement := movement);
        FallbackFields.ApplySpeedBlock(m, lines);
      }
    }

    /** The setters of the four defence blocks; the remaining blocks change nothing modelled here. */
    method ApplyDefenceBlock(b: Block, lines: seq<string>)
      requires Valid() && !IsActionBlock(b) && b != Race && b != Challenge && b != Abilities && b != Speed
      modifies this
      ensures Valid() && State() == FallbackFields.ApplyBlock(old(State()), b, lines)
    {
      ghost var m := State();
      match b {
        case ConditionImmunities =>
          ParseDefence(lines, ConditionImmune);
          assert State() == m.(defences := defences);
        case DamageImmunities =>
          ParseDefence(lines, DamageImmune);
          assert State() == m.(defences := defences);
        case DamageResistances =>
          ParseDefence(lines, DamageResist);
          assert State() == m.(defences := defences);
        case DamageVulnerabilities =>
          ParseDefence(lines, DamageVulnerable);
          assert State() == m.(defences := defences);
        case _ =>
      }
    }

    /** The setter of one block in the chosen variant: as written, `features` changes nothing and `race` keeps its heading. */
    method ApplySetter(v: Variant, b: Block, lines: seq<string>)
      requires Valid()
      modifies this
      ensures Valid() && State() == SetterOf(v, old(State()), b, lines)
    {
      ghost var m := State();
      if v == AsWritten && b == Features {
        FeaturesDroppedAsWritten(m, lines);
      } else if v == AsWritten && b == Race {
        GetRacialDetails(Join(lines, " "));
        assert State() == m.(racial := racial);
      } else {
        ApplyBlock(b, lines);
        if v == AsWritten {
          SettersAgree(m, b, lines);
        }
      }
    }

    /** The loop over the blocks, in the order their keys were first seen. */
    method ApplyAll(v: Variant, blocks: map<Block, seq<string>>, keys: seq<Block>)
      requires Valid() && forall b :: b in keys ==> b in blocks
      modifies this
      ensures Valid() && State() == FallbackFields.ApplyAll(v, old(State()), blocks, keys)
    {
      for i := 0 to |keys|
        invariant Valid() && State() == FallbackFields.ApplyAll(v, old(State()), blocks, keys[..i])
      {
        assert keys[..i + 1][..i] == keys[..i];
        ApplySetter(v, keys[i], blocks[keys[i]]);
      }
      assert keys[..|keys|] == keys;
    }
  }

  /** The racial-details fallback: without a `features` block, the first free line is read as the racial details. */
  function RacialFallback(m: Monster, blocks: map<Block, seq<string>>): (r: Monster)
    ensures Features in blocks || m.freeLines == [] ==> r == m
    ensures Features !in blocks && m.freeLines != [] ==> r.freeLines == m.freeLines[1..]
  {
    if Features !in blocks && m.freeLines != [] then
      m.(freeLines := m.freeLines[1..], racial := SetRacial(m.racial, m.freeLines[0]))
    else m
  }

  /**
   * The record `parse5eStatblockToOpen5e` fills: None without a non-empty
   * line; otherwise the first line is the name, the others are segmented,
   * the free lines kept, the racial fallback applied and every block's
   * setter run, as written or as corrected (`v`).
   */
  function ParsedMonster(v: Variant, tests: Tests, raw: string): (r: Option<Monster>)
    ensures r.None? <==> TrimmedLines(raw) == []
    ensures r.Some? ==> r.value.name == TrimmedLines(raw)[0]
  {
    var lines := TrimmedLines(raw);
    if lines == [] then None
    else
      var rest := lines[1..];
      var st := Run(tests, rest, |rest|);
      RunSound(tests, rest, |rest|);
      var m := RacialFallback(Fresh(lines[0]).(freeLines := st.freeLines), st.blocks);
      Some(ApplyAll(v, m, st.blocks, st.order))
  }

  /**
   * `parse5eStatblockToOpen5e(rawText)` up to the filled record, with the
   * line patterns and the title pattern as `tests` (`FallbackTests`); with
   * `v == AsWritten` the setters are those of the code as written.
   */
  method Parse5eStatblock(v: Variant, tests: Tests, raw: string) returns (monster: MonsterData?)
    ensures monster == null <==> TrimmedLines(raw) == []
    ensures monster != null ==> fresh(monster) && monster.Valid() && Some(monster.State()) == ParsedMonster(v, tests, raw)
  {
    var nonEmpty := TrimmedLines(raw);
    if nonEmpty == [] {
      return null;
    }
    monster := new MonsterData(nonEmpty[0]);
    var rest := nonEmpty[1..];
    var statBlocks, keys, freeLines := Segment(tests, rest);
    monster.freeLines := freeLines;
    ghost var segmented := monster.State();
    if Features !in statBlocks && monster.freeLines != [] {
      var maybeRacialLine := monster.freeLines[0];
      monster.freeLines := monster.freeLines[1..];
      monster.GetRacialDetails(maybeRacialLine);
    }
    assert monster.State() == RacialFallback(segmented, statBlocks);
    monster.ApplyAll(v, statBlocks, keys);
  }
}
