// The rendered statblock text (scripts/statblock-formatter.js):
// `formatActionLines` writes one "Name. Description." line per named entry,
// and `toWotcStatblockText` writes the eight header lines, the optional
// lines built from the special trait lists, and one section per non-empty
// list of traits or actions, in a fixed order, each opened by a blank line
// and its heading. The input is the creature after
// `normalizeMonsterShapeForWotc`.
module FormatterStatblock {
  import opened Text
  import opened Js
  import opened Formatter
  import opened FormatterText
  import FormatterMovement
  import opened FormatterTraits
  import FormatterAttacks

  // ----- entry lines -----

  /** No line is empty. */
  predicate NoBlank(lines: seq<string>)
  {
    forall k :: 0 <= k < |lines| ==> lines[k] != []
  }

  /** No section's line is empty. */
  predicate NoBlankSections(bodies: seq<seq<string>>)
  {
    forall i :: 0 <= i < |bodies| ==> NoBlank(bodies[i])
  }

  /** The lines that are not empty (`filter(Boolean)`), in order. */
  function Filled(lines: seq<string>): (r: seq<string>)
    ensures |r| <= |lines|
    ensures NoBlank(r)
  {
    if lines == [] then []
    else (if lines[0] == [] then [] else [lines[0]]) + Filled(lines[1..])
  }

  /** Filling keeps exactly the non-empty lines. */
  lemma {:induction false} FilledHas(lines: seq<string>, x: string)
    ensures x in Filled(lines) <==> x in lines && x != []
    decreases |lines|
  {
    if lines != [] {
      FilledHas(lines[1..], x);
      assert lines == [lines[0]] + lines[1..];
    }
  }

  /** Lines that are all non-empty are kept as they are. */
  lemma {:induction false} FilledOfFilled(lines: seq<string>)
    requires NoBlank(lines)
    ensures Filled(lines) == lines
    decreases |lines|
  {
    if lines != [] {
      FilledOfFilled(lines[1..]);
    }
  }

  /** A name and a sentence as a line: "Name." alone without the sentence, "Name. Sentence" with it; nothing without a name. */
  function EntryText(name: string, desc: string): (r: string)
  {
    if name == [] then ""
    else if desc == [] then name + "."
    else name + ". " + desc
  }

  /** The line is empty exactly when the name is, opens with the name and ".", and carries any text the sentence opens with. */
  lemma EntryTextShape(name: string, desc: string, d: string)
    requires d != [] ==> desc != [] && StartsWith(desc, d)
    ensures EntryText(name, desc) == [] <==> name == []
    ensures name != [] ==> StartsWith(EntryText(name, desc), name + ".")
    ensures name != [] && d != [] ==> StartsWith(EntryText(name, desc), name + ". " + d)
  {
    if name != [] {
      StartsWithAppend(name + ".", if desc == [] then "" else " " + desc);
      if d != [] {
        PrefixAfter(name + ". ", desc, d);
      }
    }
  }

  /**
   * One entry's line (`formatActionLines`): its title-cased name
   * (`safeString(entry?.name, fallback)`) and its description made a
   * sentence (`ensureSentence(entry?.desc || '')`).
   */
  function EntryLine(entry: Value, fallback: string): (r: string)
  {
    EntryText(TitleCase(SafeString(Get(entry, "name"), fallback)), EnsureSentence(FormatterAttacks.Or(Get(entry, "desc"), Str(""))))
  }

  /** The line is empty exactly when the name is, and otherwise opens with the name and "."; the description text follows when there is one. */
  lemma EntryLineShape(entry: Value, fallback: string)
    ensures var name := TitleCase(SafeString(Get(entry, "name"), fallback));
      var desc := DescriptionText(FormatterAttacks.Or(Get(entry, "desc"), Str("")));
      && (EntryLine(entry, fallback) == [] <==> name == [])
      && (name != [] ==> StartsWith(EntryLine(entry, fallback), name + "."))
      && (name != [] && desc != [] ==> StartsWith(EntryLine(entry, fallback), name + ". " + desc))
  {
    var d := FormatterAttacks.Or(Get(entry, "desc"), Str(""));
    EntryTextShape(TitleCase(SafeString(Get(entry, "name"), fallback)), EnsureSentence(d), DescriptionText(d));
  }

  /** Each entry's line, empty ones included. */
  function EntryLines(items: seq<Value>, fallback: string): (r: seq<string>)
    ensures |r| == |items| && forall k :: 0 <= k < |r| ==> r[k] == EntryLine(items[k], fallback)
  {
    seq(|items|, k requires 0 <= k < |items| => EntryLine(items[k], fallback))
  }

  /** `formatActionLines(entries, fallback)`: nothing for anything but an array, otherwise the non-empty entry lines in order. */
  function FormatActionLines(entries: Value, fallback: string): (r: seq<string>)
    ensures NoBlank(r)
    ensures !entries.Arr? ==> r == []
  {
    if !entries.Arr? then [] else Filled(EntryLines(entries.items, fallback))
  }

  /** A line is listed exactly when some entry writes it. */
  lemma FormatActionLinesHas(items: seq<Value>, fallback: string, x: string)
    ensures x in FormatActionLines(Arr(items), fallback) <==>
      x != [] && exists k :: 0 <= k < |items| && EntryLine(items[k], fallback) == x
  {
    var lines := EntryLines(items, fallback);
    assert FormatActionLines(Arr(items), fallback) == Filled(lines);
    FilledHas(lines, x);
    if x in lines {
      var k :| 0 <= k < |lines| && lines[k] == x;
      assert EntryLine(items[k], fallback) == x;
    }
  }

  /** A remaining trait as `normalizeWotcTraits` pushes it: its name, and its description only when it has one. */
  function TraitValue(t: NamedText): (r: Value)
    ensures Get(r, "name") == Str(t.name)
    ensures FormatterAttacks.Or(Get(r, "desc"), Str("")) == Str(t.desc)
  {
    var name := Prop("name", Str(t.name));
    var desc := Prop("desc", Str(t.desc));
    assert FindKey([name, desc], "desc") == Some(1) by {
      assert FindKey([name, desc][1..], "desc") == Some(0);
    }
    if t.desc == [] then Obj([name]) else Obj([name, desc])
  }

  /**
   * The line of a remaining trait, whose name is already title-cased, is the
   * name and "." followed by its description as a sentence when it has one.
   */
  lemma TraitLine(t: NamedText, source: string)
    requires t.name == TitleCase(source) && t.name != []
    ensures var desc := EnsureSentence(Str(t.desc));
      EntryLine(TraitValue(t), "") == if desc == [] then t.name + "." else t.name + ". " + desc
  {
    TitleCaseIdempotent(source);
  }

  // ----- the header -----

  /** `a || b || … || ''`: the first truthy value. */
  function FirstTruthy(vs: seq<Value>): (r: Value)
    ensures Truthy(r) <==> exists k :: 0 <= k < |vs| && Truthy(vs[k])
    ensures Truthy(r) ==> r in vs
    ensures !Truthy(r) ==> r == Str("")
  {
    if vs == [] then Str("")
    else if Truthy(vs[0]) then vs[0]
    else FirstTruthy(vs[1..])
  }

  /** " (text)" after a value when there is text. */
  function Parenthesized(text: string): (r: string)
    ensures text == [] <==> r == []
  {
    if text == [] then "" else " (" + text + ")"
  }

  function ArmorLine(m: Value): (r: string)
    ensures StartsWith(r, "Armor Class ")
  {
    var info := Get(m, "sourceInfo");
    var acSource := DescriptionText(FirstTruthy([Get(info, "armor_desc"), Get(info, "armor_detail"),
      Get(info, "armorClassDesc"), Get(m, "acDesc"), Get(m, "armor_desc")]));
    var rest := NumToString(SafeNumber(Get(m, "ac"), Finite(10.0))) + Parenthesized(acSource);
    StartsWithAppend("Armor Class ", rest);
    "Armor Class " + rest
  }

  /**
   * "Hit Points n", then the formula in parentheses whenever its text is
   * non-empty, even when normalizing leaves nothing of it ("_" gives "()").
   */
  function HitPointsLine(m: Value): (r: string)
    ensures StartsWith(r, "Hit Points ")
    ensures var count := "Hit Points " + NumToString(SafeNumber(Get(m, "hp"), Finite(0.0)));
      var formula := SafeString(Get(m, "hpDice"), "");
      r == if formula == [] then count else count + " (" + NormalizeText(Str(formula)) + ")"
  {
    var count := "Hit Points " + NumToString(SafeNumber(Get(m, "hp"), Finite(0.0)));
    var formula := SafeString(Get(m, "hpDice"), "");
    var r := if formula == [] then count else count + " (" + NormalizeText(Str(formula)) + ")";
    PrefixedLine("Hit Points ", NumToString(SafeNumber(Get(m, "hp"), Finite(0.0))), formula, " (" + NormalizeText(Str(formula)) + ")");
    r
  }

  /** Both shapes of a line that starts with `p`, with or without its parenthesized part. */
  lemma PrefixedLine(p: string, n: string, formula: string, part: string)
    ensures StartsWith(if formula == [] then p + n else p + n + part, p)
  {
    StartsWithAppend(p, n);
    if formula != [] {
      StartsWithExtend(p + n, p, part);
    }
  }

  /** "STR 10 (+0)": the score (10 when missing) and its modifier. */
  function AbilityPart(m: Value, name: string, key: string): (r: string)
    ensures StartsWith(r, name + " ")
  {
    var score := Get(Get(Get(m, "abilityScores"), key), "value");
    var rest := NumToString(SafeNumber(score, Finite(10.0))) + " (" + NormalizeAbilityModifier(score) + ")";
    StartsWithAppend(name + " ", rest);
    name + " " + rest
  }

  function AbilitiesLine(m: Value): (r: string)
    ensures StartsWith(r, "STR ")
  {
    var first := AbilityPart(m, "STR", "str");
    var rest := [AbilityPart(m, "DEX", "dex"), AbilityPart(m, "CON", "con"),
      AbilityPart(m, "INT", "int"), AbilityPart(m, "WIS", "wis"), AbilityPart(m, "CHA", "cha")];
    JoinStartsWith(first, rest, "  ", "STR ");
    Join([first] + rest, "  ")
  }

  /** `safeNumber(normalized.challenge, 0)`. */
  function ChallengeValue(m: Value): (r: Num)
    ensures r.Finite?
  {
    SafeNumber(Get(m, "challenge"), Finite(0.0))
  }

  /** The experience points shown: the creature's own when it has them, the table's for its rating otherwise. */
  function ExperiencePoints(m: Value): (r: Num)
    ensures r.Finite?
  {
    SafeNumber(Get(m, "experiencePoints"), Finite(ChallengeXpForValue(Number(ChallengeValue(m))) as real))
  }

  function ChallengeLine(m: Value): (r: string)
    ensures StartsWith(r, "Challenge ")
  {
    var text := NormalizeChallengeText(FormatterAttacks.SafeStringOr(Get(m, "challengeText"), Get(m, "challenge")));
    var rest := text + " (" + NumToString(ExperiencePoints(m)) + " XP)";
    StartsWithAppend("Challenge ", rest);
    "Challenge " + rest
  }

  /** The proficiency bonus shown: the creature's own when it is a number, the one its rating gives otherwise. */
  function Proficiency(m: Value): (r: Value)
  {
    if SafeNumber(Get(m, "proficiencyBonus"), NaN).Finite? then Number(SafeNumber(Get(m, "proficiencyBonus"), Finite(0.0)))
    else Number(Finite(ProficiencyByChallenge(Number(ChallengeValue(m))) as real))
  }

  function NameLine(m: Value): (r: string)
    ensures r != []
  {
    SafeString(Get(m, "name"), "Unknown Monster")
  }

  /** "Size Type, alignment". */
  function KindLine(m: Value): (r: string)
    ensures r != []
  {
    SizeText(FormatterAttacks.Or(Get(m, "size"), Str("Medium"))) + " " + TitleCase(SafeString(Get(m, "type"), "Humanoid")) + ", " + SafeString(Get(m, "alignment"), "unaligned")
  }

  function SpeedLine(m: Value): (r: string)
    ensures StartsWith(r, "Speed ")
  {
    var speed := FormatterMovement.MovementText(FormatterAttacks.Or(Get(m, "speed"), Obj([])));
    StartsWithAppend("Speed ", speed);
    "Speed " + speed
  }

  function ProficiencyLine(m: Value): (r: string)
    ensures StartsWith(r, "Proficiency Bonus ")
  {
    var bonus := FormatSignedInteger(Proficiency(m));
    StartsWithAppend("Proficiency Bonus ", bonus);
    "Proficiency Bonus " + bonus
  }

  /** Eight header lines, each after the second opening with its label. */
  predicate IsHeader(h: seq<string>)
  {
    && |h| == 8 && (forall k :: 0 <= k < 8 ==> h[k] != [])
    && StartsWith(h[2], "Armor Class ") && StartsWith(h[3], "Hit Points ")
    && StartsWith(h[4], "Speed ") && StartsWith(h[5], "STR ")
    && StartsWith(h[6], "Challenge ") && StartsWith(h[7], "Proficiency Bonus ")
  }

  /** Eight lines already known to be labelled make a header. */
  function Header(name: string, kind: string, armor: string, hp: string, speed: string, abilities: string, challenge: string, bonus: string): (r: seq<string>)
    requires name != [] && kind != []
    requires StartsWith(armor, "Armor Class ") && StartsWith(hp, "Hit Points ")
    requires StartsWith(speed, "Speed ") && StartsWith(abilities, "STR ")
    requires StartsWith(challenge, "Challenge ") && StartsWith(bonus, "Proficiency Bonus ")
    ensures IsHeader(r)
  {
    [name, kind, armor, hp, speed, abilities, challenge, bonus]
  }

  /**
   * The eight lines every statblock opens with: the name, the size, type and
   * alignment, then the armor class, hit points, speed, ability scores,
   * challenge and proficiency bonus, each after its label.
   */
  function HeaderLines(m: Value): (r: seq<string>)
    ensures IsHeader(r)
  {
    Header(NameLine(m), KindLine(m), ArmorLine(m), HitPointsLine(m), SpeedLine(m), AbilitiesLine(m), ChallengeLine(m), ProficiencyLine(m))
  }

  // ----- the optional lines -----

  /** The labels of the eight special lists, in the order of their slots. */
  function OptionalLabel(slot: nat): (r: string)
  {
    match slot
    case 0 => "Saving Throws"
    case 1 => "Skills"
    case 2 => "Damage Vulnerabilities"
    case 3 => "Damage Resistances"
    case 4 => "Damage Immunities"
    case 5 => "Condition Immunities"
    case 6 => "Senses"
    case _ => "Languages"
  }

  /** `appendIfExists(label, entries)`: "Label a, b" when some entry is non-empty, nothing otherwise. */
  function OptionalLine(heading: string, entries: seq<string>): (r: seq<string>)
    ensures |r| <= 1
  {
    var value := Join(Filled(entries), ", ");
    if value != [] then [heading + " " + value] else []
  }

  /** The optional lines of the lists from `slot` on. */
  function OptionalFrom(special: seq<seq<string>>, slot: nat): (r: seq<string>)
    requires |special| == SlotCount && slot <= SlotCount
    decreases SlotCount - slot
    ensures NoBlank(r)
  {
    if slot == SlotCount then []
    else OptionalLine(OptionalLabel(slot), special[slot]) + OptionalFrom(special, slot + 1)
  }

  /** `x` is the optional line of list `s`: its label and its non-empty entries joined by ", ", written when they are not empty. */
  predicate IsOptionalLine(special: seq<seq<string>>, s: nat, x: string)
    requires s < |special|
  {
    var value := Join(Filled(special[s]), ", ");
    value != [] && x == OptionalLabel(s) + " " + value
  }

  /** A line is an optional line exactly when it is the optional line of some list from `slot` on. */
  lemma {:induction false} OptionalFromHas(special: seq<seq<string>>, slot: nat, x: string)
    requires |special| == SlotCount && slot <= SlotCount
    ensures x in OptionalFrom(special, slot) <==> exists s :: slot <= s < SlotCount && IsOptionalLine(special, s, x)
    decreases SlotCount - slot
  {
    if slot < SlotCount {
      OptionalFromHas(special, slot + 1, x);
      var line := OptionalLine(OptionalLabel(slot), special[slot]);
      assert x in line <==> IsOptionalLine(special, slot, x);
      assert OptionalFrom(special, slot) == line + OptionalFrom(special, slot + 1);
      if IsOptionalLine(special, slot, x) {
        assert x in OptionalFrom(special, slot);
      }
      if x !in line {
        assert forall s :: slot <= s < SlotCount && IsOptionalLine(special, s, x) ==> slot + 1 <= s;
      }
    }
  }

  // ----- the sections -----

  const LegendaryPreamble: string :=
    "The creature can take 3 legendary actions, choosing from the options below. Only one legendary action option can be used at a time and only at the end of another creature\U{2019}s turn. The creature regains spent legendary actions at the start of its turn."

  const SectionCount: nat := 8

  /** The section headings, in the order the sections are written. */
  function Heading(k: nat): (r: string)
    ensures r != []
  {
    match k
    case 0 => "Traits"
    case 1 => "Actions"
    case 2 => "Bonus Actions"
    case 3 => "Reactions"
    case 4 => "Legendary Actions"
    case 5 => "Mythic Actions"
    case 6 => "Lair Actions"
    case _ => "Regional Effects"
  }

  /** The fixed lines under a heading before the entries: the legendary preamble only. */
  function Preamble(k: nat): (r: seq<string>)
    ensures NoBlank(r)
  {
    if k == 4 then [LegendaryPreamble] else []
  }

  /** A section: a blank line, the heading, its preamble and its lines; nothing when it has no lines. */
  function Section(k: nat, body: seq<string>): (r: seq<string>)
  {
    if body == [] then [] else ["", Heading(k)] + Preamble(k) + body
  }

  /** The sections from `k` on. */
  function SectionsFrom(bodies: seq<seq<string>>, k: nat): (r: seq<string>)
    requires |bodies| == SectionCount && k <= SectionCount
    decreases SectionCount - k
  {
    if k == SectionCount then [] else Section(k, bodies[k]) + SectionsFrom(bodies, k + 1)
  }

  /** `normalized.traits || []`: `None` for a truthy value that is not an array, on which `forEach` fails. */
  function TraitsOf(m: Value): (r: Option<seq<Value>>)
    ensures r.None? <==> Truthy(Get(m, "traits")) && !Get(m, "traits").Arr?
  {
    var t := Get(m, "traits");
    if !Truthy(t) then Some([]) else if t.Arr? then Some(t.items) else None
  }

  /** The remaining traits' values, as `formatActionLines` receives them. */
  function TraitValues(remaining: seq<NamedText>): (r: seq<Value>)
    ensures |r| == |remaining| && forall k :: 0 <= k < |r| ==> r[k] == TraitValue(remaining[k])
  {
    seq(|remaining|, k requires 0 <= k < |remaining| => TraitValue(remaining[k]))
  }

  /** Where each section's entries come from, and the name an unnamed entry falls back to. */
  function SectionSources(m: Value, remaining: seq<NamedText>): (r: seq<(Value, string)>)
    ensures |r| == SectionCount
  {
    var legendary := FirstTruthy([Get(m, "legendaryActions"), Get(m, "legendary_actions")]);
    [ (Arr(TraitValues(remaining)), ""),
      (FormatterAttacks.Or(Get(m, "actions"), Arr([])), "Action"),
      (FormatterAttacks.Or(Get(m, "bonusActions"), Arr([])), "Bonus Action"),
      (FormatterAttacks.Or(Get(m, "reactions"), Arr([])), "Reaction"),
      (FormatterAttacks.Or(legendary, Arr([])), "Legendary Action"),
      (FormatterAttacks.Or(Get(m, "mythicActions"), Arr([])), "Mythic Action"),
      (FormatterAttacks.Or(Get(m, "lairActions"), Arr([])), "Lair Action"),
      (FormatterAttacks.Or(Get(m, "regionalEffects"), Arr([])), "Regional Effect") ]
  }

  /** The lines of the eight sections: `formatActionLines` of each source. */
  function Bodies(m: Value, remaining: seq<NamedText>): (r: seq<seq<string>>)
    ensures |r| == SectionCount
    ensures NoBlankSections(r)
  {
    var sources := SectionSources(m, remaining);
    seq(SectionCount, k requires 0 <= k < SectionCount => FormatActionLines(sources[k].0, sources[k].1))
  }

  /** The optional block: a blank line and the optional lines, when there are any. */
  function Block(optional: seq<string>): (r: seq<string>)
  {
    if optional == [] then [] else [""] + optional
  }

  /** The header, then a blank line and the optional lines when there are any, then the sections. */
  function Layout(header: seq<string>, optional: seq<string>, bodies: seq<seq<string>>): (r: seq<string>)
    requires |bodies| == SectionCount
  {
    header + Block(optional) + SectionsFrom(bodies, 0)
  }

  /** The lines `toWotcStatblockText` joins, or `None` when reading the traits fails. */
  function StatblockLines(m: Value): (r: Option<seq<string>>)
    ensures r.None? <==> TraitsOf(m).None?
  {
    match TraitsOf(m)
    case None => None
    case Some(traits) =>
      var split := NormalizedTraits(traits);
      Some(Layout(HeaderLines(m), OptionalFrom(split.special, 0), Bodies(m, split.remaining)))
  }

  /** `toWotcStatblockText`: the lines joined by newlines and trimmed. */
  function StatblockText(m: Value): (r: Option<string>)
    ensures r.None? <==> TraitsOf(m).None?
  {
    match StatblockLines(m)
    case None => None
    case Some(lines) => Some(Trim(Join(lines, "\n")))
  }

  // ----- the layout -----

  /** The lines right after a blank line: what each blank line introduces. */
  function AfterBlank(lines: seq<string>): (r: seq<string>)
  {
    if |lines| < 2 then []
    else (if lines[0] == [] then [lines[1]] else []) + AfterBlank(lines[1..])
  }

  /** Two runs of lines whose first ends in a non-empty line have no blank line across the join. */
  lemma {:induction false} AfterBlankAppend(a: seq<string>, b: seq<string>)
    requires a != [] && a[|a| - 1] != []
    ensures AfterBlank(a + b) == AfterBlank(a) + AfterBlank(b)
    decreases |a|
  {
    if |a| == 1 {
      assert (a + b)[1..] == b;
      if |b| < 2 {
        assert AfterBlank(b) == [];
      }
    } else {
      assert (a + b)[1..] == a[1..] + b;
      AfterBlankAppend(a[1..], b);
    }
  }

  /** Lines without a blank one introduce nothing. */
  lemma {:induction false} AfterBlankNone(lines: seq<string>)
    requires NoBlank(lines)
    ensures AfterBlank(lines) == []
    decreases |lines|
  {
    if |lines| >= 2 {
      AfterBlankNone(lines[1..]);
    }
  }

  /** A blank line followed by a run without blank lines introduces that run's first line only. */
  lemma AfterBlankOpening(head: string, rest: seq<string>)
    requires head != []
    requires NoBlank(rest)
    ensures AfterBlank([""] + [head] + rest) == [head]
  {
    var lines := [""] + [head] + rest;
    assert lines[1..] == [head] + rest;
    AfterBlankNone([head] + rest);
  }

  /** The headings of the sections with lines, from `k` on, in order. */
  function Shown(bodies: seq<seq<string>>, k: nat): (r: seq<string>)
    requires |bodies| == SectionCount && k <= SectionCount
    decreases SectionCount - k
  {
    if k == SectionCount then [] else (if bodies[k] == [] then [] else [Heading(k)]) + Shown(bodies, k + 1)
  }

  /** A section with lines ends in a non-empty line and introduces its heading only. */
  lemma SectionOpening(k: nat, body: seq<string>)
    requires body != [] && NoBlank(body)
    ensures var s := Section(k, body); s[|s| - 1] != [] && AfterBlank(s) == [Heading(k)]
  {
    AfterBlankOpening(Heading(k), Preamble(k) + body);
    assert ["", Heading(k)] + Preamble(k) + body == [""] + [Heading(k)] + (Preamble(k) + body);
  }

  lemma {:induction false} SectionsShown(bodies: seq<seq<string>>, k: nat)
    requires |bodies| == SectionCount && k <= SectionCount
    requires NoBlankSections(bodies)
    ensures AfterBlank(SectionsFrom(bodies, k)) == Shown(bodies, k)
    decreases SectionCount - k
  {
    if k < SectionCount {
      SectionsShown(bodies, k + 1);
      var s := Section(k, bodies[k]);
      var rest := SectionsFrom(bodies, k + 1);
      if bodies[k] == [] {
        assert SectionsFrom(bodies, k) == rest;
      } else {
        SectionOpening(k, bodies[k]);
        AfterBlankAppend(s, rest);
      }
    }
  }

  /** Non-empty header lines, then the optional block, introduce the first optional line before whatever follows introduces. */
  lemma BlockOpenings(header: seq<string>, optional: seq<string>, rest: seq<string>)
    requires header != [] && NoBlank(header)
    requires NoBlank(optional)
    ensures AfterBlank(header + Block(optional) + rest) == (if optional == [] then [] else [optional[0]]) + AfterBlank(rest)
  {
    var block := Block(optional);
    AfterBlankNone(header);
    assert header + block + rest == header + (block + rest);
    if optional == [] {
      assert block + rest == rest;
      AfterBlankAppend(header, rest);
    } else {
      AfterBlankOpening(optional[0], optional[1..]);
      assert block == [""] + [optional[0]] + optional[1..];
      AfterBlankAppend(block, rest);
      AfterBlankAppend(header, block + rest);
    }
  }

  /**
   * The blank lines of a layout introduce exactly the first optional line,
   * when there are optional lines, and then the heading of every section
   * with lines, in the fixed order: no blank line is written anywhere else,
   * and no section is written without lines.
   */
  lemma LayoutOpenings(header: seq<string>, optional: seq<string>, bodies: seq<seq<string>>)
    requires IsHeader(header)
    requires NoBlank(optional)
    requires |bodies| == SectionCount
    requires NoBlankSections(bodies)
    ensures AfterBlank(Layout(header, optional, bodies)) == (if optional == [] then [] else [optional[0]]) + Shown(bodies, 0)
  {
    SectionsShown(bodies, 0);
    BlockOpenings(header, optional, SectionsFrom(bodies, 0));
  }

  /** A section is shown exactly when its list writes a line. */
  lemma {:induction false} ShownHas(bodies: seq<seq<string>>, k: nat, i: nat)
    requires |bodies| == SectionCount && k <= i < SectionCount
    ensures Heading(i) in Shown(bodies, k) <==> bodies[i] != []
    decreases SectionCount - k
  {
    HeadingInjective();
    if k < SectionCount {
      if k < i {
        ShownHas(bodies, k + 1, i);
      } else {
        NotShownBefore(bodies, k + 1, i);
      }
    }
  }

  lemma {:induction false} NotShownBefore(bodies: seq<seq<string>>, k: nat, i: nat)
    requires |bodies| == SectionCount && i < k <= SectionCount
    ensures Heading(i) !in Shown(bodies, k)
    decreases SectionCount - k
  {
    HeadingInjective();
    if k < SectionCount {
      NotShownBefore(bodies, k + 1, i);
    }
  }

  lemma HeadingInjective()
    ensures forall i, j :: 0 <= i < j < SectionCount ==> Heading(i) != Heading(j)
  {
  }
}
