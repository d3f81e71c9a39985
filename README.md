# Verified model of the monster importer's statblock core

This project is a Dafny model of the deterministic core of the `monster-creator` Foundry module:

- the statblock text importer (`sbi-importer`):
  - the block registry and its line recognizers;
  - the one-pass line segmenter;
  - the entry splitter and the field extractors;
  - small utilities;
  - the synchronous setters that write parsed data into the actor's path→value store;
- the reverse renderer (`statblock-formatter.js`), which turns an Open5e/WotC creature record back into statblock text;
- the simpler fallback parser (`monster-creator-statblock-parser.js`) with its `MonsterData` object and block setters;
- the pure helpers and the in-place actor sanitizer of `monster-creator.js`.

Modules follow the source files:

| module | file |
|---|---|
| `Text` | `text.dfy` (string helpers shared by all modules) |
| `Js` | `js.dfy` (JavaScript numbers, `Number`/`parseInt`/`parseFloat` on digit strings, truthiness) |
| `SbiData` | `sbi_data.dfy` |
| `SbiRegex` | `sbi_regex.dfy` |
| `SbiUtils` | `sbi_utils.dfy` |
| `SbiSegmenter` | `sbi_segmenter.dfy` |
| `SbiBlocks` | `sbi_blocks.dfy` |
| `SbiExtract` | `sbi_extract.dfy` |
| `SbiActor` | `sbi_actor.dfy` |
| `Formatter`, `FormatterText`, `FormatterMovement`, `FormatterTraits`, `FormatterAttacks`, `FormatterResistances`, `FormatterActions`, `FormatterStatblock` | `formatter*.dfy` |
| `FallbackText`, `FallbackSegmenter`, `FallbackFields`, `FallbackMonster` | `fallback_*.dfy` |
| `MonsterCreator` | `monster_creator.dfy` |

Code that mutates state is written as classes and methods with `while`/`for` loops: the segmenter loops, the `MonsterData` object, the actor store and `sanitizeParsedSbiActor`. Each of them is proved against a specification function, and the properties are proved about that function. Where a finding below concerns such code, the method and its function take a `Variant`: `AsWritten` is the code as written and `Corrected` is the evidently intended behaviour. The lemmas state where the two differ and where they agree.

JavaScript numbers are integers where the source only ever sees integers. Challenge ratings and damage averages are reals, and `NaN`/`Infinity` have their own cases.

Anchored header regexes and the entry-title patterns are written out as string predicates and functions (`SbiRegex.TitleEnd`, `SbiRegex.TitleMayStart`, `SbiRegex.VillainTitleEnd`). The segmenter takes its recognizers as a record, so that its invariants hold for any table; `SbiSegmenter.SbiPatterns` fills that record with the importer's own predicates. Where a pattern scans free text inside a field (damage rolls, spell lists and the field extractors' captures), the match is taken as an input: a typed capture record.

## Model

| member | source | states |
|---|---|---|
| SbiData.RankInOrder | monster-creator/scripts/sbi-importer/sbiData.js:1-34 | every block of the registry has a rank below the block count and sits at that rank in the registry order |
| SbiData.OrderHasRank | monster-creator/scripts/sbi-importer/sbiData.js:1-34 | each position of the registry order holds the block of that rank, so the order lists every block exactly once |
| SbiData.TwentyTopBlocks | monster-creator/scripts/sbi-importer/sbiData.js:1-34 | exactly twenty distinct blocks carry the `top` flag, and a block is top iff it is among them |
| SbiData.KnownCreatureTypesDistinct | monster-creator/scripts/sbi-importer/sbiData.js:42-57 | the fourteen known creature types are distinct and already lower case |
| SbiData.MakeArmorData | monster-creator/scripts/sbi-importer/sbiData.js:74-79 | the armour class is kept; a missing list of armour types becomes the empty list, a given one is kept |
| SbiRegex.HeadingOnlyWholeLine | monster-creator/scripts/sbi-importer/sbiRegex.js:6-39 | the whole-line heading recognizers (actions, bonus/lair actions, reactions, utility spells, villain actions) accept a line iff its lower-cased text is exactly the heading |
| SbiRegex.HealthNeedsNumber | monster-creator/scripts/sbi-importer/sbiRegex.js:17 | a line recognised as hit points has a digit right after a separator character |
| SbiRegex.LegendaryHeadingIsPrefix | monster-creator/scripts/sbi-importer/sbiRegex.js:22-23 | "Legendary Actions" followed by any text is recognised, because the parenthesised tail is optional |
| SbiRegex.OtherBlockAcceptsWords | monster-creator/scripts/sbi-importer/sbiRegex.js:43 | one capitalised word, or two joined by one space, is an unknown-block heading |
| SbiRegex.OtherBlockShape | monster-creator/scripts/sbi-importer/sbiRegex.js:43 | conversely, an unknown-block heading starts with a capital, holds only letters and spaces, and every space is followed by a letter |
| SbiRegex.TitleEnd | monster-creator/scripts/sbi-importer/sbiRegex.js:72-83 | a found entry title starts with a capital, is at least two characters long, ends where the title's tail may follow and holds at most five whitespace characters (first word, preposition, three more words) |
| SbiRegex.OneWordTitle | monster-creator/scripts/sbi-importer/sbiRegex.js:81 | a capitalised word of title characters followed by "." is a title of exactly that word, whatever text follows |
| SbiRegex.GetBlockTitle | monster-creator/scripts/sbi-importer/sbiRegex.js:85-87 | the clean-lines pattern is chosen iff the flag is set |
| SbiRegex.VillainTitleEnd | monster-creator/scripts/sbi-importer/sbiRegex.js:89-95 | a villain-action title starts with "Action" and ends, past index 11, on ".", "!" or "?" |
| SbiRegex.FixNewLinesStep | monster-creator/scripts/sbi-importer/sbiParser.js:25-30 | a header-only line is joined by a space with the next line unless that line starts with a header; any other line is kept as it is |
| SbiRegex.FixNewLinesOnlyJoins | monster-creator/scripts/sbi-importer/sbiRegex.js:47-48 | joining lines only turns line breaks into spaces: with line breaks read as spaces the text is unchanged |
| SbiRegex.FirstPerDay | monster-creator/scripts/sbi-importer/sbiRegex.js:60-62 | the first "(N/day" match at or after a position: it matches there and nowhere before it; when absent there is no match at all |
| SbiRegex.PerDayNeedsCloser | monster-creator/scripts/sbi-importer/sbiRegex.js:62 | "(N/day" counts iff ")", "," or ";" follows, and then it reads as N |
| SbiUtils.AbilityMod | monster-creator/scripts/sbi-importer/sbiUtils.js:43-45 | the modifier r satisfies 2r <= score - 10 < 2r + 2: half of score - 10, rounded down |
| SbiUtils.AbilityModOrDefault | monster-creator/scripts/sbi-importer/sbiUtils.js:43 | a missing score counts as 10, giving modifier 0 |
| SbiUtils.ProficiencyBonus | monster-creator/scripts/sbi-importer/sbiUtils.js:47-49 | the bonus is at least 2, is 2 up to level 4, and from level 1 grows by one every four levels |
| SbiUtils.MinLevelRoundTrip | monster-creator/scripts/sbi-importer/sbiUtils.js:51-53 | for a bonus of 2 or more, the level `getMinLevel` gives has that bonus and the level before it a smaller one |
| SbiUtils.Lookup | monster-creator/scripts/sbi-importer/sbiUtils.js:55-136 | a value is found iff the key occurs in the table, and it is a value paired with that key |
| SbiUtils.ConvertWith | monster-creator/scripts/sbi-importer/sbiUtils.js:55-74 | a name whose lower-cased form is in the table gives a code paired with it; any other name comes back lower-cased |
| SbiUtils.ConvertToShortAbility | monster-creator/scripts/sbi-importer/sbiUtils.js:55-74 | the six ability names map to their three-letter codes, anything else to its lower-cased self |
| SbiUtils.ConvertToShortSkill | monster-creator/scripts/sbi-importer/sbiUtils.js:93-136 | the eighteen skill names map to their three-letter codes, anything else to its lower-cased self |
| SbiUtils.ConvertLanguage | monster-creator/scripts/sbi-importer/sbiUtils.js:76-91 | the listed language names map to their codes, anything else to its lower-cased self |
| SbiUtils.CodesHaveThreeLetters | monster-creator/scripts/sbi-importer/sbiUtils.js:55-136 | every ability and skill code has three letters |
| SbiUtils.CapitalizeAll | monster-creator/scripts/sbi-importer/sbiUtils.js:193-201 | no result for the empty text; otherwise the same length, and each character is upper-cased where a word starts and lower-cased elsewhere |
| SbiUtils.CapitalizeAllIdempotent | monster-creator/scripts/sbi-importer/sbiUtils.js:193-201 | capitalising twice gives the same text as capitalising once |
| SbiUtils.CapitalizeFirstLetter | monster-creator/scripts/sbi-importer/sbiUtils.js:208-210 | only the first character is upper-cased; the rest is kept |
| SbiUtils.ReplaceAt | monster-creator/scripts/sbi-importer/sbiUtils.js:243-246 | past the end the text is unchanged, before the start the replacement is put in front, and inside the text exactly the one character at the index is replaced |
| SbiUtils.TrimStringEnd | monster-creator/scripts/sbi-importer/sbiUtils.js:248-256 | one copy of the suffix is removed when present, otherwise the text is unchanged |
| SbiUtils.TrimStringEndAppended | monster-creator/scripts/sbi-importer/sbiUtils.js:248-256 | trimming a suffix that was just appended gives back the text |
| SbiUtils.ParseFraction | monster-creator/scripts/sbi-importer/sbiUtils.js:225-236 | a result exists iff "/" cuts the text into exactly two parts |
| SbiUtils.ParseFractionOfNats | monster-creator/scripts/sbi-importer/sbiUtils.js:225-236 | "a/b" with a non-zero denominator reads back as a divided by b |
| SbiUtils.TokenIndex | monster-creator/scripts/sbi-importer/sbiUtils.js:213-217 | a placeholder index is found only for canonical decimal digits, and it reads back as those digits |
| SbiUtils.FormatPlainText | monster-creator/scripts/sbi-importer/sbiUtils.js:213-217 | text without "{" is left as it is |
| SbiUtils.FormatPlaceholder | monster-creator/scripts/sbi-importer/sbiUtils.js:213-217 | "{k}" with an existing token k is replaced by that token |
| SbiUtils.StripName | monster-creator/scripts/sbi-importer/sbiUtils.js:316-323 | the result is a suffix of the text; text without ".", ":" or "!" is kept whole, and a shortened non-empty result never starts with whitespace |
| SbiUtils.CombineTwoLines | monster-creator/scripts/sbi-importer/sbiUtils.js:309-313 | two lines, the first without a line break, are joined by one space |
| SbiUtils.StripNameOfEntry | monster-creator/scripts/sbi-importer/sbiUtils.js:316-323 | "Name. text" loses its name and the space after the full stop |
| SbiUtils.SkipWhile | monster-creator/scripts/sbi-importer/sbiUtils.js:335-345 | the kept items are exactly the suffix from the first item that fails the test |
| SbiUtils.Intersect | monster-creator/scripts/sbi-importer/sbiUtils.js:348-350 | every item kept occurs both in the source and in the target |
| SbiUtils.Except | monster-creator/scripts/sbi-importer/sbiUtils.js:353-355 | every item kept occurs in the source and not in the target |
| SbiUtils.IntersectExceptPartition | monster-creator/scripts/sbi-importer/sbiUtils.js:348-355 | together intersect and except hold every source item once, as a multiset |
| SbiSegmenter.HintIndex | monster-creator/scripts/sbi-importer/sbiParser.js:78 | the index found is the first hint whose trimmed text is the line; none is found only when no hint matches |
| SbiSegmenter.FindHint | monster-creator/scripts/sbi-importer/sbiParser.js:78-80 | no hint block iff no hint's trimmed text equals the line |
| SbiSegmenter.FirstMatch | monster-creator/scripts/sbi-importer/sbiParser.js:32-34 | a block returned is a candidate: not name, features or otherBlock, not excluded, and its pattern recognises the line |
| SbiSegmenter.FirstMatchIsFirst | monster-creator/scripts/sbi-importer/sbiParser.js:32-34 | in registry order there is a match iff some block is a candidate, and the match comes no later than any candidate |
| SbiSegmenter.Open | monster-creator/scripts/sbi-importer/sbiParser.js:96-124 | setting a block gives it an empty buffer, keeps every other buffer, and adds the block to the key order only when new |
| SbiSegmenter.Excluded | monster-creator/scripts/sbi-importer/sbiParser.js:83-84 | every block already present is excluded, and abilities is excluded iff present or the top region has been left |
| SbiSegmenter.MatchOf | monster-creator/scripts/sbi-importer/sbiParser.js:76-86 | a hinted line takes the hint's block; otherwise the first pattern match outside the excluded blocks |
| SbiSegmenter.SkippedLineChangesNothing | monster-creator/scripts/sbi-importer/sbiParser.js:64-74 | an empty line or one starting with "*" leaves the whole loop state unchanged |
| SbiSegmenter.DecideMatched | monster-creator/scripts/sbi-importer/sbiParser.js:109-129 | a match outside an ability run becomes the current block, sets the top flag from the registry and the ability flag iff it is abilities, and renews its buffer unless hinted and already present |
| SbiSegmenter.HintWins | monster-creator/scripts/sbi-importer/sbiParser.js:78-133 | a hinted line is appended to the hint's block (kept if present, new otherwise) and that block becomes current |
| SbiSegmenter.UnhintedCandidate | monster-creator/scripts/sbi-importer/sbiParser.js:82-86 | an unhinted first match is a block not yet present, and abilities only while in the top region |
| SbiSegmenter.UnhintedFirstMatch | monster-creator/scripts/sbi-importer/sbiParser.js:82-133 | an unhinted matched line opens a new buffer holding just that line, appended to the key order, with the flags set from the block |
| SbiSegmenter.AbilityRunGroups | monster-creator/scripts/sbi-importer/sbiParser.js:114-133 | inside an ability run a further abilities match is appended to the open abilities buffer and the key order is unchanged |
| SbiSegmenter.OtherMatchEndsAbilityRun | monster-creator/scripts/sbi-importer/sbiParser.js:113-116 | any other match ends the ability run and becomes the current block |
| SbiSegmenter.TitleOpensFeatures | monster-creator/scripts/sbi-importer/sbiParser.js:93-97 | an unmatched line with an entry title in the top region leaves the top region and ends up as the last line of the features buffer |
| SbiSegmenter.OtherBlockFallbackOnce | monster-creator/scripts/sbi-importer/sbiParser.js:101-107 | the section-title fallback does nothing inside an ability run and never empties an existing otherBlock buffer |
| SbiSegmenter.StepValid | monster-creator/scripts/sbi-importer/sbiParser.js:63-134 | one iteration keeps the invariant: every buffered line is a trimmed input line with its index, in increasing order, no line in two buffers, and the key order lists the present blocks once each |
| SbiSegmenter.RunValid | monster-creator/scripts/sbi-importer/sbiParser.js:63-134 | the invariant holds after every prefix of the lines |
| SbiSegmenter.FeaturesResetDropsLines | monster-creator/scripts/sbi-importer/sbiParser.js:93-97 | as written the features fallback replaces a non-empty features buffer by the new line alone; the corrected step appends the line to it |
| SbiSegmenter.CorrectedKeepsLines | monster-creator/scripts/sbi-importer/sbiParser.js:63-134 | with the features fallback corrected, one line of the pass keeps every open buffer and only appends to its lines |
| SbiSegmenter.CorrectedRunKeepsLines | monster-creator/scripts/sbi-importer/sbiParser.js:63-134 | with the features fallback corrected, no later line of the pass drops or shortens a buffer opened earlier |
| SbiSegmenter.CleanLinesOf | monster-creator/scripts/sbi-importer/sbiParser.js:42 | clean lines iff every line is non-empty and its first character is unchanged by upper-casing; the check fails (a TypeError) only when some line is empty |
| SbiSegmenter.FoundTexts | monster-creator/scripts/sbi-importer/sbiParser.js:137 | every buffered line's text is among the found texts |
| SbiSegmenter.UnknownLines | monster-creator/scripts/sbi-importer/sbiParser.js:138 | a line is unknown iff it is one of the lines and not among the found texts |
| SbiSegmenter.Parser.ParseLine | monster-creator/scripts/sbi-importer/sbiParser.js:63-134 | one loop iteration updates the parser's buffers and key order and returns the flags exactly as the step function of the chosen variant does (`AsWritten`: the code as written); nothing else changes |
| SbiSegmenter.Parser.DecideLine | monster-creator/scripts/sbi-importer/sbiParser.js:93-129 | the fallbacks and the opening of the matched block update the parser exactly as the decision function of the chosen variant does; as written, the features fallback always gives `features` an empty buffer |
| SbiSegmenter.Parser.Segment | monster-creator/scripts/sbi-importer/sbiParser.js:50-134 | after the loop the parser's buffers and key order are those of the chosen variant's pass over all lines from empty buffers in the top region |
| SbiSegmenter.Parser.ParseInput | monster-creator/scripts/sbi-importer/sbiParser.js:36-138 | with `AsWritten` the code as written, on the joined lines: a TypeError with nothing changed when a line is empty; otherwise the name is the trimmed first line, the clean-lines flag, buffers and key order come from the pass over the remaining lines, and the unknown lines are returned |
| SbiBlocks.Dotted | monster-creator/scripts/sbi-importer/sbiParser.js:855-879 | the text ends with "." afterwards, and is either unchanged or has exactly one "." added |
| SbiBlocks.NextText | monster-creator/scripts/sbi-importer/sbiParser.js:871 | there is a next line iff the index is not the last one |
| SbiBlocks.SplitStepPlaces | monster-creator/scripts/sbi-importer/sbiParser.js:850-883 | one iteration places the line in exactly one of the two lists, and the non-spell list only gains the line unchanged |
| SbiBlocks.SplitPartition | monster-creator/scripts/sbi-importer/sbiParser.js:850-884 | after k lines the two lists hold exactly the line numbers of those k lines, each once |
| SbiBlocks.SplitCount | monster-creator/scripts/sbi-importer/sbiParser.js:850-884 | after k lines the two lists together hold k lines |
| SbiBlocks.OtherLinesUnchanged | monster-creator/scripts/sbi-importer/sbiParser.js:862-867 | every non-spell line is one of the lines read, with its text unchanged |
| SbiBlocks.NoSpellRun | monster-creator/scripts/sbi-importer/sbiParser.js:853-867 | without a spellcasting heading every line goes to the non-spell list, in order, unchanged |
| SbiBlocks.SplitSpellRun | monster-creator/scripts/sbi-importer/sbiParser.js:844-884 | the loop's two lists are those of the step function after all the lines |
| SbiBlocks.TitleOf | monster-creator/scripts/sbi-importer/sbiParser.js:219-256 | a title found on a line is a non-empty prefix of the line's text, found only where the pattern may start a match, and never right after a line whose own match spent the sentence end the next match needs |
| SbiBlocks.SpentStopLeavesNextUntitled | monster-creator/scripts/sbi-importer/sbiParser.js:219-256 | after a titled line whose match consumed its final terminator, the next line carries no title in the sentence-start form of the pattern |
| SbiBlocks.ParryThenClaw | monster-creator/scripts/sbi-importer/sbiParser.js:219-256 | of the lines "Parry." and "Claw. Bite" only the first is titled, "Parry" |
| SbiBlocks.TitlesArePrefixes | monster-creator/scripts/sbi-importer/sbiParser.js:219-256 | every title found in the pass is a non-empty prefix of its line's text |
| SbiBlocks.LineTitles | monster-creator/scripts/sbi-importer/sbiParser.js:889-892 | one title per searched line, each a non-empty prefix of that line's text, from the block-title pattern or, when it finds none, the villain-action pattern |
| SbiBlocks.TitledStep | monster-creator/scripts/sbi-importer/sbiParser.js:897-901 | a titled line closes the open entry and opens its own; the entries still hold exactly the lines seen, in order |
| SbiBlocks.JoiningStep | monster-creator/scripts/sbi-importer/sbiParser.js:902-907 | an untitled line joins the open entry; the entries still hold exactly the lines seen, in order |
| SbiBlocks.GroupInvariant | monster-creator/scripts/sbi-importer/sbiParser.js:894-912 | after k lines the entries hold exactly the first k lines in order, are well formed, and an entry is open iff k > 0 |
| SbiBlocks.DescriptionFirst | monster-creator/scripts/sbi-importer/sbiParser.js:903-905 | when the first line has no title, the first entry is named "Description" |
| SbiBlocks.GroupEntries | monster-creator/scripts/sbi-importer/sbiParser.js:894-912 | the loop builds the entries of the grouping function over all tagged lines |
| SbiBlocks.TaggedLines | monster-creator/scripts/sbi-importer/sbiParser.js:886-892 | the tagged lines are the non-spell lines followed by the spell lines, one tag per line; a title is a non-empty prefix of its line, and no spell line after the first is titled |
| SbiBlocks.BlockEntriesCover | monster-creator/scripts/sbi-importer/sbiParser.js:886-914 | the entries are well formed and hold the non-spell lines, then the spell lines, each once |
| SbiBlocks.ValidLinesPlaced | monster-creator/scripts/sbi-importer/sbiParser.js:841-884 | the non-empty lines' numbers are exactly those of the two lists together |
| SbiBlocks.GetBlockDatas | monster-creator/scripts/sbi-importer/sbiParser.js:840-915 | the entries are well formed, hold the non-spell then the spell lines, and every non-empty input line appears in exactly one entry |
| SbiExtract.FilterPartition | monster-creator/scripts/sbi-importer/sbiParser.js:326-327 | filtering by a test and by its negation splits a list into two parts that together hold each element once |
| SbiExtract.LineOfSpan | monster-creator/scripts/sbi-importer/sbiParser.js:237-251 | the line found is the first, from the given one, whose extent holds the whole span; none is found only when no line holds it |
| SbiExtract.Annotated | monster-creator/scripts/sbi-importer/sbiParser.js:235-252 | one group changes no line other than the first line holding its span |
| SbiExtract.AtMostOneLinePerGroup | monster-creator/scripts/sbi-importer/sbiParser.js:235-252 | annotations are only added, at most one per group |
| SbiExtract.AnnotateGroup | monster-creator/scripts/sbi-importer/sbiParser.js:237-251 | the walk over the lines with the running length gives the annotations of the one-group function |
| SbiExtract.AnnotateGroups | monster-creator/scripts/sbi-importer/sbiParser.js:225-253 | the loop over the ordered groups gives the annotations of the all-groups function |
| SbiExtract.Short | monster-creator/scripts/sbi-importer/sbiParser.js:276 | the short name is the first three characters of the name (all of it when shorter) |
| SbiExtract.SaveFlags | monster-creator/scripts/sbi-importer/sbiParser.js:288 | one flag per 2024 triple, set iff the modifier and the save modifier are written differently |
| SbiExtract.Scan | monster-creator/scripts/sbi-importer/sbiParser.js:265-302 | every collected name has at most three characters and there are no more save flags than values |
| SbiExtract.ScanStopsAtSix | monster-creator/scripts/sbi-importer/sbiParser.js:268-270 | once six values are collected the remaining lines are not looked at |
| SbiExtract.AbilitiesOf | monster-creator/scripts/sbi-importer/sbiParser.js:304-311 | one entry per name, paired by position with the parsed score, NaN when no score is at that position |
| SbiExtract.SavesOfExactly | monster-creator/scripts/sbi-importer/sbiParser.js:308-310 | a name is added as a saving throw iff some position holding it carries a proficiency flag |
| SbiExtract.ScanAbilities | monster-creator/scripts/sbi-importer/sbiParser.js:265-302 | the scanning loop collects what the scan function collects |
| SbiExtract.PairAbilities | monster-creator/scripts/sbi-importer/sbiParser.js:304-311 | the pairing loop gives the entries and the saving throws of the two functions |
| SbiExtract.ParseAbilities | monster-creator/scripts/sbi-importer/sbiParser.js:258-315 | the actor's abilities are replaced by the paired entries and the flagged names are appended to its saving throws; nothing else changes |
| SbiExtract.AsciiMinus | monster-creator/scripts/sbi-importer/sbiParser.js:330 | replacing the first typographic minus keeps the length |
| SbiExtract.TypographicMinus | monster-creator/scripts/sbi-importer/sbiParser.js:330 | a modifier written with a minus sign or an en dash reads as the negative number |
| SbiExtract.ArmorGear | monster-creator/scripts/sbi-importer/sbiParser.js:327 | each armour type becomes gear with its lower-cased name and quantity one |
| SbiExtract.ArmorTypesSplit | monster-creator/scripts/sbi-importer/sbiParser.js:324-327 | every armour type ends up either among the natural-armour types or as one piece of gear, never both |
| SbiExtract.ParseArmor | monster-creator/scripts/sbi-importer/sbiParser.js:317-332 | without a match nothing changes; with one, the armour class and its natural-armour types are set, the other types are appended to the gear, and the initiative is set only when the line gives a modifier |
| SbiExtract.CrOf | monster-creator/scripts/sbi-importer/sbiParser.js:352-362 | "½" is one half, a text with "/" goes through the fraction parser, anything else through parseInt |
| SbiExtract.CrOfNumbers | monster-creator/scripts/sbi-importer/sbiParser.js:356-362 | "a/b" with b non-zero reads as a divided by b, and a plain number as itself |
| SbiExtract.FirstCommaRemoved | monster-creator/scripts/sbi-importer/sbiParser.js:366-368 | removing the first comma joins the digits on both sides of it |
| SbiExtract.ParseChallenge | monster-creator/scripts/sbi-importer/sbiParser.js:348-381 | without a match nothing changes; with one, the challenge record holds the rating, experience and bonus read from the match, and the role is copied |
| SbiExtract.DamageListOf | monster-creator/scripts/sbi-importer/sbiParser.js:464-477 | a damage list is chosen iff the block is one of the five immunity, resistance or vulnerability blocks |
| SbiExtract.Bypasses | monster-creator/scripts/sbi-importer/sbiParser.js:492-502 | "mgc", "ada" and "sil" are present iff their wordings are, nothing else is present, and none twice |
| SbiExtract.Special | monster-creator/scripts/sbi-importer/sbiParser.js:504-516 | free text is kept only when there are no bypasses, and then it is non-empty |
| SbiExtract.TypeNames | monster-creator/scripts/sbi-importer/sbiParser.js:478-483 | the matched type names kept are non-empty |
| SbiExtract.ParseDamagesAndConditions | monster-creator/scripts/sbi-importer/sbiParser.js:463-529 | the block's damage list gains the damage types and has its bypasses and free text replaced; the condition immunities gain the condition types; a missing record starts empty |
| SbiExtract.ResistancesHeader | monster-creator/scripts/sbi-importer/sbiParser.js:487 | a lower-cased text starting "damage resistances" has its header end after those two words |
| SbiExtract.HeaderStripped | monster-creator/scripts/sbi-importer/sbiParser.js:487 | "Damage Resistances: " is removed from the front of a damage list |
| SbiExtract.ListedSpeeds | monster-creator/scripts/sbi-importer/sbiParser.js:628-630 | each listed speed has a non-empty name and a text value |
| SbiExtract.SpeedsOf | monster-creator/scripts/sbi-importer/sbiParser.js:628-634 | the listed speeds come first; one more "hover" entry with an empty value is appended iff some line mentions hovering |
| SbiExtract.ListedSpeedsCount | monster-creator/scripts/sbi-importer/sbiParser.js:628-630 | a speed is listed for each match with a value: a match without one is dropped |
| SbiExtract.ParseSpeed | monster-creator/scripts/sbi-importer/sbiParser.js:624-637 | the actor's speeds become the listed speeds, plus hover when mentioned |
| SbiExtract.CreatureKind | monster-creator/scripts/sbi-importer/sbiParser.js:571-578 | exactly one of type and custom type is set: the singular form when it is a known type, otherwise the whole text as a custom type |
| SbiExtract.KnownTypesAndPlurals | monster-creator/scripts/sbi-importer/sbiData.js:42-57 | every known type is recognised as written and in the plural, "monstrosities" included |
| SbiExtract.ParseRacialDetails | monster-creator/scripts/sbi-importer/sbiParser.js:562-579 | without a match nothing changes; with one, size, alignment, race and swarm size are set, then a missing type group throws before the type is written, and otherwise the type comes from the kind function |
| SbiExtract.RangeOf | monster-creator/scripts/sbi-importer/sbiParser.js:774 | the near range is parsed, and a far range is present iff it was written |
| SbiExtract.AttackKind | monster-creator/scripts/sbi-importer/sbiParser.js:775-779 | "spell" iff the lines mention "spell attack", "weapon" otherwise |
| SbiExtract.RangeOfNumbers | monster-creator/scripts/sbi-importer/sbiParser.js:774 | written distances read back as the numbers they spell |
| SbiExtract.TargetOf | monster-creator/scripts/sbi-importer/sbiParser.js:828-836 | an area gives its range and shape and nothing else; otherwise the range and "creature" kind, with amount 1 iff the amount is "one" or "a" |
| SbiExtract.ActionValue.ParseRange | monster-creator/scripts/sbi-importer/sbiParser.js:771-780 | without a match nothing changes; with one, the range and the attack type are written |
| SbiExtract.ActionValue.ParseTarget | monster-creator/scripts/sbi-importer/sbiParser.js:825-837 | without a match nothing changes; with one, the target is replaced |
| SbiActor.IntOfValue | monster-creator/scripts/sbi-importer/sbiActor.js:725 | a text goes through parseInt, a whole number reads back as itself, and NaN stays NaN |
| SbiActor.Actor.constructor | monster-creator/scripts/sbi-importer/sbiActor.js:9-47 | the name is stored, every list is empty, every record is absent, the missing-rating flag is off and the document is fresh and empty |
| SbiActor.Actor.SpellcastingFeature | monster-creator/scripts/sbi-importer/sbiActor.js:49-53 | innate spellcasting when it has a name, else spellcasting when it has one, else utility spells when they have one, else nothing; each case iff its condition holds |
| SbiActor.Actor.SetAbilities | monster-creator/scripts/sbi-importer/sbiActor.js:721-727 | the document's ability object is cleared and each entry's score written under its lower-cased name |
| SbiActor.LastNamed | monster-creator/scripts/sbi-importer/sbiActor.js:723-726 | the index found is the last entry with that lower-cased name; none only when no entry has it |
| SbiActor.ScoresLastWins | monster-creator/scripts/sbi-importer/sbiActor.js:721-727 | after writing the scores an ability's score is present iff some entry names it, and then is the last such entry's value; no proficiency survives, and every path outside the ability object keeps its value |
| SbiActor.Actor.SetChallenge | monster-creator/scripts/sbi-importer/sbiActor.js:768-777 | only the challenge-rating path is written, and the missing-rating flag is raised when no rating can be found |
| SbiActor.MinLevelOf | monster-creator/scripts/sbi-importer/sbiUtils.js:51-53 | for a finite bonus the level is 4 times the bonus minus 7 |
| SbiActor.ChallengeFromBonus | monster-creator/scripts/sbi-importer/sbiActor.js:768-777 | a parsed rating is copied; a whole bonus of 2 or more alone gives a rating whose proficiency bonus is that bonus again; the rating is 0 with the flag raised iff there is no record or only a bonus that is not positive |
| SbiActor.Actor.SetHealth | monster-creator/scripts/sbi-importer/sbiActor.js:851-855 | exactly the current, maximum and formula hit-point paths are written |
| SbiActor.HealthIsNumber | monster-creator/scripts/sbi-importer/sbiActor.js:851-855 | hit points are always a number and never NaN: the parsed value when non-zero, else 0; a formula text is written iff one is given and non-empty |
| SbiActor.AbilityModOf | monster-creator/scripts/sbi-importer/sbiUtils.js:43-45 | for a finite score the modifier is half of score minus 10, rounded down |
| SbiActor.Subtract | monster-creator/scripts/sbi-importer/sbiActor.js:862 | two finite numbers subtract exactly |
| SbiActor.Actor.SetInitiative | monster-creator/scripts/sbi-importer/sbiActor.js:857-864 | the document becomes the initiative function of the old document and the parsed initiative |
| SbiActor.InitiativeAddsUp | monster-creator/scripts/sbi-importer/sbiActor.js:857-864 | no parsed initiative writes nothing; with a finite modifier, the dexterity modifier plus the written bonus (0 when none) is the parsed modifier; no other path appears or disappears |
| SbiActor.Capitalized | monster-creator/scripts/sbi-importer/sbiUtils.js:193-201 | the stored value is null iff the text is empty |
| SbiActor.Actor.SetRacialDetails | monster-creator/scripts/sbi-importer/sbiActor.js:890-935 | a missing or empty size becomes "medium", and the document gets the size, swarm, alignment, subtype and type entries of the racial-details function |
| SbiActor.SizeCodes | monster-creator/scripts/sbi-importer/sbiActor.js:894-917 | fine and diminutive become tiny, colossal becomes gargantuan, and small, medium, large and gargantuan are abbreviated |
| SbiActor.CustomTypeWins | monster-creator/scripts/sbi-importer/sbiActor.js:927-934 | a non-blank custom type makes the type "custom" and stores a custom name; otherwise a given type is stored lower-cased and the custom entry is untouched |
| SbiActor.Actor.SetSavingThrows | monster-creator/scripts/sbi-importer/sbiActor.js:944-950 | the document marks each saving throw's ability proficient |
| SbiActor.ProficientExactly | monster-creator/scripts/sbi-importer/sbiActor.js:944-950 | exactly the saving throws' abilities (lower-cased) are marked 1; every other path keeps its value |
| SbiActor.Actor.SetSenses | monster-creator/scripts/sbi-importer/sbiActor.js:952-986 | the document gets each sense's own entries and the special text joined with "; " |
| SbiActor.SpecialSenseText | monster-creator/scripts/sbi-importer/sbiActor.js:981-982 | an entry holds at least the name and " ft" |
| SbiActor.OtherSenses | monster-creator/scripts/sbi-importer/sbiActor.js:959-983 | no sense kept is perception or a vision sense |
| SbiActor.SpecialSensesInOrder | monster-creator/scripts/sbi-importer/sbiActor.js:955-985 | the special text lists, in order, exactly the senses that are neither perception nor a vision sense, each as "Name N ft" |
| SbiActor.VisionSenseWritesRange | monster-creator/scripts/sbi-importer/sbiActor.js:961-979 | a vision sense writes its range, turns the token's default sight off and adds nothing to the special text |
| SbiActor.Actor.SetSpeed | monster-creator/scripts/sbi-importer/sbiActor.js:1026-1041 | the document gets the movement entries of the speed function |
| SbiActor.FirstNamed | monster-creator/scripts/sbi-importer/sbiActor.js:1027-1035 | the index found is the first speed with that lower-cased name; none only when no speed has it |
| SbiActor.Without | monster-creator/scripts/sbi-importer/sbiActor.js:1028 | without a walking speed the list is kept; otherwise exactly that one entry is removed, the others keep their order |
| SbiActor.MovementWritten | monster-creator/scripts/sbi-importer/sbiActor.js:1029-1037 | nothing changes without other speeds; otherwise the movement object is written with the hover flag set iff some other speed is hover, and no path outside movement changes |
| SbiActor.WalkSpeedWritten | monster-creator/scripts/sbi-importer/sbiActor.js:1027-1040 | the walking speed is written iff some speed is named walk, as the first such speed's value |
| SbiActor.OthersNamed | monster-creator/scripts/sbi-importer/sbiActor.js:1028 | a mode is among the remaining speeds iff some speed other than the walking one has that name |
| SbiActor.MovementObjectPresent | monster-creator/scripts/sbi-importer/sbiActor.js:1029 | the movement object is written iff some speed other than the walking speed is listed |
| SbiActor.HoverFlagWritten | monster-creator/scripts/sbi-importer/sbiActor.js:1035 | the hover flag is set iff some speed other than the walking speed is named hover |
| SbiActor.SpeedKeepsOtherPaths | monster-creator/scripts/sbi-importer/sbiActor.js:1026-1041 | every path outside the movement object keeps its value |
| Formatter.TextNumber | monster-creator/scripts/statblock-formatter.js:22-74 | text reads as a finite number or gives the fallback |
| Formatter.FirstOwn | monster-creator/scripts/statblock-formatter.js:22-74 | the property found is an own property under one of the keys, the first key wins when present, and none is found only when no key is present |
| Formatter.SafeNumber | monster-creator/scripts/statblock-formatter.js:22-74 | null and undefined give the fallback, a number gives itself when finite, blank text gives the fallback, and any result is the fallback or finite |
| Formatter.SafeNumberUnwraps | monster-creator/scripts/statblock-formatter.js:22-74 | an object is read through its own value field first |
| Formatter.SafeNumberOfNat | monster-creator/scripts/statblock-formatter.js:22-74 | the text of a whole number reads back as that number |
| Formatter.FractionAt | monster-creator/scripts/statblock-formatter.js:22-74 | a number, "/" and a number at the start of a text make a leading fraction of those two parts |
| Formatter.FractionParts | monster-creator/scripts/statblock-formatter.js:22-74 | "a/b" is read as the fraction's two parts |
| Formatter.SafeNumberOfText | monster-creator/scripts/statblock-formatter.js:22-74 | non-blank text is read from its trimmed form |
| Formatter.SafeNumberOfFraction | monster-creator/scripts/statblock-formatter.js:22-74 | "a/b" with b non-zero reads as a divided by b |
| Formatter.SafeString | monster-creator/scripts/statblock-formatter.js:76-101 | null, undefined and arrays give the fallback, a string gives itself unless empty, and any result is the fallback or non-empty |
| Formatter.AbilityModifier | monster-creator/scripts/statblock-formatter.js:183-187 | the modifier is half of the score (10 when unreadable) minus 10, rounded down |
| Formatter.SignedText | monster-creator/scripts/statblock-formatter.js:183-187 | a non-negative value gets "+" in front, a negative one "-" and its magnitude |
| Formatter.NormalizeAbilityModifier | monster-creator/scripts/statblock-formatter.js:183-187 | the signed modifier text, starting with "+" iff the modifier is non-negative |
| Formatter.ModifierAgreesWithImporter | monster-creator/scripts/statblock-formatter.js:183-187 | on whole scores the renderer's modifier equals the importer's modifier; a score of 20 shows "+5" |
| Formatter.ProficiencyByChallenge | monster-creator/scripts/statblock-formatter.js:259-270 | between 2 and 9: 3 for a negative rating, 2 up to 4, one more every four up to 28, 9 above |
| Formatter.ProficiencyAgreesWithLevel | monster-creator/scripts/statblock-formatter.js:259-270 | from rating 0 to 32 the bonus by challenge equals the importer's bonus by level |
| Formatter.XpRating | monster-creator/scripts/statblock-formatter.js:272-312 | every listed rating lies between 0 and 30 |
| Formatter.ChallengeXpForValue | monster-creator/scripts/statblock-formatter.js:272-312 | the experience is 0 iff the rating is not listed, and otherwise is the listed entry's experience |
| Formatter.XpTableIncreasing | monster-creator/scripts/statblock-formatter.js:272-312 | a higher listed rating is worth strictly more experience |
| Formatter.XpOfListed | monster-creator/scripts/statblock-formatter.js:272-312 | a listed rating is worth exactly its entry's experience |
| Formatter.XpExamples | monster-creator/scripts/statblock-formatter.js:272-312 | challenge 11 is worth 7200 and 0.75 is worth nothing |
| Formatter.XpBetween | monster-creator/scripts/statblock-formatter.js:272-312 | a rating strictly between two neighbouring entries is worth nothing |
| Formatter.NormalizeChallengeText | monster-creator/scripts/statblock-formatter.js:314-335 | "0" for null and undefined, text with "/" trimmed as it stands, 1/8, 1/4 and 1/2 as fractions, any other number as its text |
| Formatter.ChallengeTextOfWhole | monster-creator/scripts/statblock-formatter.js:314-335 | the text of a whole rating reads back as the rating |
| Formatter.ChallengeTextOfFraction | monster-creator/scripts/statblock-formatter.js:314-335 | the three fractional ratings are written as "1/" and a denominator and read back as the rating |
| Formatter.SignedTrunc | monster-creator/scripts/statblock-formatter.js:196-199 | non-negative and whole numbers are cut and signed, numbers between -1 and 0 show "0", and from -1 down the text starts with "-" |
| Formatter.FormatSignedInteger | monster-creator/scripts/statblock-formatter.js:196-199 | the signed, cut number read from the value, "+0" for null and undefined |
| Formatter.TruncCases | monster-creator/scripts/statblock-formatter.js:196-199 | cutting toward zero is the floor for non-negative and whole numbers, 0 just below 0, and negative from -1 down |
| Formatter.DieSides | monster-creator/scripts/statblock-formatter.js:201-214 | no die (NaN) iff the value's text holds no digit |
| Formatter.DieSidesOfText | monster-creator/scripts/statblock-formatter.js:201-214 | "dN" gives a die of N sides |
| Formatter.DieSidesOfNat | monster-creator/scripts/statblock-formatter.js:201-214 | a number gives a die of that many sides |
| Formatter.BonusSuffix | monster-creator/scripts/statblock-formatter.js:216-233 | a positive whole bonus is written " + B", a negative one " - B", and a fraction below 1 " + 0" |
| Formatter.FormatDiceFormula | monster-creator/scripts/statblock-formatter.js:216-233 | empty iff the count is below 1 or there is no positive die; otherwise "NdS" and the bonus suffix |
| Formatter.SumToClosed | monster-creator/scripts/statblock-formatter.js:235-246 | the faces of an n-sided die sum to n(n+1)/2 |
| Formatter.DamageComponentAverage | monster-creator/scripts/statblock-formatter.js:235-246 | the average is NaN or finite; finite iff the cut count and the die are positive, and then the count times the mean face plus the bonus |
| Formatter.AverageIsMeanRoll | monster-creator/scripts/statblock-formatter.js:235-246 | the average is the count times the mean face of the die, plus the bonus |
| Formatter.MeanFace | monster-creator/scripts/statblock-formatter.js:235-246 | the mean face of an n-sided die is (n+1)/2 |
| Formatter.FormulaIffAverage | monster-creator/scripts/statblock-formatter.js:216-246 | a formula is written iff its average is a number |
| Formatter.DiceAverageOfNats | monster-creator/scripts/statblock-formatter.js:235-246 | whole dice and a whole bonus average to n(d+1)/2 + b |
| Formatter.RoundTenths | monster-creator/scripts/statblock-formatter.js:248-257 | rounding to tenths moves the value by at most 0.05 |
| Formatter.FormatDamageAverage | monster-creator/scripts/statblock-formatter.js:248-257 | empty for NaN, otherwise the average rounded to tenths as number text |
| Formatter.DamageAverageText | monster-creator/scripts/statblock-formatter.js:248-257 | whole and half averages print exactly as "N" and "N.5" |
| Formatter.ExactFormat | monster-creator/scripts/statblock-formatter.js:248-257 | an average already in tenths prints as its own number text |
| Formatter.HalvesFormat | monster-creator/scripts/statblock-formatter.js:248-257 | a count of halves prints exactly |
| Formatter.RoundHalves | monster-creator/scripts/statblock-formatter.js:248-257 | rounding to tenths keeps every multiple of one half |
| FormatterText.ReplaceRunsAvoids | monster-creator/scripts/statblock-formatter.js:103-113 | a character in neither the text nor the replacement is not in the result of a global run replacement |
| FormatterText.ReplaceRunsClears | monster-creator/scripts/statblock-formatter.js:103-113 | replacing every run of a class by text outside it leaves no character of the class |
| FormatterText.ReplaceRunsHead | monster-creator/scripts/statblock-formatter.js:103-113 | text starting outside the class keeps its first character |
| FormatterText.SingleSpaced | monster-creator/scripts/statblock-formatter.js:189-194 | after the two-or-more-whitespace replacement no two whitespace characters are adjacent |
| FormatterText.LastNewlineIn | monster-creator/scripts/statblock-formatter.js:110 | the newline found is the last one in the range; none only when the range has none |
| FormatterText.Unbullet | monster-creator/scripts/statblock-formatter.js:107 | no bullet is left |
| FormatterText.NormalizeText | monster-creator/scripts/statblock-formatter.js:103-113 | null and undefined give ""; the result has no underscore or bullet and no whitespace at either end |
| FormatterText.DescriptionText | monster-creator/scripts/statblock-formatter.js:189-194 | the result has no newline or underscore, no two adjacent whitespace characters and no whitespace at either end |
| FormatterText.EnsureSentence | monster-creator/scripts/statblock-formatter.js:348-355 | empty iff the description text is empty; otherwise the description text with at most one "." added, ending in ".", "!" or "?" |
| FormatterText.Words | monster-creator/scripts/statblock-formatter.js:173-181 | each word is a non-empty run of non-whitespace characters taken from the text |
| FormatterText.WordsAfterWord | monster-creator/scripts/statblock-formatter.js:173-181 | a word followed by whitespace or nothing is the first word |
| FormatterText.WordsOfJoin | monster-creator/scripts/statblock-formatter.js:173-181 | words joined by single spaces split back into the same words |
| FormatterText.Capitalize | monster-creator/scripts/statblock-formatter.js:179 | capitalising a word keeps its length |
| FormatterText.TitleCaseIdempotent | monster-creator/scripts/statblock-formatter.js:173-181 | title-cased text comes back unchanged from title case |
| FormatterText.SizeTextOfImporterCodes | monster-creator/scripts/statblock-formatter.js:357-370 | every size code the importer writes is shown as the size name it came from |
| FormatterText.SizeTextInherited | monster-creator/scripts/statblock-formatter.js:357-370 | the sizes "constructor" and "__proto__" find the prototype's members in the lookup table and show the `Object` function's text and "[object Object]" |
| FormatterMovement.SpeedKeysDistinct | monster-creator/scripts/statblock-formatter.js:3-12 | distinct modes have distinct names, and only the first is "walk" |
| FormatterMovement.FlattenInOrder | monster-creator/scripts/statblock-formatter.js:875-888 | speeds read mode by mode come out in mode order |
| FormatterMovement.FlattenLookup | monster-creator/scripts/statblock-formatter.js:875-888 | the speed found for a mode is what that mode contributed |
| FormatterMovement.FlattenNothing | monster-creator/scripts/statblock-formatter.js:875-888 | nothing read from any mode leaves nothing |
| FormatterMovement.SpeedSource | monster-creator/scripts/statblock-formatter.js:859-869 | the record's own speed_all; else its own speed when that has a movement shape; else the record itself when it has one; else an empty object |
| FormatterMovement.SpeedOf | monster-creator/scripts/statblock-formatter.js:878-887 | null, undefined, empty text and booleans are skipped; otherwise a speed is kept iff it reads as a finite non-negative number, and it is that number |
| FormatterMovement.KeepAt | monster-creator/scripts/statblock-formatter.js:876-887 | a mode keeps one speed, non-negative and tagged with the mode, iff the source owns the mode and its raw speed reads |
| FormatterMovement.ToMovement | monster-creator/scripts/statblock-formatter.js:859-891 | the method returns the speeds of the movement function on the chosen source |
| FormatterMovement.KeepMode | monster-creator/scripts/statblock-formatter.js:875-888 | one loop turn extends the kept speeds by exactly the given mode's contribution |
| FormatterMovement.MovementInOrder | monster-creator/scripts/statblock-formatter.js:859-891 | the kept speeds are in mode order |
| FormatterMovement.MovementKeeps | monster-creator/scripts/statblock-formatter.js:859-891 | mode k is kept with distance q iff the source owns the mode and its raw speed reads as q |
| FormatterMovement.ReadAt | monster-creator/scripts/statblock-formatter.js:378-382 | a mode reads at most one speed, non-negative and tagged with the mode |
| FormatterMovement.Parts | monster-creator/scripts/statblock-formatter.js:384-386 | one part per listed speed, in order |
| FormatterMovement.Modes | monster-creator/scripts/statblock-formatter.js:387 | one mode name per listed speed, in order |
| FormatterMovement.MovementToText | monster-creator/scripts/statblock-formatter.js:372-410 | the method returns the text of the speed-line function |
| FormatterMovement.ListModes | monster-creator/scripts/statblock-formatter.js:377-388 | the loop collects the parts and mode names of the listed speeds |
| FormatterMovement.ListMode | monster-creator/scripts/statblock-formatter.js:377-388 | one loop turn adds the given mode's part and name when its speed reads |
| FormatterMovement.NumberTextLeadingDigit | monster-creator/scripts/statblock-formatter.js:384 | the text of a non-negative number starts with a digit |
| FormatterMovement.WalkPart | monster-creator/scripts/statblock-formatter.js:384-386 | walk's part is the bare distance followed by " ft." |
| FormatterMovement.WalkStrippedKeepsDistance | monster-creator/scripts/statblock-formatter.js:399-405 | the leading "walk " replacement never fires on a part starting with a digit |
| FormatterMovement.SpeedLineLists | monster-creator/scripts/statblock-formatter.js:390-409 | speeds in mode order are listed in full, joined by ", ", or the line says "30 ft." when there are none |
| FormatterMovement.MovementTextLists | monster-creator/scripts/statblock-formatter.js:372-410 | the Speed line lists every readable mode in mode order, or says "30 ft." |
| FormatterMovement.EmptyMovementText | monster-creator/scripts/statblock-formatter.js:390-392 | an empty movement object gives "30 ft." |
| FormatterMovement.GetOfProps | monster-creator/scripts/statblock-formatter.js:886 | looking a mode up in the built movement object finds the kept speed wrapped as value |
| FormatterMovement.LookupNonNegative | monster-creator/scripts/statblock-formatter.js:885 | every speed read back is non-negative |
| FormatterMovement.ModeReadsOfMovement | monster-creator/scripts/statblock-formatter.js:859-891 | each mode of the built movement object reads back as exactly what was kept from it |
| FormatterMovement.MovementRoundTrip | monster-creator/scripts/statblock-formatter.js:372-410 | the Speed line of the built movement object lists exactly the kept modes, in mode order, walk unlabelled; "30 ft." when none was kept |
| FormatterTraits.MergeIncomingProps | monster-creator/scripts/statblock-formatter.js:337-346 | merging keeps the list as a prefix, adds the text at most once and only at the end, adds non-empty text when missing, never adds empty text, and keeps a duplicate-free list duplicate-free |
| FormatterTraits.MergeIncomingIdempotent | monster-creator/scripts/statblock-formatter.js:337-346 | merging the same text twice is merging it once |
| FormatterTraits.SlotOf | monster-creator/scripts/statblock-formatter.js:428-465 | a list is found only for its own name, and none only when no list has that name |
| FormatterTraits.SectionLists.Merge | monster-creator/scripts/statblock-formatter.js:337-346 | exactly the one list is replaced by its merge with the value's description text |
| FormatterTraits.SectionLists.AddLine | monster-creator/scripts/statblock-formatter.js:341-345 | exactly the one list is replaced by its merge with the text |
| FormatterTraits.NormalizeWotcTraits | monster-creator/scripts/statblock-formatter.js:412-475 | the loop's kept traits and fresh lists are those of the split function over all traits |
| FormatterTraits.TakeTrait | monster-creator/scripts/statblock-formatter.js:425-472 | one trait changes the kept traits and the lists exactly as one step of the split function |
| FormatterTraits.SplitOk | monster-creator/scripts/statblock-formatter.js:412-475 | every stage of the split keeps each list duplicate-free and without empty text, and every kept trait named and not one of the list names |
| FormatterTraits.SplitLists | monster-creator/scripts/statblock-formatter.js:434-465 | a trait named for a list leaves its text in that list, whatever follows it |
| FormatterTraits.ListsFromTraits | monster-creator/scripts/statblock-formatter.js:434-465 | every text in a list came from some earlier trait named for that list |
| FormatterAttacks.SafeStringOr | monster-creator/scripts/statblock-formatter.js:924-928 | the damage type read is either the fallback value itself or non-empty text |
| FormatterAttacks.SafeStringOrAgrees | monster-creator/scripts/statblock-formatter.js:76-101 | with a text fallback, the value read is exactly the safe-string text |
| FormatterAttacks.DamageOf | monster-creator/scripts/statblock-formatter.js:958-970 | a damage formula is empty iff its average is not a number |
| FormatterAttacks.ReadAttack | monster-creator/scripts/statblock-formatter.js:915-931 | for the primary and the extra damage alike, the formula is empty iff the average is not a number |
| FormatterAttacks.AttackLabel | monster-creator/scripts/statblock-formatter.js:934-936 | the label starts with "R" (Ranged) iff the attack has a positive range and no positive reach, "M" (Melee) otherwise |
| FormatterAttacks.DistanceText | monster-creator/scripts/statblock-formatter.js:938-942 | "reach ..." when there is a reach, else "range ..." when there is a range, and empty iff there is neither |
| FormatterAttacks.TailParts | monster-creator/scripts/statblock-formatter.js:944-953 | the hit bonus part ("+N to hit") when there is a bonus, then the distance when there is one, and nothing else |
| FormatterAttacks.CoreText | monster-creator/scripts/statblock-formatter.js:952-955 | the core line starts with the attack label and ends with "." |
| FormatterAttacks.CoreLine | monster-creator/scripts/statblock-formatter.js:955 | trimming the core text leaves it unchanged |
| FormatterAttacks.Components | monster-creator/scripts/statblock-formatter.js:957-976 | at most two components, none iff neither damage has a formula, each with a formula and a non-empty type; the first is the primary damage when it has a formula, the extra damage otherwise |
| FormatterAttacks.HitSentence | monster-creator/scripts/statblock-formatter.js:997 | the sentence starts with " Hit: " |
| FormatterAttacks.AttackLine | monster-creator/scripts/statblock-formatter.js:915-998 | every attack line is non-empty |
| FormatterAttacks.AttackLineShape | monster-creator/scripts/statblock-formatter.js:978-997 | without a damage formula the line is the core line; with one, the core line followed by " Hit: " |
| FormatterAttacks.AttacksText | monster-creator/scripts/statblock-formatter.js:1000 | the attack text is empty iff there are no attacks |
| FormatterResistances.NamesFrom | monster-creator/scripts/statblock-formatter.js:144-152 | the names kept are truthy and no more than the entries |
| FormatterResistances.NamesFromList | monster-creator/scripts/statblock-formatter.js:144-147 | anything but an array gives no names |
| FormatterResistances.NamesFromNamed | monster-creator/scripts/statblock-formatter.js:144-152 | when every entry has a name, the list is those names, one per entry and in order |
| FormatterResistances.Headed | monster-creator/scripts/statblock-formatter.js:813-836 | a heading line is produced iff the text is non-empty |
| FormatterResistances.DedupLines | monster-creator/scripts/statblock-formatter.js:838-854 | the loop keeps the lines of the de-duplication function |
| FormatterResistances.NormalizeResistances | monster-creator/scripts/statblock-formatter.js:808-857 | the method returns the de-duplication of the display lines followed by the list lines, each in the order immunities, resistances, vulnerabilities, conditions; `DedupMeaning` and `DedupFirstOccurrences` state what it keeps |
| FormatterResistances.DedupUpToFrom | monster-creator/scripts/statblock-formatter.js:841-854 | every kept line is the trimmed form of a given line |
| FormatterResistances.DedupMeaning | monster-creator/scripts/statblock-formatter.js:838-854 | the kept lines are trimmed, non-empty and distinct ignoring case, each comes from a given line, and every non-blank given line is kept up to case |
| FormatterResistances.DedupOfClean | monster-creator/scripts/statblock-formatter.js:838-854 | clean lines pass through unchanged |
| FormatterResistances.DedupFirstOccurrences | monster-creator/scripts/statblock-formatter.js:838-854 | each kept line is the trimmed spelling of the first line with its lower-case form, and the kept lines come in the order of those first lines |
| FormatterResistances.DedupIdempotent | monster-creator/scripts/statblock-formatter.js:838-854 | de-duplicating twice is de-duplicating once |
| FormatterResistances.RawLinesUnder | monster-creator/scripts/statblock-formatter.js:813-836 | every line before de-duplication is "Heading: text" under one of the four headings |
| FormatterResistances.TrimEndKeeps | monster-creator/scripts/statblock-formatter.js:842 | trimming the end keeps a prefix that ends in a non-space |
| FormatterResistances.ResistanceLinesMeaning | monster-creator/scripts/statblock-formatter.js:808-857 | the returned lines are clean, and each starts with one of the four headings and a colon |
| FormatterActions.TypeOfCodeMeaning | monster-creator/scripts/statblock-formatter.js:893-901 | each kind's code gives that kind, and a kind other than a plain action comes only from its own code |
| FormatterActions.NormalizeActionMeaning | monster-creator/scripts/statblock-formatter.js:903-1001 | an action is always named; its text is the description when there is one, and is empty iff there is neither a description nor an attack |
| FormatterActions.PreambleOfSentence | monster-creator/scripts/statblock-formatter.js:1021 | "the X can take N legendary action..." is the preamble for any one-line creature text X and digit N |
| FormatterActions.PreambleNeedsThe | monster-creator/scripts/statblock-formatter.js:1021 | a name not starting with "the " is never the preamble |
| FormatterActions.GroupIndex | monster-creator/scripts/statblock-formatter.js:1004-1011 | each kind has a group among the six |
| FormatterActions.ActionGroups.Push | monster-creator/scripts/statblock-formatter.js:1025-1043 | exactly the kind's group gains the entry at its end |
| FormatterActions.MergeActionsByType | monster-creator/scripts/statblock-formatter.js:1003-1047 | the fresh groups are those of the grouping function |
| FormatterActions.GroupsMeaning | monster-creator/scripts/statblock-formatter.js:1017-1044 | over the whole list a group holds exactly the entries of its kind that are not the preamble, in order |
| FormatterActions.MergedByTypeMeaning | monster-creator/scripts/statblock-formatter.js:1003-1047 | an action is in the group of a kind iff it is of that kind and is not the legendary preamble |
| FormatterStatblock.Filled | monster-creator/scripts/statblock-formatter.js:636 | the kept lines hold no empty line and are no more than the input |
| FormatterStatblock.FilledHas | monster-creator/scripts/statblock-formatter.js:636 | `filter(Boolean)` keeps a line exactly when it is in the input and non-empty |
| FormatterStatblock.FilledOfFilled | monster-creator/scripts/statblock-formatter.js:636 | lines without an empty one pass the filter unchanged |
| FormatterStatblock.EntryTextShape | monster-creator/scripts/statblock-formatter.js:632-634 | an entry's text is empty exactly when its name is; otherwise it opens with "Name." and, when there is a description, "Name. " and the description |
| FormatterStatblock.EntryLineShape | monster-creator/scripts/statblock-formatter.js:630-634 | an entry line is empty exactly when its title-cased name (after the fallback) is; it opens with "Name." and then the description's text |
| FormatterStatblock.FormatActionLines | monster-creator/scripts/statblock-formatter.js:623-637 | a value that is not an array gives no lines, and no listed line is empty |
| FormatterStatblock.FormatActionLinesHas | monster-creator/scripts/statblock-formatter.js:623-637 | a line is listed exactly when it is non-empty and some entry's line equals it |
| FormatterStatblock.TraitValue | monster-creator/scripts/statblock-formatter.js:412-475 | a remaining trait is pushed with its name and its description readable back as they were |
| FormatterStatblock.TraitLine | monster-creator/scripts/statblock-formatter.js:623-637 | a remaining trait's line is "Name." or "Name. " plus its description made a sentence |
| FormatterStatblock.FirstTruthy | monster-creator/scripts/statblock-formatter.js:648-655 | the fallback chain's value is truthy exactly when some value is, a truthy result is one of the values, and otherwise it is "" |
| FormatterStatblock.ArmorLine | monster-creator/scripts/statblock-formatter.js:648-656 | the armor line opens with "Armor Class " |
| FormatterStatblock.HitPointsLine | monster-creator/scripts/statblock-formatter.js:657-658 | the hit-points line is "Hit Points " and the count, followed by the normalized formula in parentheses exactly when the formula's text is not empty, even when normalizing leaves nothing of it |
| FormatterStatblock.AbilityPart | monster-creator/scripts/statblock-formatter.js:660-667 | each ability part opens with its three-letter name and a space |
| FormatterStatblock.AbilitiesLine | monster-creator/scripts/statblock-formatter.js:660-667 | the ability line opens with "STR " |
| FormatterStatblock.ChallengeValue | monster-creator/scripts/statblock-formatter.js:691 | the challenge rating read is always a finite number |
| FormatterStatblock.ExperiencePoints | monster-creator/scripts/statblock-formatter.js:692 | the experience points shown are always a finite number |
| FormatterStatblock.ChallengeLine | monster-creator/scripts/statblock-formatter.js:688-693 | the challenge line opens with "Challenge " |
| FormatterStatblock.KindLine | monster-creator/scripts/statblock-formatter.js:647 | the size, type and alignment line is never empty |
| FormatterStatblock.HeaderLines | monster-creator/scripts/statblock-formatter.js:645-697 | every statblock opens with eight non-empty lines: name, kind, then the lines labelled Armor Class, Hit Points, Speed, STR, Challenge and Proficiency Bonus, in that order |
| FormatterStatblock.OptionalLine | monster-creator/scripts/statblock-formatter.js:670-677 | `appendIfExists` writes at most one line |
| FormatterStatblock.OptionalFromHas | monster-creator/scripts/statblock-formatter.js:669-686 | a line is an optional line exactly when it is "Label a, b" for some special list whose non-empty entries are not empty |
| FormatterStatblock.TraitsOf | monster-creator/scripts/statblock-formatter.js:641 | reading the traits fails exactly when they are truthy and not an array |
| FormatterStatblock.StatblockLines | monster-creator/scripts/statblock-formatter.js:639-761 | the text's lines are missing exactly when reading the traits fails |
| FormatterStatblock.StatblockText | monster-creator/scripts/statblock-formatter.js:639-761 | the text is missing exactly when reading the traits fails |
| FormatterStatblock.AfterBlankAppend | monster-creator/scripts/statblock-formatter.js:699-758 | joining two runs of lines, the first ending in a non-empty line, adds no blank line across the join |
| FormatterStatblock.AfterBlankNone | monster-creator/scripts/statblock-formatter.js:645-697 | lines without a blank one introduce nothing |
| FormatterStatblock.AfterBlankOpening | monster-creator/scripts/statblock-formatter.js:699-702 | a blank line before a run without blank lines introduces only that run's first line |
| FormatterStatblock.SectionOpening | monster-creator/scripts/statblock-formatter.js:704-758 | a section with lines ends in a non-empty line, and its blank line introduces only its heading |
| FormatterStatblock.SectionsShown | monster-creator/scripts/statblock-formatter.js:704-758 | the blank lines of the sections introduce exactly the headings of the non-empty sections, in order |
| FormatterStatblock.BlockOpenings | monster-creator/scripts/statblock-formatter.js:699-702 | after the header, the optional block introduces only its first line |
| FormatterStatblock.LayoutOpenings | monster-creator/scripts/statblock-formatter.js:639-761 | the blank lines of a layout introduce exactly the first optional line, if any, then the heading of every non-empty section in the fixed order Traits, Actions, Bonus Actions, Reactions, Legendary Actions, Mythic Actions, Lair Actions, Regional Effects |
| FormatterStatblock.ShownHas | monster-creator/scripts/statblock-formatter.js:704-758 | a section's heading is shown exactly when its list writes a line |
| FormatterStatblock.NotShownBefore | monster-creator/scripts/statblock-formatter.js:704-758 | a heading is never shown among the later sections |
| FallbackText.SafeString | monster-creator/scripts/monster-creator-statblock-parser.js:155-159 | a result other than the fallback is the value's trimmed, non-blank text, and a value whose trim is not blank always gives that trim |
| FallbackText.NonEmpty | monster-creator/scripts/monster-creator-statblock-parser.js:172 | `filter(Boolean)` keeps exactly the non-empty strings, and no more of them than were given |
| FallbackText.HalveSpaces | monster-creator/scripts/monster-creator-statblock-parser.js:174 | the single pass over pairs of spaces never lengthens the text and keeps its first character |
| FallbackText.HalveSpacesKeeps | monster-creator/scripts/monster-creator-statblock-parser.js:174 | text with no pair of spaces is left unchanged |
| FallbackText.HalveSpacesLeavesNoPair | monster-creator/scripts/monster-creator-statblock-parser.js:174 | text with no run of three spaces has no pair of spaces left after the pass |
| FallbackText.ThreeSpacesBecomeTwo | monster-creator/scripts/monster-creator-statblock-parser.js:174 | a run of three spaces becomes two, so the pass does not collapse longer runs |
| FallbackText.ReplaceFirstAbsent | monster-creator/scripts/monster-creator-statblock-parser.js:175 | replacing "- " in text without a hyphen changes nothing |
| FallbackText.SplitStops | monster-creator/scripts/monster-creator-statblock-parser.js:180 | `split(/[.!]/)` gives one more piece than there are stops, and no piece holds a stop |
| FallbackText.Sentence | monster-creator/scripts/monster-creator-statblock-parser.js:182 | each piece becomes text ending in "." |
| FallbackText.SplitSentences | monster-creator/scripts/monster-creator-statblock-parser.js:178-183 | every sentence yielded is non-empty and ends in "." |
| FallbackText.SentenceShape | monster-creator/scripts/monster-creator-statblock-parser.js:182 | a sentence is the trimmed piece followed by ".", with no other stop character |
| FallbackText.SentencesEndOnce | monster-creator/scripts/monster-creator-statblock-parser.js:178-183 | every sentence ends in "." and holds no other "." or "!" |
| FallbackText.BlankPieceIsDot | monster-creator/scripts/monster-creator-statblock-parser.js:181-182 | a piece of spaces between two stops survives the filter and becomes a lone "." |
| FallbackText.DropMarks | monster-creator/scripts/monster-creator-statblock-parser.js:164 | removing the combining marks leaves none and never lengthens the text |
| FallbackText.Hyphenate | monster-creator/scripts/monster-creator-statblock-parser.js:165 | after hyphenation only [a-z0-9-] remain, no two hyphens are adjacent, and the text starts with a hyphen exactly when it started with another character |
| FallbackText.StripEdgeHyphens | monster-creator/scripts/monster-creator-statblock-parser.js:166 | the result neither starts nor ends with a hyphen and keeps the slug alphabet |
| FallbackText.Take90 | monster-creator/scripts/monster-creator-statblock-parser.js:167 | the cut keeps the first characters, at most 90 of them, and all of a text that fits |
| FallbackText.SlugBase | monster-creator/scripts/monster-creator-statblock-parser.js:162-165 | the slug's base uses only [a-z0-9-] and no double hyphen |
| FallbackText.MakeSlugAsWritten | monster-creator/scripts/monster-creator-statblock-parser.js:161-168 | the slug as written has at most 90 characters of [a-z0-9-] and does not start with "-" |
| FallbackText.MakeSlug | monster-creator/scripts/monster-creator-statblock-parser.js:161-168 | the corrected slug has at most 90 characters of [a-z0-9-] and neither starts nor ends with "-" |
| FallbackText.HyphenateKeeps | monster-creator/scripts/monster-creator-statblock-parser.js:165 | lower-case letters pass through hyphenation unchanged |
| FallbackText.DropMarksKeeps | monster-creator/scripts/monster-creator-statblock-parser.js:164 | lower-case letters pass through mark removal unchanged |
| FallbackText.SlugBaseOfTwoWords | monster-creator/scripts/monster-creator-statblock-parser.js:162-165 | two lower-case words get one hyphen between them |
| FallbackText.SlugCutAtHyphen | monster-creator/scripts/monster-creator-statblock-parser.js:161-168 | a name of 89 letters, a space and a letter slugs as written to the 89 letters and a trailing "-"; the corrected slug is the 89 letters |
| FallbackText.BreakBulletsKeeps | monster-creator/scripts/monster-creator-statblock-parser.js:187 | text with no bullet is not changed by the bullet break |
| FallbackText.BreakBulletsBreaks | monster-creator/scripts/monster-creator-statblock-parser.js:187 | text with a bullet gains a line break |
| FallbackText.DisplayPlainText | monster-creator/scripts/monster-creator-statblock-parser.js:185-192 | text with no bullet and no line break is shown as it is |
| FallbackText.DisplayBullets | monster-creator/scripts/monster-creator-statblock-parser.js:185-192 | text with a bullet is shown as paragraphs opening with "<p>" |
| FallbackText.FirstStop | monster-creator/scripts/monster-creator-statblock-parser.js:121 | the stop found is the first "." or "!" at or after the start, and none is found only when there is none |
| FallbackText.LastOpen | monster-creator/scripts/monster-creator-statblock-parser.js:121 | the "(" found is the last one before the position, and none is found only when there is none |
| FallbackText.FallbackTitle | monster-creator/scripts/monster-creator-statblock-parser.js:121 | a title starts with a capital letter and has at least two characters |
| FallbackText.TitleSentenceIffLetter | monster-creator/scripts/monster-creator-statblock-parser.js:121-122 | on a sentence ending in "." without a line break, the two title patterns together accept exactly the sentences that begin with a letter |
| FallbackText.RatingAfter | monster-creator/scripts/monster-creator-statblock-parser.js:129 | a rating found starts at or after the position, on a rating character |
| FallbackText.ChallengeAt | monster-creator/scripts/monster-creator-statblock-parser.js:129 | a match found at a position has its rating after the keyword, on a rating character |
| FallbackText.FirstChallenge | monster-creator/scripts/monster-creator-statblock-parser.js:129 | the leftmost match's rating starts after the position, on a rating character |
| FallbackText.XpAfter | monster-creator/scripts/monster-creator-statblock-parser.js:129 | an `xp` group is non-empty and made of digits and commas |
| FallbackText.ChallengeMatch | monster-creator/scripts/monster-creator-statblock-parser.js:129 | a match's rating group is non-empty and made of digits, "/" and "½" |
| FallbackText.NumberOr0 | monster-creator/scripts/monster-creator-statblock-parser.js:146-153 | `safeNumber(text, 0)` reads a run of digits as its value and anything else on these characters as 0 |
| FallbackText.SplitSeveral | monster-creator/scripts/monster-creator-statblock-parser.js:320 | a separator that occurs cuts the text into at least two pieces |
| FallbackText.ReadChallenge | monster-creator/scripts/monster-creator-statblock-parser.js:314-329 | the rating read is never negative |
| FallbackText.ParseChallenge | monster-creator/scripts/monster-creator-statblock-parser.js:308-330 | no result exactly when the challenge pattern does not match; otherwise the groups read as a rating |
| FallbackText.ReadHalf | monster-creator/scripts/monster-creator-statblock-parser.js:315-317 | "½" is rating 0.5 with 0 experience points |
| FallbackText.ReadFraction | monster-creator/scripts/monster-creator-statblock-parser.js:319-323 | "a/b" with both parts non-zero is a/b with 0 experience points |
| FallbackText.ReadWhole | monster-creator/scripts/monster-creator-statblock-parser.js:326-329 | a run of digits is its value, with the experience points read after the commas are removed |
| FallbackText.ReadZeroFraction | monster-creator/scripts/monster-creator-statblock-parser.js:319-329 | a fraction with a zero part falls through: "a/b" is not a number, so the rating is 0 and the experience points are kept |
| FallbackText.AddSentence | monster-creator/scripts/monster-creator-statblock-parser.js:361-374 | a title sentence appends an entry named by it without its stop; other text joins the last entry, whose name stays; before any entry it starts "Description" |
| FallbackText.Grouped | monster-creator/scripts/monster-creator-statblock-parser.js:360-375 | the loop yields entries exactly when there are sentences |
| FallbackText.GroupedStep | monster-creator/scripts/monster-creator-statblock-parser.js:361-374 | one sentence adds its name when it is a title, starts "Description" when it is the first and not a title, and otherwise adds no name |
| FallbackText.GroupedNames | monster-creator/scripts/monster-creator-statblock-parser.js:360-375 | the entries are named "Description" when text comes before the first title, then one name per title sentence, in order |
| FallbackText.TitleEntries | monster-creator/scripts/monster-creator-statblock-parser.js:362-364 | one entry with no text per sentence, named by it without its stop |
| FallbackText.AllTitlesStandAlone | monster-creator/scripts/monster-creator-statblock-parser.js:360-375 | when every sentence is a title, each becomes its own entry with no text |
| FallbackText.LetterSentencesStandAlone | monster-creator/scripts/monster-creator-statblock-parser.js:360-375 | when every sentence begins with a letter, each becomes its own entry with no text |
| FallbackText.Displayed | monster-creator/scripts/monster-creator-statblock-parser.js:377-380 | display formatting keeps every entry and its name |
| FallbackText.GroupSentences | monster-creator/scripts/monster-creator-statblock-parser.js:357-375 | the loop computes the grouping of the sentences |
| FallbackText.GetBlockDatas | monster-creator/scripts/monster-creator-statblock-parser.js:350-381 | `getBlockDatas` computes the grouped, displayed entries of the non-empty lines |
| FallbackSegmenter.FirstEntry | monster-creator/scripts/monster-creator-statblock-parser.js:138-144 | an entry found is at or after the start, matches the line and belongs to a block not excluded |
| FallbackSegmenter.FirstEntryIsFirst | monster-creator/scripts/monster-creator-statblock-parser.js:138-144 | no earlier entry is a candidate, and nothing is found exactly when no entry is a candidate |
| FallbackSegmenter.FirstMatch | monster-creator/scripts/monster-creator-statblock-parser.js:138-144 | the block found is never one already excluded |
| FallbackSegmenter.StepValid | monster-creator/scripts/monster-creator-statblock-parser.js:653-690 | one iteration keeps the invariant: the key order lists each buffer once, the current block has a buffer whenever any exists, and an ability run is only open on `abilities` |
| FallbackSegmenter.RunStep | monster-creator/scripts/monster-creator-statblock-parser.js:653-690 | the pass over n lines is one iteration after the pass over n - 1 |
| FallbackSegmenter.PlacedFrame | monster-creator/scripts/monster-creator-statblock-parser.js:685-689 | buffers of blocks not in the key order hold no counted lines |
| FallbackSegmenter.PlacedSame | monster-creator/scripts/monster-creator-statblock-parser.js:685-689 | buffers that agree on the listed blocks hold the same lines |
| FallbackSegmenter.PlacedAppend | monster-creator/scripts/monster-creator-statblock-parser.js:685-686 | pushing a line into a listed buffer adds exactly that line |
| FallbackSegmenter.StepPlaced | monster-creator/scripts/monster-creator-statblock-parser.js:685-689 | each iteration places its line exactly once: in one buffer or among the free lines |
| FallbackSegmenter.StepGrows | monster-creator/scripts/monster-creator-statblock-parser.js:653-690 | an iteration never replaces a buffer, so no line once placed is dropped |
| FallbackSegmenter.FreeLinesStep | monster-creator/scripts/monster-creator-statblock-parser.js:685-689 | while no buffer exists the line is free; once one does, the free lines stay as they are |
| FallbackSegmenter.FreeLinesNext | monster-creator/scripts/monster-creator-statblock-parser.js:685-689 | the free lines stay a prefix of the lines read so far |
| FallbackSegmenter.RunPlaced | monster-creator/scripts/monster-creator-statblock-parser.js:653-690 | after the pass the buffers and the free lines together hold each line exactly as often as the input does |
| FallbackSegmenter.FreeLinesFirst | monster-creator/scripts/monster-creator-statblock-parser.js:653-690 | the free lines are a prefix of the input, and all of it when no block ever opens |
| FallbackSegmenter.MatchStartsBlock | monster-creator/scripts/monster-creator-statblock-parser.js:654-678 | a matched line's block had no buffer (seen blocks are excluded); it becomes current with the line alone in its buffer, is listed last, and sets the top-region and ability-run flags from the block |
| FallbackSegmenter.TitleJoinsFeatures | monster-creator/scripts/monster-creator-statblock-parser.js:656-686 | an unmatched title line in the top region leaves the top region and is appended to the `features` buffer after the lines it holds |
| FallbackSegmenter.UnmatchedContinues | monster-creator/scripts/monster-creator-statblock-parser.js:685-686 | any other unmatched line is appended to the current block, so unmatched lines after an ability line stay with it |
| FallbackSegmenter.RacialDetailsOpensRace | monster-creator/scripts/monster-creator-statblock-parser.js:680-686 | the line "Racial Details", matching nothing, opens the `race` buffer holding that line and makes it current |
| FallbackSegmenter.TakeLine | monster-creator/scripts/monster-creator-statblock-parser.js:653-690 | one iteration of the loop computes the step |
| FallbackSegmenter.Segment | monster-creator/scripts/monster-creator-statblock-parser.js:647-690 | the loop computes the pass; the buffers and free lines together hold exactly the input lines, the free lines are a prefix of them, and the key order lists each buffer once |
| FallbackSegmenter.CrLfToLf | monster-creator/scripts/monster-creator-statblock-parser.js:638 | turning "\r\n" into "\n" never lengthens the text |
| FallbackSegmenter.TrimmedLines | monster-creator/scripts/monster-creator-statblock-parser.js:637-642 | no line of the pass is empty |
| FallbackFields.Fresh | monster-creator/scripts/monster-creator-statblock-parser.js:194-235 | a new record has the given name, every ability at 10, no speeds, no free lines and no challenge |
| FallbackFields.WordEnd | monster-creator/scripts/monster-creator-statblock-parser.js:123 | the run of word characters from a position ends before the first character that is not one |
| FallbackFields.DigitEnd | monster-creator/scripts/monster-creator-statblock-parser.js:124 | the run of digits from a position ends before the first character that is not a digit |
| FallbackFields.LastWhere | monster-creator/scripts/monster-creator-statblock-parser.js:121 | the position found is the last one in the range whose character qualifies, and none is found only when none qualifies |
| FallbackFields.NamesFrom | monster-creator/scripts/monster-creator-statblock-parser.js:513 | every ability name found is one of the six three-letter codes |
| FallbackFields.ValueAt | monster-creator/scripts/monster-creator-statblock-parser.js:514 | a score match found at a position ends after it, within the line |
| FallbackFields.StopAt | monster-creator/scripts/monster-creator-statblock-parser.js:512-527 | the setter reads a number of lines between where it is and the end |
| FallbackFields.StopAtFirstSix | monster-creator/scripts/monster-creator-statblock-parser.js:512-527 | the setter stops right after the first line that brings the scores to six or more; before it, fewer than six were found |
| FallbackFields.SetAbilities | monster-creator/scripts/monster-creator-statblock-parser.js:508-534 | the abilities setter keeps six scores |
| FallbackFields.AbilitiesByPosition | monster-creator/scripts/monster-creator-statblock-parser.js:529-533 | when names and scores were found, the first min(6, names, scores) abilities in the order str, dex, con, int, wis, cha take the scores by position, and the rest keep their values |
| FallbackFields.SpeedAt | monster-creator/scripts/monster-creator-statblock-parser.js:133 | a speed match has a non-empty name and a non-empty run of digits, ending within the line |
| FallbackFields.SpeedsFrom | monster-creator/scripts/monster-creator-statblock-parser.js:571 | every speed match has a name and digits |
| FallbackFields.SpeedEntries | monster-creator/scripts/monster-creator-statblock-parser.js:574-581 | every pushed speed has a non-zero value and a name, and none is named "speed" |
| FallbackFields.EntriesStep | monster-creator/scripts/monster-creator-statblock-parser.js:574-581 | a match with a name and a non-zero value adds its entry; any other adds nothing |
| FallbackFields.RecordStep | monster-creator/scripts/monster-creator-statblock-parser.js:580 | recording one more entry is one more update of `speedAll` |
| FallbackFields.RecordAgrees | monster-creator/scripts/monster-creator-statblock-parser.js:579-580 | pushing entries and recording them keeps `speeds` and `speedAll` consistent |
| FallbackFields.SpeedSetterAgrees | monster-creator/scripts/monster-creator-statblock-parser.js:569-582 | the speed setter keeps `speeds` and `speedAll` consistent, keeps the speeds already there, and adds only non-zero speeds never named "speed" |
| FallbackFields.SetChallenge | monster-creator/scripts/monster-creator-statblock-parser.js:535-538 | the challenge setter keeps the old challenge when the pattern does not match, and otherwise stores a non-negative rating |
| FallbackFields.DropHeader | monster-creator/scripts/monster-creator-statblock-parser.js:387-392 | removing a header never lengthens the text |
| FallbackFields.KnownFrom | monster-creator/scripts/monster-creator-statblock-parser.js:406-408 | every word found is one of the known damage or condition words |
| FallbackFields.RemovedPartition | monster-creator/scripts/monster-creator-statblock-parser.js:406-411 | the known words found and the text left after removing them account for every character |
| FallbackFields.Tokens | monster-creator/scripts/monster-creator-statblock-parser.js:394-397 | no token is empty |
| FallbackFields.SpecialText | monster-creator/scripts/monster-creator-statblock-parser.js:410-428 | the special text is never blank: it is missing instead |
| FallbackFields.DefenceFilled | monster-creator/scripts/monster-creator-statblock-parser.js:383-433 | a line with text between its semicolons always leaves a non-empty list, made of known words unless none occurs, and then of the tokens |
| FallbackFields.TypeStart | monster-creator/scripts/monster-creator-statblock-parser.js:128 | the type group starts after the size word, on a word character |
| FallbackFields.RaceAt | monster-creator/scripts/monster-creator-statblock-parser.js:128 | a race group found ends after where it starts, within the line |
| FallbackFields.RacialMatch | monster-creator/scripts/monster-creator-statblock-parser.js:436 | a racial match starts with a word character and has a non-empty type |
| FallbackFields.SetRacial | monster-creator/scripts/monster-creator-statblock-parser.js:435-437 | a line the pattern does not match changes nothing |
| FallbackFields.RacialTypeSettled | monster-creator/scripts/monster-creator-statblock-parser.js:439-450 | after a match the size is the matched one, and the type is either a known creature type in the singular with no custom type, or also the custom type |
| FallbackFields.HeadingIgnored | monster-creator/scripts/monster-creator-statblock-parser.js:453-480 | the heading line of an action block does not matter, and `traits` appends its entries to the features |
| FallbackFields.ApplyBlock | monster-creator/scripts/monster-creator-statblock-parser.js:482-583 | a setter never changes the name or the free lines |
| FallbackFields.JoinedHeading | monster-creator/scripts/monster-creator-statblock-parser.js:702 | a race block opened by "Racial Details" joins into text starting with the word "Racial" |
| FallbackFields.RacialIsNoSize | monster-creator/scripts/monster-creator-statblock-parser.js:128 | text starting with the word "Racial" does not match the racial pattern |
| FallbackFields.HeadingBlocksRaceAsWritten | monster-creator/scripts/monster-creator-statblock-parser.js:680-702 | as written, a race block opened by "Racial Details" never changes the racial details |
| FallbackFields.HeadingSkipped | monster-creator/scripts/monster-creator-statblock-parser.js:680-702 | with the heading dropped, the line after it is read as the racial details |
| FallbackFields.FeaturesDroppedAsWritten | monster-creator/scripts/monster-creator-statblock-parser.js:482-489 | as written, the implicit `features` block has no setter and its lines are lost |
| FallbackFields.FeaturesKept | monster-creator/scripts/monster-creator-statblock-parser.js:459-461 | with the setter in place, the `features` block's entries become the features, with no heading dropped |
| FallbackFields.ApplyAll | monster-creator/scripts/monster-creator-statblock-parser.js:701-706 | applying the chosen variant's setters never changes the name or the free lines |
| FallbackFields.SettersAgree | monster-creator/scripts/monster-creator-statblock-parser.js:482-583 | on every block but `features` and `race`, the setter as written and the corrected setter compute the same record |
| FallbackFields.VariantsAgree | monster-creator/scripts/monster-creator-statblock-parser.js:701-706 | without a `features` or `race` block, the setters as written and as corrected fill the same record |
| FallbackMonster.MonsterData.constructor | monster-creator/scripts/monster-creator-statblock-parser.js:194-235 | a new object holds the fresh record |
| FallbackMonster.MonsterData.GatherAbilities | monster-creator/scripts/monster-creator-statblock-parser.js:512-527 | the collecting loop returns the names and scores of the lines up to and including the first that brings the scores to six or more |
| FallbackMonster.MonsterData.SetAbilities | monster-creator/scripts/monster-creator-statblock-parser.js:508-534 | the abilities setter changes only the scores, to the setter's result, keeping six |
| FallbackMonster.MonsterData.SetSpeed | monster-creator/scripts/monster-creator-statblock-parser.js:569-582 | the speed setter changes only the movement, to the setter's result |
| FallbackMonster.MonsterData.SetChallenge | monster-creator/scripts/monster-creator-statblock-parser.js:535-538 | the challenge setter changes only the challenge |
| FallbackMonster.MonsterData.ParseDefence | monster-creator/scripts/monster-creator-statblock-parser.js:383-433 | `parseDamageOrConditionLine` changes only the damage and condition fields, as the defence setter computes |
| FallbackMonster.MonsterData.WriteLists | monster-creator/scripts/monster-creator-statblock-parser.js:416-432 | the list and special text are written to the fields of the given type only |
| FallbackMonster.MonsterData.GetRacialDetails | monster-creator/scripts/monster-creator-statblock-parser.js:435-451 | `getRacialDetails` changes only the racial fields, as the racial setter computes |
| FallbackMonster.MonsterData.ApplyActionLines | monster-creator/scripts/monster-creator-statblock-parser.js:453-480 | `applyActionLines` changes only the entry lists, as the action setter computes |
| FallbackMonster.MonsterData.StoreEntries | monster-creator/scripts/monster-creator-statblock-parser.js:465-479 | the entries are stored in the list of the given block only |
| FallbackMonster.MonsterData.ApplyBlock | monster-creator/scripts/monster-creator-statblock-parser.js:482-583 | one block's setter leaves the record the corrected setter function computes |
| FallbackMonster.MonsterData.ApplyScoreBlock | monster-creator/scripts/monster-creator-statblock-parser.js:508-582 | the abilities and speed setters leave the record the setter function computes |
| FallbackMonster.MonsterData.ApplyDefenceBlock | monster-creator/scripts/monster-creator-statblock-parser.js:549-552 | the four defence setters leave the record the setter function computes |
| FallbackMonster.MonsterData.ApplySetter | monster-creator/scripts/monster-creator-statblock-parser.js:482-583 | one block's setter of the chosen variant leaves the record the variant's setter function computes; as written, `features` changes nothing and `race` reads the heading line too |
| FallbackMonster.MonsterData.ApplyAll | monster-creator/scripts/monster-creator-statblock-parser.js:701-706 | the loop over the blocks, in the order their keys were first seen, leaves the record the chosen variant's setters compute |
| FallbackMonster.RacialFallback | monster-creator/scripts/monster-creator-statblock-parser.js:692-699 | without a `features` block the first free line is taken as the racial details and removed; otherwise nothing changes |
| FallbackMonster.ParsedMonster | monster-creator/scripts/monster-creator-statblock-parser.js:636-706 | for either variant, no record exactly when the text has no non-empty line; otherwise its name is the first such line |
| FallbackMonster.Parse5eStatblock | monster-creator/scripts/monster-creator-statblock-parser.js:636-706 | null exactly when the text has no non-empty line; otherwise a new object holding the record the segmentation and the chosen variant's setters compute (`AsWritten`: the code as written) |
| MonsterCreator.DropTrailingSlashes | monster-creator/scripts/monster-creator.js:23 | the result is a prefix of the text that does not end in "/", and everything cut off is "/" |
| MonsterCreator.ApiRootRebuilds | monster-creator/scripts/monster-creator.js:17-24 | the normalized root is the trimmed text without its run of trailing slashes: a prefix of it, not ending in "/", followed in it only by slashes |
| MonsterCreator.ApiRootOfNonText | monster-creator/scripts/monster-creator.js:18-20 | anything but a string normalizes to "" |
| MonsterCreator.Clamp | monster-creator/scripts/monster-creator.js:50-56 | a non-finite number gives min; the result is never below min, never above max when min <= max, and a number already in range comes back unchanged |
| MonsterCreator.ClampIdempotent | monster-creator/scripts/monster-creator.js:50-56 | clamping a clamped number changes nothing |
| MonsterCreator.SafeInt | monster-creator/scripts/monster-creator.js:263-266 | a finite number gives a whole number at least 1 that is its floor when above 1; anything else gives the fallback |
| MonsterCreator.SafeIntOfNat | monster-creator/scripts/monster-creator.js:263-266 | the text of a whole number reads back as that number, 0 raised to 1 |
| MonsterCreator.SafeNumber | monster-creator/scripts/monster-creator.js:213-261 | the result is the fallback or finite; null and undefined give the fallback; a number gives itself when finite |
| MonsterCreator.SafeNumberOfNat | monster-creator/scripts/monster-creator.js:234-253 | the text of a whole number reads back as that number |
| MonsterCreator.DropCommasOfDigits | monster-creator/scripts/monster-creator.js:251 | digits have no commas to drop |
| MonsterCreator.SafeString | monster-creator/scripts/monster-creator.js:268-287 | the result is the fallback or non-empty text without surrounding whitespace; null and undefined give the fallback; a string gives its trim unless that is blank |
| Text.TrimWideSpaces | monster-creator/scripts/monster-creator.js:286 | `trim` removes the Unicode whitespace JavaScript knows, such as the ideographic space and the byte-order mark, as well as the ASCII spaces |
| MonsterCreator.Trimmed | monster-creator/scripts/monster-creator.js:285-286 | the result is the fallback or the non-empty trimmed text |
| MonsterCreator.PlainObjectText | monster-creator/scripts/monster-creator.js:270-286 | an object with none of value, name, text or desc reads as "[object Object]", not as the fallback |
| MonsterCreator.NestedIndex | monster-creator/scripts/monster-creator.js:378 | the property read by `value ?? number ?? distance` exists and is not undefined |
| MonsterCreator.ParseNumericString | monster-creator/scripts/monster-creator.js:368-391 | the result is the fallback or finite; null and undefined give the fallback; a number gives itself when finite |
| MonsterCreator.NumberInText | monster-creator/scripts/monster-creator.js:384-390 | the first number in the text, or the fallback, is finite or the fallback |
| MonsterCreator.NumberAfterText | monster-creator/scripts/monster-creator.js:389-390 | a number written after text with no digit, sign or "." is found: "30 ft." reads as 30 |
| MonsterCreator.NoNumberBefore | monster-creator/scripts/monster-creator.js:389 | a prefix with no digit, sign or "." does not change where the first number is found |
| MonsterCreator.NumericValueField | monster-creator/scripts/monster-creator.js:377-381 | an object with a `value` property that is not null is read through it |
| MonsterCreator.ParseChallengeRating | monster-creator/scripts/monster-creator.js:393-407 | the result is the fallback or finite |
| MonsterCreator.ChallengeOfRaw | monster-creator/scripts/monster-creator.js:395-406 | the rating read from the raw text is the fallback or finite |
| MonsterCreator.SlashCuts | monster-creator/scripts/monster-creator.js:397-398 | text holding "/" splits into at least two pieces |
| MonsterCreator.ChallengeOfHalf | monster-creator/scripts/monster-creator.js:396 | "½" is 0.5 |
| MonsterCreator.ChallengeOfNat | monster-creator/scripts/monster-creator.js:405-406 | the text of a whole number is its value |
| MonsterCreator.ChallengeOfFraction | monster-creator/scripts/monster-creator.js:397-401 | "a/b" with b not 0 is a/b |
| MonsterCreator.FractionOfNumbers | monster-creator/scripts/monster-creator.js:397-401 | digits around "/" that read as a and b, b not 0, give a/b |
| MonsterCreator.ChallengeOfZeroDenominator | monster-creator/scripts/monster-creator.js:397-402 | "a/0" gives the fallback |
| MonsterCreator.FractionOfDigits | monster-creator/scripts/monster-creator.js:394-402 | digits around "/" give the quotient of the two numbers when both are finite and the second is not 0, and the fallback otherwise |
| MonsterCreator.FractionText | monster-creator/scripts/monster-creator.js:394 | digits around "/" are the raw text read, with no comma removed |
| MonsterCreator.FractionOfRaw | monster-creator/scripts/monster-creator.js:397-402 | raw text "x/y" with no further slash gives the quotient of its pieces read as floats when both are finite and the second is not 0, and the fallback otherwise |
| MonsterCreator.SetProp | monster-creator/scripts/monster-creator.js:427-435 | after a spread update the property reads as the new value |
| MonsterCreator.SetPropOther | monster-creator/scripts/monster-creator.js:427-435 | a spread update leaves every other property as it was |
| MonsterCreator.SetPropSame | monster-creator/scripts/monster-creator.js:427-435 | setting an own property to the value it holds changes nothing |
| MonsterCreator.LettersOnly | monster-creator/scripts/monster-creator.js:421 | only lower-case letters remain |
| MonsterCreator.LettersOnlyKeeps | monster-creator/scripts/monster-creator.js:421 | text of lower-case letters keeps all of them |
| MonsterCreator.SpeedName | monster-creator/scripts/monster-creator.js:421 | a cleaned speed name holds only lower-case letters |
| MonsterCreator.NormalizedSpeedIsClean | monster-creator/scripts/monster-creator.js:416-428 | a kept entry is clean, carries the cleaned name and the number read, and keeps its other properties |
| MonsterCreator.CleanSpeedKept | monster-creator/scripts/monster-creator.js:416-428 | an entry that is already clean comes through unchanged |
| MonsterCreator.NormalizeSpeeds | monster-creator/scripts/monster-creator.js:415-429 | no more entries survive than were given |
| MonsterCreator.NormalizedSpeedsClean | monster-creator/scripts/monster-creator.js:415-429 | every surviving entry is clean: a lower-case letter name and a finite, non-negative value |
| MonsterCreator.CleanSpeedsKept | monster-creator/scripts/monster-creator.js:415-429 | a list of clean entries survives unchanged |
| MonsterCreator.FirstNamed | monster-creator/scripts/monster-creator.js:431-433 | the index found is the first entry with the name, and none is found only when no entry has it |
| MonsterCreator.WithWalk | monster-creator/scripts/monster-creator.js:431-437 | renaming keeps the number of entries |
| MonsterCreator.SanitizedSpeeds | monster-creator/scripts/monster-creator.js:414-440 | after sanitizing every entry is clean; there is a `walk` entry exactly when the surviving entries had one or had an unnamed one; and only the first unnamed entry may change |
| MonsterCreator.SanitizeSpeedsIdempotent | monster-creator/scripts/monster-creator.js:414-440 | sanitizing the speeds twice is sanitizing them once |
| MonsterCreator.SetFinite | monster-creator/scripts/monster-creator.js:444-456 | a guarded write keeps an object an object |
| MonsterCreator.SetFiniteGet | monster-creator/scripts/monster-creator.js:444-456 | after a guarded write the key reads as the number when it is finite, and every property otherwise reads as before |
| MonsterCreator.SanitizedChallenge | monster-creator/scripts/monster-creator.js:442-457 | after sanitizing a challenge object, `cr`, `pb` and `xp` hold the finite numbers they read as, or what they held; no other property changes |
| MonsterCreator.ParsedActorSource.constructor | monster-creator/scripts/monster-creator.js:409-413 | a new actor source holds the given speeds and challenge |
| MonsterCreator.ParsedActorSource.Sanitize | monster-creator/scripts/monster-creator.js:409-458 | a `speeds` array is replaced by its sanitized copy and anything else is kept; the challenge becomes its sanitized form |
| MonsterCreator.Utf8 | monster-creator/scripts/monster-creator.js:547-555 | a character encodes as one to four bytes |
| MonsterCreator.PercentBytes | monster-creator/scripts/monster-creator.js:547-555 | escaped bytes are written with "%" and upper-case hexadecimal digits |
| MonsterCreator.EncodeComponent | monster-creator/scripts/monster-creator.js:547-555 | `encodeURIComponent` writes only unreserved characters and "%" escapes |
| MonsterCreator.EncodeUnreserved | monster-creator/scripts/monster-creator.js:547-555 | text of unreserved characters is encoded as itself |
| MonsterCreator.CreatureSlug | monster-creator/scripts/monster-creator.js:540-543 | a slug found is non-empty and holds no "/", "?" or "#" |
| MonsterCreator.NormalizeLookupInput | monster-creator/scripts/monster-creator.js:508-563 | a slug lookup has a non-empty slug of path characters and the creatures URL under the API root; a query lookup is the trimmed text, never empty |
| MonsterCreator.LookupOfText | monster-creator/scripts/monster-creator.js:539-562 | non-blank text without a scheme always gives a slug or a query lookup |
| MonsterCreator.LookupOfNothing | monster-creator/scripts/monster-creator.js:509-516 | nothing is looked up exactly when the value is not text or is blank |
| MonsterCreator.LookupOfToken | monster-creator/scripts/monster-creator.js:551-557 | a single token is looked up as its lower-cased self, with that slug in the URL |
| MonsterCreator.TokenNotPath | monster-creator/scripts/monster-creator.js:539-541 | a token holds no slash, so it is no creature path |
| MonsterCreator.LookupOfCreaturePath | monster-creator/scripts/monster-creator.js:539-548 | "/v2/creatures/slug/" is looked up as that slug, whatever slashes surround it |
| MonsterCreator.NotInPath | monster-creator/scripts/monster-creator.js:518 | text without ":" contains neither "http://" nor "https://" |
| MonsterCreator.SizeAlias | monster-creator/scripts/monster-creator.js:679-690 | every own alias names a size code |
| MonsterCreator.ConstructorSizeInherited | monster-creator/scripts/monster-creator.js:678-692 | as written, the size "Constructor" reads the inherited `constructor` function of the alias object instead of falling back to "med" |
| MonsterCreator.NormalizedSize | monster-creator/scripts/monster-creator.js:677-693 | the size is always a size code; a size code is kept; anything without an own alias becomes "med" |
| MonsterCreator.ManualMonsterPayload | monster-creator/scripts/monster-creator.js:673-731 | the payload has six ability scores; its size is the alias table's code for the lower-cased size ("med" when the table has none), except that "constructor" and "__proto__" read the inherited member of that name |
| MonsterCreator.SizeAsWrittenAgrees | monster-creator/scripts/monster-creator.js:677-692 | except for "constructor" and "__proto__", the size read from the object literal is the size the intended normalization gives; those two read the inherited member |
| MonsterCreator.ManualPayloadWellFormed | monster-creator/scripts/monster-creator.js:673-731 | whatever the form holds, the payload has a non-empty name, image, type and alignment, a size code (or, for "constructor" and "__proto__", the inherited member read), a finite armor class, hit points, walking speed and ability scores of at least 1, and a challenge text that is the challenge's number text |
| MonsterCreator.ManualPayloadDefaults | monster-creator/scripts/monster-creator.js:673-731 | an empty form gives "New Monster", humanoid, medium, unaligned, armor class 10, 10 hit points, walking speed 30, challenge 0 written "0", every ability 10 and no description |
| MonsterCreator.ManualPayloadChallenge | monster-creator/scripts/monster-creator.js:674-707 | a challenge typed as a whole number is kept, and its text is its digits |

## Left out

- The Foundry UI, settings, hooks and the module's window, drag-and-drop and confetti code are not part of this model. They are DOM and environment code.
- The network is not modelled: `fetchJson`, `resolveOpen5eMonster` and `buildOpen5ePayloadUrl`.
- The `new URL(...)`/`decodeURIComponent` branch of `normalizeOpen5eLookupInput` is not modelled. It depends on the URL parser. The other branches are modelled.
- `normalizeOpen5eApiRoot` takes its value as a parameter. The global and setting it is read from are not modelled.
- The asynchronous `sbiActor` members are not modelled: `setActions`, `setMajorActions`, `setMinorActions`, `setSpells`, `setGear`, `setFeatures`, `fetchSpellByName` and `createActor5e`. They rely on compendium lookups, `Item.create`, `randomID` and `game.settings`.
- `enrichDescription` is not modelled. It reads `game.settings`.
- `stripMarkdownAndCleanInput` is not modelled. It uses DOMParser and showdown.
- The notification and logging helpers, pack lookups and caret/selection helpers of `sbiUtils.js` are not modelled.
- `parseStatblockWithImporter` is not modelled. It delegates to the importer module.
- The JavaScript regular-expression engine is not modelled. Patterns that scan free text inside a field are inputs rather than code:
  - the damage-roll patterns;
  - spell lists;
  - the captures that the extractors of `SbiExtract` receive.
- Only decimal digit strings (with sign, fraction and a single "a/b") are read as numbers. Exponent notation, hexadecimal literals and the rest of `Number`/`parseFloat` are not.
- Floating-point rounding is not modelled. Reals stand for JavaScript numbers, and `toFixed(1)` is modelled as rounding half away from zero on the real value.
- Case mapping covers ASCII letters only (`Text.LowerChar`, `Text.UpperChar`). The Unicode NFKD decomposition in `makeSlug` is not modelled: the combining marks are removed from the characters of the input as given.
- `normalizeMonsterShapeForWotc` is not modelled. Rendering starts from the normalized creature record it produces.
- Some `applySetters` entries of the fallback parser are not modelled: `health`, `souls`, `armor`, `languages`, `savingThrows`, `senses` and `skills`. `setTopLevelDetails` and the normalized output record it builds (`monster-creator-statblock-parser.js:708-767`) are not modelled either. They copy parsed strings into an output record through free-text regexes.
- `buildManualMonsterPayload`: the model returns the fields computed from the form data. The constant empty action lists and the fixed document record of the payload are not modelled.
- `MonsterCreator.ParsedActorSource.Sanitize` models an actor object. The early return for a non-object argument is not modelled.
- SbiSegmenter.Parser.ParseInput: the per-block dispatch after the pass (`sbiParser.js:140-211`), which hands each buffer to its extractor, is not part of the method. The extractors are modelled one by one in `SbiExtract`, on their captures; several of the others are asynchronous or read compendiums.
- FormatterAttacks.ReadAttack: an attack entry that is `null` makes the source throw a TypeError when it reads the entry's fields (`statblock-formatter.js:915-916`); the model reads it like an empty entry.
- FormatterAttacks.AttacksText: for the same reason, an action whose attacks hold a `null` entry renders a line where the source throws; `FormatterActions.NormalizeAction` and the statblock renderer inherit this.
- `SbiBlocks.GetBlockDatas` treats lines as values, so some aspects of `getBlockDatas` are not captured:
  - the in-place edits on shared line objects (appending "." to `l.line`);
  - `matchData` left over from an earlier annotation;
  - title matches that cross a line break.
- The source writes the optional trait lines (saving throws, skills, senses, languages and the others) after the Challenge and Proficiency Bonus lines, not before them. The model follows the code (`statblock-formatter.js:669-702`).

## Findings

| source | as written | input that shows it | evidently intended | confidence | as-written member | corrected member |
|---|---|---|---|---|---|---|
| monster-creator/scripts/sbi-importer/sbiParser.js:93-97 | the features fallback always replaces the `features` buffer with an empty one | a features line, then a top-block line not seen before (for example "Challenge 1", which turns the top region back on), then another unmatched line with an entry title: the earlier features lines are dropped and end in `unknownLines` | keep an existing `features` buffer and append to it, as the fallback parser and the `otherBlock` fallback do | medium, not executed | SbiSegmenter.FeaturesResetDropsLines | SbiSegmenter.CorrectedRunKeepsLines |
| monster-creator/scripts/monster-creator-statblock-parser.js:161-168 | edge hyphens are trimmed before the slug is cut to 90 characters | 89 lower-case letters, a space and one more letter: the slug ends in "-" | a slug that neither starts nor ends with "-" | high, not executed | FallbackText.SlugCutAtHyphen | FallbackText.MakeSlug |
| monster-creator/scripts/monster-creator-statblock-parser.js:482-583 | `applySetters` has no entry for the `features` block, so the segmenter's implicit features buffer is never applied | any statblock whose first entry after the top section is a titled trait: its entries are lost | apply the `features` block like `traits`, through `applyActionLines` | medium, not executed | FallbackFields.FeaturesDroppedAsWritten | FallbackFields.FeaturesKept |
| monster-creator/scripts/monster-creator-statblock-parser.js:680-683 | a "Racial Details" heading opens the `race` buffer with the heading line itself in it, and the race setter reads the joined text, so the heading hides the details | the lines "Racial Details" and "Medium humanoid, neutral": size, type and alignment are not set | skip the heading and parse the following line | medium, not executed | FallbackFields.HeadingBlocksRaceAsWritten | FallbackFields.HeadingSkipped |
| monster-creator/scripts/monster-creator.js:677-692 | size aliases are looked up on a plain object literal, so inherited property names are found | size "Constructor": the lookup yields the inherited `Object` constructor instead of "med" | unknown sizes become "med" | high, not executed | MonsterCreator.ConstructorSizeInherited | MonsterCreator.NormalizedSize |

