// `sbiParser.getBlockDatas` (scripts/sbi-importer/sbiParser.js): cutting an
// action or feature block into its named entries. The spellcasting run is
// pulled out and moved behind the other lines, the remaining lines are
// searched for entry titles, and every titled line opens a new entry.
module SbiBlocks {
  import opened Text
  import opened SbiRegex
  import opened SbiSegmenter
  import opened SbiUtils
  import opened SbiExtract

  // ----- pulling out the spellcasting run -----

  /** `/^innate spellcasting\b|^spellcasting\b/i`. */
  predicate SpellStart(t: string)
  {
    var l := Lower(t);
    (StartsWith(l, "innate spellcasting") && WordEndsAt(l, 19)) || (StartsWith(l, "spellcasting") && WordEndsAt(l, 12))
  }

  /** The text with a "." appended unless it already ends with one. */
  function Dotted(t: string): (r: string)
    ensures EndsWith(r, ".")
    ensures r == t || r == t + "."
  {
    if EndsWith(t, ".") then t else t + "."
  }

  /** A line that begins with an entry title; a single line holds no line break, so both title patterns reduce to this. */
  predicate TitleAtStart(t: string) { TitleEnd(t).Some? }

  /**
   * The three line tests of the loop: the start of a spellcasting run, a
   * spell-level group such as "1st level (4 slots):", and an entry title.
   * The spell-group expression is outside the model and is given.
   */
  datatype SpellTests = SpellTests(starts: string -> bool, spellGroup: string -> bool, title: string -> bool)

  /** The importer's tests. */
  function ImporterTests(spellGroup: string -> bool): (r: SpellTests)
    ensures r.starts == SpellStart && r.spellGroup == spellGroup && r.title == TitleAtStart
  {
    SpellTests(SpellStart, spellGroup, TitleAtStart)
  }

  /** The following line closes a spellcasting run: it begins with a title and is not a spell group. */
  predicate ClosesSpellRun(next: Option<string>, tests: SpellTests)
  {
    next.Some? && tests.title(next.value) && !tests.spellGroup(next.value)
  }

  /** The loop's state: inside a spellcasting run or not, and the two line lists. */
  datatype Split = Split(found: bool, notSpell: seq<Line>, spell: seq<Line>)

  /** The text of the line after index `k`, if any. */
  function NextText(valid: seq<Line>, k: nat): (r: Option<string>)
    ensures r.Some? <==> k + 1 < |valid|
  {
    if k + 1 < |valid| then Some(valid[k + 1].text) else None
  }

  /**
   * One iteration on line `l`: a run begins at a spellcasting heading (a bare
   * "Spellcasting" heading gets its "."); a line inside a run goes to the
   * spell lines, any other to the rest; a run line followed by a title ends
   * with "." and closes the run.
   */
  function SplitStep(st: Split, l: Line, next: Option<string>, tests: SpellTests): (r: Split)
  {
    var found := st.found || tests.starts(l.text);
    var text := if !st.found && found && l.text == "Spellcasting" then "Spellcasting." else l.text;
    var closes := found && ClosesSpellRun(next, tests);
    var placed := Line(l.number, if closes then Dotted(text) else text, l.hint);
    if found then Split(!closes, st.notSpell, st.spell + [placed])
    else Split(false, st.notSpell + [placed], st.spell)
  }

  /** The state after the first `k` valid lines. */
  function SplitUpTo(valid: seq<Line>, k: nat, tests: SpellTests): (r: Split)
    requires k <= |valid|
  {
    if k == 0 then Split(false, [], [])
    else SplitStep(SplitUpTo(valid, k - 1, tests), valid[k - 1], NextText(valid, k - 1), tests)
  }

  /** The line numbers of a list of lines. */
  function LineNumbers(lines: seq<Line>): (r: seq<nat>)
    ensures |r| == |lines|
    ensures forall k :: 0 <= k < |lines| ==> r[k] == lines[k].number
  {
    seq(|lines|, k requires 0 <= k < |lines| => lines[k].number)
  }

  lemma LineNumbersAppend(a: seq<Line>, l: Line)
    ensures LineNumbers(a + [l]) == LineNumbers(a) + [l.number]
  {
  }

  /** The line numbers held by the two lists together. */
  function Placed(st: Split): multiset<nat>
  {
    multiset(LineNumbers(st.notSpell)) + multiset(LineNumbers(st.spell))
  }

  /** One step places line `l` in one of the two lists, unchanged when outside a run. */
  lemma SplitStepPlaces(st: Split, l: Line, next: Option<string>, tests: SpellTests)
    ensures var r := SplitStep(st, l, next, tests);
      && Placed(r) == Placed(st) + multiset{l.number}
      && (r.notSpell == st.notSpell || r.notSpell == st.notSpell + [l])
  {
    var r := SplitStep(st, l, next, tests);
    if r.notSpell == st.notSpell {
      LineNumbersAppend(st.spell, r.spell[|r.spell| - 1]);
    } else {
      LineNumbersAppend(st.notSpell, l);
    }
  }

  /** One step adds one line to the two lists together. */
  lemma SplitStepCount(st: Split, l: Line, next: Option<string>, tests: SpellTests)
    ensures |SplitStep(st, l, next, tests).notSpell| + |SplitStep(st, l, next, tests).spell| == |st.notSpell| + |st.spell| + 1
  {
  }

  /**
   * Every valid line lands in exactly one of the two lists: the line numbers
   * of both together are those of the lines read.
   */
  lemma {:induction false} SplitPartition(valid: seq<Line>, k: nat, tests: SpellTests)
    requires k <= |valid|
    ensures Placed(SplitUpTo(valid, k, tests)) == multiset(LineNumbers(valid[..k]))
  {
    if k > 0 {
      SplitPartition(valid, k - 1, tests);
      var st := SplitUpTo(valid, k - 1, tests);
      SplitStepPlaces(st, valid[k - 1], NextText(valid, k - 1), tests);
      PrefixNumbers(valid, k);
    }
  }

  /** The two lists together are as long as the lines read. */
  lemma {:induction false} SplitCount(valid: seq<Line>, k: nat, tests: SpellTests)
    requires k <= |valid|
    ensures |SplitUpTo(valid, k, tests).notSpell| + |SplitUpTo(valid, k, tests).spell| == k
  {
    if k > 0 {
      SplitCount(valid, k - 1, tests);
      SplitStepCount(SplitUpTo(valid, k - 1, tests), valid[k - 1], NextText(valid, k - 1), tests);
    }
  }

  lemma PrefixNumbers(valid: seq<Line>, k: nat)
    requires 0 < k <= |valid|
    ensures multiset(LineNumbers(valid[..k])) == multiset(LineNumbers(valid[..k - 1])) + multiset{valid[k - 1].number}
  {
    assert valid[..k] == valid[..k - 1] + [valid[k - 1]];
    LineNumbersAppend(valid[..k - 1], valid[k - 1]);
  }

  /** The lines outside the spellcasting run keep their text: each is one of the lines read. */
  lemma {:induction false} OtherLinesUnchanged(valid: seq<Line>, k: nat, tests: SpellTests)
    requires k <= |valid|
    ensures forall j :: 0 <= j < |SplitUpTo(valid, k, tests).notSpell| ==> SplitUpTo(valid, k, tests).notSpell[j] in valid[..k]
  {
    if k > 0 {
      OtherLinesUnchanged(valid, k - 1, tests);
      var st := SplitUpTo(valid, k - 1, tests);
      SplitStepPlaces(st, valid[k - 1], NextText(valid, k - 1), tests);
      assert valid[..k] == valid[..k - 1] + [valid[k - 1]];
    }
  }

  /** Without a spellcasting heading every line stays where it was, unchanged. */
  lemma {:induction false} NoSpellRun(valid: seq<Line>, k: nat, tests: SpellTests)
    requires k <= |valid|
    requires forall j :: 0 <= j < |valid| ==> !tests.starts(valid[j].text)
    ensures SplitUpTo(valid, k, tests) == Split(false, valid[..k], [])
  {
    if k > 0 {
      NoSpellRun(valid, k - 1, tests);
      assert valid[..k] == valid[..k - 1] + [valid[k - 1]];
    }
  }

  /** The loop of `getBlockDatas` that moves the spellcasting run aside. */
  method SplitSpellRun(valid: seq<Line>, tests: SpellTests) returns (notSpell: seq<Line>, spell: seq<Line>)
    ensures Split(false, notSpell, spell) == SplitUpTo(valid, |valid|, tests) || Split(true, notSpell, spell) == SplitUpTo(valid, |valid|, tests)
  {
    notSpell, spell := [], [];
    var found := false;
    var index := 0;
    while index < |valid|
      invariant 0 <= index <= |valid|
      invariant Split(found, notSpell, spell) == SplitUpTo(valid, index, tests)
    {
      var l := valid[index];
      var wasFound := found;
      if !found {
        found := tests.starts(l.text);
      }
      var text := if !wasFound && found && l.text == "Spellcasting" then "Spellcasting." else l.text;
      var nextIsTitle := index < |valid| - 1 && tests.title(valid[index + 1].text) && !tests.spellGroup(valid[index + 1].text);
      if found && nextIsTitle {
        text := Dotted(text);
        spell := spell + [Line(l.number, text, l.hint)];
        found := false;
      } else if found {
        spell := spell + [Line(l.number, text, l.hint)];
      } else {
        notSpell := notSpell + [Line(l.number, text, l.hint)];
      }
      index := index + 1;
    }
  }

  // ----- titles and entries -----

  /** A line together with the title match it carries, if any. */
  datatype Tagged = Tagged(line: Line, title: Option<string>)

  /** A named entry (`NameValueData`) and its lines. */
  datatype Entry = Entry(name: string, lines: seq<Tagged>)

  /** Where the line's own title match ends, when the line begins with a title of the pattern. */
  function MatchEnd(text: string, villain: bool): (r: Option<nat>)
    ensures r.Some? ==> 0 < r.value <= |text|
  {
    if villain then VillainTitleEnd(text)
    else
      match TitleEnd(text)
      case None => None
      case Some(n) => Some(TailEnd(text, n))
  }

  /**
   * The line's title match ends at its last non-blank character: the match
   * has consumed the terminator, so the `[.:!]\s*\n` a match on the next line
   * must begin with is not there (`matchAll` matches do not overlap).
   */
  predicate SpendsStop(text: string, villain: bool)
  {
    MatchEnd(text, villain) == Some(|TrimEnd(text)|)
  }

  /**
   * The title a line carries after `matchAndAnnotate`: a title match can
   * begin at a line start the pattern allows (see `TitleMayStart`) unless
   * the previous line's own match spent its terminator (`spent`), and the
   * title group is the text before its terminator.
   */
  function TitleOf(p: TitlePattern, previous: Option<string>, spent: bool, text: string, villain: bool): (r: Option<string>)
    ensures r.Some? ==> StartsWith(text, r.value) && r.value != []
    ensures r.Some? ==> TitleMayStart(p, previous, villain) && (p == CleanLines || !spent)
  {
    if !TitleMayStart(p, previous, villain) || (p == AfterSentenceEnd && spent) then None
    else
      var e := if villain then VillainTitleEnd(text) else TitleEnd(text);
      match e
      case None => None
      case Some(n) => Some(text[..n])
  }

  /**
   * The title of line `k` in one left-to-right pass over the lines searched:
   * each line is judged after the one before it, and after whether that
   * line's own title match spent its terminator.
   */
  function TitleAt(p: TitlePattern, lines: seq<Line>, villain: bool, k: nat): (r: Option<string>)
    requires k < |lines|
    decreases k
  {
    TitleOf(p, if k == 0 then None else Some(lines[k - 1].text),
            k > 0 && TitleAt(p, lines, villain, k - 1).Some? && SpendsStop(lines[k - 1].text, villain), lines[k].text, villain)
  }

  /** The titles of the lines searched, one per line. */
  function TitlesOf(p: TitlePattern, lines: seq<Line>, villain: bool): (r: seq<Option<string>>)
    ensures |r| == |lines|
  {
    seq(|lines|, k requires 0 <= k < |lines| => TitleAt(p, lines, villain, k))
  }

  /** The pass's title of line `k` is the one the judgement of that line gives. */
  lemma TitlesOfAt(p: TitlePattern, lines: seq<Line>, villain: bool, k: nat)
    requires k < |lines|
    ensures TitlesOf(p, lines, villain)[k] == TitleAt(p, lines, villain, k)
  {
  }

  /**
   * Outside clean lines, a titled line whose match ends at its last
   * non-blank character leaves the next line untitled: ["Parry.", "Claw. Bite"]
   * is one entry.
   */
  lemma SpentStopLeavesNextUntitled(lines: seq<Line>, villain: bool, k: nat)
    requires k + 1 < |lines|
    requires TitlesOf(AfterSentenceEnd, lines, villain)[k].Some? && SpendsStop(lines[k].text, villain)
    ensures TitlesOf(AfterSentenceEnd, lines, villain)[k + 1].None?
  {
    TitlesOfAt(AfterSentenceEnd, lines, villain, k);
    TitlesOfAt(AfterSentenceEnd, lines, villain, k + 1);
    assert TitleAt(AfterSentenceEnd, lines, villain, k + 1).None?;
  }

  /** The two lines "Parry." and "Claw. Bite": the first match spends the stop, so only the first line is titled. */
  lemma ParryThenClaw()
    ensures TitlesOf(AfterSentenceEnd, [Line(0, "Parry.", None), Line(1, "Claw. Bite", None)], false) == [Some("Parry"), None]
  {
    var lines := [Line(0, "Parry.", None), Line(1, "Claw. Bite", None)];
    assert TitleEnd("Parry.") == Some(5) by {
      OneWordTitle("Parry", "");
      assert "Parry" + "." + "" == "Parry.";
    }
    assert TerminatorAt("Parry.", 5) && !ParentheticalAt("Parry.", 5);
    assert TrimEnd("Parry.") == "Parry.";
    assert SpendsStop("Parry.", false);
    TitlesOfAt(AfterSentenceEnd, lines, false, 0);
    assert "Parry."[..5] == "Parry";
    SpentStopLeavesNextUntitled(lines, false, 0);
  }

  /** Every title found is a non-empty prefix of its line's text. */
  lemma TitlesArePrefixes(p: TitlePattern, lines: seq<Line>, villain: bool)
    ensures var t := TitlesOf(p, lines, villain);
      forall k :: 0 <= k < |t| && t[k].Some? ==> StartsWith(lines[k].text, t[k].value) && t[k].value != []
  {
    var t := TitlesOf(p, lines, villain);
    forall k | 0 <= k < |t| && t[k].Some?
      ensures StartsWith(lines[k].text, t[k].value) && t[k].value != []
    {
      TitlesOfAt(p, lines, villain, k);
    }
  }

  predicate NoneFound(titles: seq<Option<string>>)
  {
    forall k :: 0 <= k < |titles| ==> titles[k].None?
  }

  /**
   * The titles the lines end up carrying: the block-title pattern, or the
   * villain-action pattern when the first finds nothing. Only the non-spell
   * lines and the first spellcasting line are searched.
   */
  function LineTitles(p: TitlePattern, searched: seq<Line>): (r: seq<Option<string>>)
    ensures |r| == |searched|
    ensures forall k :: 0 <= k < |r| && r[k].Some? ==> StartsWith(searched[k].text, r[k].value) && r[k].value != []
  {
    var titles := TitlesOf(p, searched, false);
    TitlesArePrefixes(p, searched, false);
    TitlesArePrefixes(p, searched, true);
    if NoneFound(titles) then TitlesOf(p, searched, true) else titles
  }

  /** The state of the `reduce`: the finished entries and the one being filled. */
  datatype Grouping = Grouping(done: seq<Entry>, current: Option<Entry>)

  /** A titled line closes the current entry and opens its own; another line joins the current entry, or opens "Description". */
  function GroupStep(g: Grouping, t: Tagged): (r: Grouping)
  {
    if t.title.Some? then
      Grouping(g.done + (if g.current.Some? then [g.current.value] else []), Some(Entry(t.title.value, [t])))
    else
      match g.current
      case None => Grouping(g.done, Some(Entry("Description", [t])))
      case Some(e) => Grouping(g.done, Some(Entry(e.name, e.lines + [t])))
  }

  function GroupUpTo(tagged: seq<Tagged>, k: nat): (r: Grouping)
    requires k <= |tagged|
  {
    if k == 0 then Grouping([], None) else GroupStep(GroupUpTo(tagged, k - 1), tagged[k - 1])
  }

  /** The entries of a grouping, the open one last. */
  function Entries(g: Grouping): seq<Entry>
  {
    g.done + (if g.current.Some? then [g.current.value] else [])
  }

  /** All entries' lines, in order. */
  function Flatten(entries: seq<Entry>): seq<Tagged>
  {
    if entries == [] then [] else Flatten(entries[..|entries| - 1]) + entries[|entries| - 1].lines
  }

  lemma FlattenAppend(a: seq<Entry>, e: Entry)
    ensures Flatten(a + [e]) == Flatten(a) + e.lines
  {
    assert (a + [e])[..|a|] == a;
  }

  /**
   * An entry is well formed: it has lines, only its first line may carry a
   * title, and its name is that title, or "Description" when the first line
   * has none, which only the leading entry may have.
   */
  predicate EntryOk(e: Entry, leading: bool)
  {
    e.lines != [] &&
    (forall m :: 1 <= m < |e.lines| ==> e.lines[m].title.None?) &&
    (if e.lines[0].title.Some? then e.name == e.lines[0].title.value else leading && e.name == "Description")
  }

  predicate WellFormed(entries: seq<Entry>)
  {
    forall j :: 0 <= j < |entries| ==> EntryOk(entries[j], j == 0)
  }

  /** A grouping with nothing open has finished nothing yet. */
  predicate GroupingOk(g: Grouping)
  {
    WellFormed(Entries(g)) && (g.current.None? ==> g.done == [])
  }

  lemma GroupStepOk(g: Grouping, t: Tagged)
    requires GroupingOk(g)
    ensures GroupingOk(GroupStep(g, t)) && GroupStep(g, t).current.Some?
    ensures Flatten(Entries(GroupStep(g, t))) == Flatten(Entries(g)) + [t]
  {
    if t.title.Some? {
      TitledStep(g, t);
    } else if g.current.None? {
      var e := Entry("Description", [t]);
      assert GroupStep(g, t) == Grouping([], Some(e));
      assert Entries(GroupStep(g, t)) == [] + [e];
      FlattenAppend([], e);
    } else {
      JoiningStep(g, t);
    }
  }

  /** A titled line closes the open entry and opens its own. */
  lemma TitledStep(g: Grouping, t: Tagged)
    requires GroupingOk(g) && t.title.Some?
    ensures GroupingOk(GroupStep(g, t)) && GroupStep(g, t).current.Some?
    ensures Flatten(Entries(GroupStep(g, t))) == Flatten(Entries(g)) + [t]
  {
    var e := Entry(t.title.value, [t]);
    assert Entries(GroupStep(g, t)) == Entries(g) + [e];
    WellFormedAppend(Entries(g), e);
    FlattenAppend(Entries(g), e);
  }

  /** An untitled line joins the open entry. */
  lemma JoiningStep(g: Grouping, t: Tagged)
    requires GroupingOk(g) && t.title.None? && g.current.Some?
    ensures GroupingOk(GroupStep(g, t)) && GroupStep(g, t).current.Some?
    ensures Flatten(Entries(GroupStep(g, t))) == Flatten(Entries(g)) + [t]
  {
    var e := g.current.value;
    var e' := Entry(e.name, e.lines + [t]);
    assert Entries(g) == g.done + [e];
    WellFormedSplit(g.done, e);
    assert EntryOk(e', |g.done| == 0);
    assert Entries(GroupStep(g, t)) == g.done + [e'];
    WellFormedAppend(g.done, e');
    FlattenAppend(g.done, e);
    FlattenAppend(g.done, e');
  }

  lemma WellFormedAppend(entries: seq<Entry>, e: Entry)
    requires WellFormed(entries) && EntryOk(e, |entries| == 0)
    ensures WellFormed(entries + [e])
  {
  }

  lemma WellFormedSplit(entries: seq<Entry>, e: Entry)
    requires WellFormed(entries + [e])
    ensures WellFormed(entries) && EntryOk(e, |entries| == 0)
  {
    assert (entries + [e])[|entries|] == e;
    assert forall j :: 0 <= j < |entries| ==> (entries + [e])[j] == entries[j];
  }

  /** The `reduce` keeps every line once, in order, and builds well-formed entries. */
  lemma {:induction false} GroupInvariant(tagged: seq<Tagged>, k: nat)
    requires k <= |tagged|
    ensures Flatten(Entries(GroupUpTo(tagged, k))) == tagged[..k]
    ensures GroupingOk(GroupUpTo(tagged, k))
    ensures GroupUpTo(tagged, k).current.Some? <==> k > 0
  {
    if k > 0 {
      GroupInvariant(tagged, k - 1);
      var g := GroupUpTo(tagged, k - 1);
      assert GroupUpTo(tagged, k) == GroupStep(g, tagged[k - 1]);
      GroupStepOk(g, tagged[k - 1]);
      assert tagged[..k] == tagged[..k - 1] + [tagged[k - 1]];
    }
  }

  /** The leading untitled lines form one "Description" entry, in front. */
  lemma {:induction false} DescriptionFirst(tagged: seq<Tagged>)
    requires tagged != [] && tagged[0].title.None?
    ensures var es := Entries(GroupUpTo(tagged, |tagged|)); es != [] && es[0].name == "Description"
  {
    GroupInvariant(tagged, |tagged|);
    var es := Entries(GroupUpTo(tagged, |tagged|));
    assert tagged[..|tagged|] == tagged;
    assert EntryOk(es[0], true);
    FirstLineInFirstEntry(es);
  }

  lemma {:induction false} FirstLineInFirstEntry(es: seq<Entry>)
    requires es != [] && es[0].lines != []
    ensures Flatten(es) != [] && Flatten(es)[0] == es[0].lines[0]
  {
    if |es| > 1 {
      assert es[..|es| - 1][0] == es[0];
      FirstLineInFirstEntry(es[..|es| - 1]);
    }
  }

  /** The loop form of the `reduce` over the tagged lines. */
  method GroupEntries(tagged: seq<Tagged>) returns (entries: seq<Entry>)
    ensures entries == Entries(GroupUpTo(tagged, |tagged|))
  {
    entries := [];
    var current: Option<Entry> := None;
    var k := 0;
    while k < |tagged|
      invariant 0 <= k <= |tagged|
      invariant Grouping(entries, current) == GroupUpTo(tagged, k)
    {
      var t := tagged[k];
      if t.title.Some? {
        if current.Some? {
          entries := entries + [current.value];
        }
        current := Some(Entry(t.title.value, [t]));
      } else if current.None? {
        current := Some(Entry("Description", [t]));
      } else {
        current := Some(Entry(current.value.name, current.value.lines + [t]));
      }
      k := k + 1;
    }
    if current.Some? {
      entries := entries + [current.value];
    }
  }

  // ----- getBlockDatas -----

  predicate HasText(l: Line) { l.text != [] }

  /**
   * The lines in the order the entries take them, each with its title: the
   * non-spell lines, then the spell lines; only the non-spell lines and the
   * first spell line were searched for titles.
   */
  function TaggedLines(p: TitlePattern, notSpell: seq<Line>, spell: seq<Line>): (r: seq<Tagged>)
    ensures |r| == |notSpell| + |spell|
    ensures forall k :: 0 <= k < |r| ==> r[k].line == (notSpell + spell)[k]
    ensures forall k :: 0 <= k < |r| && r[k].title.Some? ==> StartsWith(r[k].line.text, r[k].title.value) && r[k].title.value != []
    ensures forall k :: |notSpell| < k < |r| ==> r[k].title.None?
  {
    var all := notSpell + spell;
    var searched := notSpell + spell[..if spell == [] then 0 else 1];
    var titles := LineTitles(p, searched);
    seq(|all|, k requires 0 <= k < |all| => Tagged(all[k], if k < |searched| then titles[k] else None))
  }

  /** The lines of the entries, as lines. */
  function Untagged(ts: seq<Tagged>): (r: seq<Line>)
    ensures |r| == |ts|
  {
    seq(|ts|, k requires 0 <= k < |ts| => ts[k].line)
  }

  /** The entries built from the lines in their final order. */
  function BlockEntries(p: TitlePattern, notSpell: seq<Line>, spell: seq<Line>): seq<Entry>
  {
    var tagged := TaggedLines(p, notSpell, spell);
    Entries(GroupUpTo(tagged, |tagged|))
  }

  /** The entries are well formed and hold the non-spell lines, then the spell lines, each once. */
  lemma BlockEntriesCover(p: TitlePattern, notSpell: seq<Line>, spell: seq<Line>)
    ensures WellFormed(BlockEntries(p, notSpell, spell))
    ensures Untagged(Flatten(BlockEntries(p, notSpell, spell))) == notSpell + spell
  {
    var tagged := TaggedLines(p, notSpell, spell);
    GroupInvariant(tagged, |tagged|);
    assert tagged[..|tagged|] == tagged;
  }

  /** The valid lines' numbers are those of the two lists together. */
  lemma ValidLinesPlaced(valid: seq<Line>, tests: SpellTests)
    ensures var st := SplitUpTo(valid, |valid|, tests);
      multiset(LineNumbers(st.notSpell + st.spell)) == multiset(LineNumbers(valid))
  {
    var st := SplitUpTo(valid, |valid|, tests);
    SplitPartition(valid, |valid|, tests);
    assert valid[..|valid|] == valid;
    assert LineNumbers(st.notSpell + st.spell) == LineNumbers(st.notSpell) + LineNumbers(st.spell);
  }

  /**
   * `getBlockDatas`: drop the empty lines, move the spellcasting run behind
   * the others, find the titles, and group. Every non-empty line is in
   * exactly one entry, the spellcasting run after all other lines.
   */
  method GetBlockDatas(lines: seq<Line>, cleanLines: bool, spellGroup: string -> bool) returns (entries: seq<Entry>, notSpell: seq<Line>, spell: seq<Line>)
    ensures var st := SplitUpTo(Filter(lines, HasText), |Filter(lines, HasText)|, ImporterTests(spellGroup)); notSpell == st.notSpell && spell == st.spell
    ensures entries == BlockEntries(GetBlockTitle(cleanLines), notSpell, spell)
    ensures WellFormed(entries)
    ensures Untagged(Flatten(entries)) == notSpell + spell
    ensures multiset(LineNumbers(Untagged(Flatten(entries)))) == multiset(LineNumbers(Filter(lines, HasText)))
  {
    var valid := Filter(lines, HasText);
    notSpell, spell := SplitSpellRun(valid, ImporterTests(spellGroup));
    var tagged := TaggedLines(GetBlockTitle(cleanLines), notSpell, spell);
    entries := GroupEntries(tagged);
    BlockEntriesCover(GetBlockTitle(cleanLines), notSpell, spell);
    ValidLinesPlaced(valid, ImporterTests(spellGroup));
  }
}
