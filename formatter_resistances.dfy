// The damage and condition lines of an Open5E creature
// (scripts/statblock-formatter.js): `normalizeNamesFromOpen5eList` reads the
// names out of a list of entries, and
// `normalizeOpen5eResistancesAndImmunities` writes the "Damage Immunities:",
// "Damage Resistances:", "Damage Vulnerabilities:" and "Condition
// Immunities:" lines, from the display texts first and the lists second,
// dropping a line that repeats an earlier one up to letter case.
module FormatterResistances {
  import opened Text
  import opened Js
  import opened Formatter
  import FormatterAttacks

  // ----- names from a list -----

  /** An entry's name: its `name` text, else its `display_name` text, else its `key` as it is. */
  function NameOf(entry: Value): (r: Value)
  {
    FormatterAttacks.SafeStringOr(Get(entry, "name"), FormatterAttacks.SafeStringOr(Get(entry, "display_name"), Get(entry, "key")))
  }

  /** The truthy names of the entries, in order. */
  function NamesFrom(entries: seq<Value>): (r: seq<Value>)
    ensures |r| <= |entries|
    ensures forall i :: 0 <= i < |r| ==> Truthy(r[i])
  {
    if entries == [] then []
    else
      var n := NameOf(entries[0]);
      (if Truthy(n) then [n] else []) + NamesFrom(entries[1..])
  }

  /** `normalizeNamesFromOpen5eList`: the names of an array's entries; nothing for anything else. */
  function NamesFromList(value: Value): (r: seq<Value>)
    ensures !value.Arr? ==> r == []
  {
    if value.Arr? then NamesFrom(value.items) else []
  }

  /** The text of an entry with a named `name`. */
  function NameText(entry: Value): string
  {
    SafeString(Get(entry, "name"), "")
  }

  lemma NameOfNamed(entry: Value)
    requires NameText(entry) != []
    ensures NameOf(entry) == Str(NameText(entry))
  {
  }

  predicate AllNamed(entries: seq<Value>)
  {
    forall i :: 0 <= i < |entries| ==> NameText(entries[i]) != []
  }

  lemma {:induction false} NamesFromNamedSize(entries: seq<Value>)
    requires AllNamed(entries)
    ensures |NamesFrom(entries)| == |entries|
  {
    if entries != [] {
      NameOfNamed(entries[0]);
      NamesFromNamedSize(entries[1..]);
    }
  }

  lemma {:induction false} NamesFromNamedAt(entries: seq<Value>, i: nat)
    requires AllNamed(entries) && i < |entries|
    ensures i < |NamesFrom(entries)| && NamesFrom(entries)[i] == Str(NameText(entries[i]))
  {
    NameOfNamed(entries[0]);
    var head := Str(NameText(entries[0]));
    assert NamesFrom(entries) == [head] + NamesFrom(entries[1..]);
    if i > 0 {
      assert entries[1..][i - 1] == entries[i];
      NamesFromNamedAt(entries[1..], i - 1);
    }
  }

  /** When every entry has a name, the list is those names, one for each entry and in the same order. */
  lemma NamesFromNamed(entries: seq<Value>)
    requires AllNamed(entries)
    ensures |NamesFrom(entries)| == |entries|
    ensures forall i :: 0 <= i < |entries| ==> NamesFrom(entries)[i] == Str(NameText(entries[i]))
  {
    NamesFromNamedSize(entries);
    forall i | 0 <= i < |entries|
      ensures NamesFrom(entries)[i] == Str(NameText(entries[i]))
    {
      NamesFromNamedAt(entries, i);
    }
  }

  /** The names' texts joined by ", " (`.join(', ')`). */
  function NamesText(value: Value): (r: string)
  {
    var names := NamesFromList(value);
    Join(seq(|names|, i requires 0 <= i < |names| => ToString(names[i])), ", ")
  }

  // ----- the lines before de-duplication -----

  /** "Heading: text" when the text is not empty. */
  function Headed(heading: string, text: string): (r: seq<string>)
    ensures text == [] <==> r == []
  {
    if text == [] then [] else [heading + ": " + text]
  }

  function DisplayText(source: Value, key: string): string
  {
    SafeString(Get(source, key), "")
  }

  /** The display lines, then the lines from the lists, each kind in the order immunities, resistances, vulnerabilities, conditions. */
  function RawLines(source: Value): (r: seq<string>)
  {
    Headed("Damage Immunities", DisplayText(source, "damage_immunities_display")) +
    Headed("Damage Resistances", DisplayText(source, "damage_resistances_display")) +
    Headed("Damage Vulnerabilities", DisplayText(source, "damage_vulnerabilities_display")) +
    Headed("Condition Immunities", DisplayText(source, "condition_immunities_display")) +
    Headed("Damage Immunities", NamesText(Get(source, "damage_immunities"))) +
    Headed("Damage Resistances", NamesText(Get(source, "damage_resistances"))) +
    Headed("Damage Vulnerabilities", NamesText(Get(source, "damage_vulnerabilities"))) +
    Headed("Condition Immunities", NamesText(Get(source, "condition_immunities")))
  }

  // ----- de-duplication -----

  /** The lower-case forms of the lines. */
  function Lowers(lines: seq<string>): (r: set<string>)
  {
    if lines == [] then {} else Lowers(lines[..|lines| - 1]) + {Lower(lines[|lines| - 1])}
  }

  lemma LowersAppend(lines: seq<string>, t: string)
    ensures Lowers(lines + [t]) == Lowers(lines) + {Lower(t)}
  {
    assert (lines + [t])[..|lines|] == lines;
  }

  lemma LowersAppendHas(lines: seq<string>, t: string, x: string)
    ensures x in Lowers(lines + [t]) <==> x in Lowers(lines) || x == Lower(t)
  {
    assert (lines + [t])[..|lines|] == lines;
  }

  lemma {:induction false} LowersHas(lines: seq<string>, x: string)
    ensures x in Lowers(lines) <==> exists i :: 0 <= i < |lines| && Lower(lines[i]) == x
  {
    if lines != [] {
      var init := lines[..|lines| - 1];
      LowersHas(init, x);
      if x in Lowers(init) {
        var i :| 0 <= i < |init| && Lower(init[i]) == x;
        assert lines[i] == init[i];
      }
      if exists i :: 0 <= i < |lines| && Lower(lines[i]) == x {
        var i :| 0 <= i < |lines| && Lower(lines[i]) == x;
        if i < |init| {
          assert init[i] == lines[i];
        }
      }
    }
  }

  /** The kept lines after the first `k` lines. */
  function DedupUpTo(lines: seq<string>, k: nat): (r: seq<string>)
    requires k <= |lines|
  {
    if k == 0 then [] else DedupStep(DedupUpTo(lines, k - 1), Trim(lines[k - 1]))
  }

  /** One trimmed line: kept when not empty and not yet seen in lower case. */
  function DedupStep(prev: seq<string>, t: string): (r: seq<string>)
  {
    if t == [] || Lower(t) in Lowers(prev) then prev else prev + [t]
  }

  function Dedup(lines: seq<string>): (r: seq<string>)
  {
    DedupUpTo(lines, |lines|)
  }

  /** The loop of `normalizeOpen5eResistancesAndImmunities`, with the lower-case forms kept in a set. */
  method DedupLines(lines: seq<string>) returns (deduped: seq<string>)
    ensures deduped == Dedup(lines)
  {
    deduped := [];
    var seen: set<string> := {};
    for k := 0 to |lines|
      invariant deduped == DedupUpTo(lines, k)
      invariant seen == Lowers(deduped)
    {
      var normalized := Trim(lines[k]);
      if normalized == [] {
        continue;
      }
      var lookup := Lower(normalized);
      if lookup in seen {
        continue;
      }
      LowersAppend(deduped, normalized);
      deduped := deduped + [normalized];
      seen := seen + {lookup};
    }
  }

  /** `normalizeOpen5eResistancesAndImmunities`. */
  method NormalizeResistances(source: Value) returns (deduped: seq<string>)
    ensures deduped == Dedup(RawLines(source))
  {
    var lines := RawLines(source);
    deduped := DedupLines(lines);
  }

  // ----- what de-duplication keeps -----

  /** Every line trimmed and not empty, and no two equal up to letter case. */
  predicate Clean(out: seq<string>)
  {
    (forall i :: 0 <= i < |out| ==> out[i] != [] && Trim(out[i]) == out[i]) &&
    (forall i, j :: 0 <= i < j < |out| ==> Lower(out[i]) != Lower(out[j]))
  }

  lemma TrimIdempotent(s: string)
    ensures Trim(Trim(s)) == Trim(s)
  {
    if Trim(s) != [] {
      TrimTight(Trim(s));
    }
  }

  lemma CleanAppend(prev: seq<string>, t: string)
    requires Clean(prev) && t != [] && Trim(t) == t
    requires forall i :: 0 <= i < |prev| ==> Lower(prev[i]) != Lower(t)
    ensures Clean(prev + [t])
  {
    var r := prev + [t];
    forall i, j | 0 <= i < j < |r|
      ensures Lower(r[i]) != Lower(r[j])
    {
      assert r[i] == prev[i];
    }
  }

  /** One line keeps the kept lines clean. */
  lemma CleanStep(prev: seq<string>, line: string)
    requires Clean(prev)
    ensures Clean(DedupStep(prev, Trim(line)))
  {
    var t := Trim(line);
    if t != [] && Lower(t) !in Lowers(prev) {
      TrimIdempotent(line);
      LowersHas(prev, Lower(t));
      CleanAppend(prev, t);
    }
  }

  lemma {:induction false} DedupUpToClean(lines: seq<string>, k: nat)
    requires k <= |lines|
    ensures Clean(DedupUpTo(lines, k))
  {
    if k > 0 {
      DedupUpToClean(lines, k - 1);
      CleanStep(DedupUpTo(lines, k - 1), lines[k - 1]);
    }
  }

  /** Every kept line is the trimmed form of a line given. */
  lemma {:induction false} DedupUpToFrom(lines: seq<string>, k: nat, x: string)
    requires k <= |lines| && x in DedupUpTo(lines, k)
    ensures exists j :: 0 <= j < k && x == Trim(lines[j])
  {
    var prev := DedupUpTo(lines, k - 1);
    if x in prev {
      DedupUpToFrom(lines, k - 1, x);
    } else {
      assert x == Trim(lines[k - 1]);
    }
  }

  lemma CoversStep(prev: seq<string>, t: string, x: string)
    requires x in Lowers(prev) || (x == Lower(t) && t != [])
    ensures x in Lowers(DedupStep(prev, t))
  {
    if t != [] && Lower(t) !in Lowers(prev) {
      LowersAppendHas(prev, t, x);
    }
  }

  lemma {:induction false} DedupUpToCovers(lines: seq<string>, k: nat, j: nat)
    requires j < k <= |lines| && Trim(lines[j]) != []
    ensures Lower(Trim(lines[j])) in Lowers(DedupUpTo(lines, k))
  {
    if j < k - 1 {
      DedupUpToCovers(lines, k - 1, j);
    }
    CoversStep(DedupUpTo(lines, k - 1), Trim(lines[k - 1]), Lower(Trim(lines[j])));
  }

  /** The lines of `normalizeOpen5eResistancesAndImmunities` are clean, come from the lines given and leave none out. */
  lemma DedupMeaning(lines: seq<string>)
    ensures Clean(Dedup(lines))
    ensures forall x :: x in Dedup(lines) ==> exists j :: 0 <= j < |lines| && x == Trim(lines[j])
    ensures forall j :: 0 <= j < |lines| && Trim(lines[j]) != [] ==> exists i :: 0 <= i < |Dedup(lines)| && Lower(Dedup(lines)[i]) == Lower(Trim(lines[j]))
  {
    DedupUpToClean(lines, |lines|);
    forall x | x in Dedup(lines)
      ensures exists j :: 0 <= j < |lines| && x == Trim(lines[j])
    {
      DedupUpToFrom(lines, |lines|, x);
    }
    forall j | 0 <= j < |lines| && Trim(lines[j]) != []
      ensures exists i :: 0 <= i < |Dedup(lines)| && Lower(Dedup(lines)[i]) == Lower(Trim(lines[j]))
    {
      DedupUpToCovers(lines, |lines|, j);
      LowersHas(Dedup(lines), Lower(Trim(lines[j])));
    }
  }

  // ----- which spelling is kept -----

  /** The lines trimmed, one by one. */
  function Trims(lines: seq<string>): (r: seq<string>)
    ensures |r| == |lines|
  {
    seq(|lines|, j requires 0 <= j < |lines| => Trim(lines[j]))
  }

  /** The kept lines after the first `k` of lines already trimmed. */
  function DedupOf(ts: seq<string>, k: nat): (r: seq<string>)
    requires k <= |ts|
  {
    if k == 0 then [] else DedupStep(DedupOf(ts, k - 1), ts[k - 1])
  }

  lemma {:induction false} DedupUpToOf(lines: seq<string>, k: nat)
    requires k <= |lines|
    ensures DedupUpTo(lines, k) == DedupOf(Trims(lines), k)
  {
    if k > 0 {
      DedupUpToOf(lines, k - 1);
      var prev := DedupUpTo(lines, k - 1);
      var t := Trim(lines[k - 1]);
      assert Trims(lines)[k - 1] == t;
      assert DedupOf(Trims(lines), k) == DedupStep(prev, t);
    }
  }

  /** The positions, among the first `k` trimmed lines, of the lines kept. */
  function KeptIn(ts: seq<string>, k: nat): (r: seq<nat>)
    requires k <= |ts|
  {
    if k == 0 then []
    else if ts[k - 1] == [] || Lower(ts[k - 1]) in Lowers(DedupOf(ts, k - 1)) then KeptIn(ts, k - 1)
    else KeptIn(ts, k - 1) + [k - 1]
  }

  /**
   * `out[i]` is the trimmed line `at[i]`, no earlier trimmed line has its
   * lower-case form, and the positions grow.
   */
  predicate FirstOccurrencesOf(ts: seq<string>, out: seq<string>, at: seq<nat>)
  {
    && |at| == |out|
    && (forall i :: 0 <= i < |at| ==> at[i] < |ts| && out[i] == ts[at[i]])
    && (forall i, j :: 0 <= i < |at| && 0 <= j < at[i] ==> Lower(ts[j]) != Lower(out[i]))
    && (forall i1, i2 :: 0 <= i1 < i2 < |at| ==> at[i1] < at[i2])
  }

  lemma {:induction false} CoversOf(ts: seq<string>, k: nat, j: nat)
    requires j < k <= |ts| && ts[j] != []
    ensures Lower(ts[j]) in Lowers(DedupOf(ts, k))
  {
    if j < k - 1 {
      CoversOf(ts, k - 1, j);
    }
    CoversStep(DedupOf(ts, k - 1), ts[k - 1], Lower(ts[j]));
  }

  /** A non-empty line whose lower-case form was not kept matches no line before it. */
  lemma UnseenIsFirst(ts: seq<string>, n: nat, t: string)
    requires n <= |ts| && t != [] && Lower(t) !in Lowers(DedupOf(ts, n))
    ensures forall j :: 0 <= j < n ==> Lower(ts[j]) != Lower(t)
  {
    forall j | 0 <= j < n
      ensures Lower(ts[j]) != Lower(t)
    {
      if ts[j] != [] {
        CoversOf(ts, n, j);
      } else {
        assert |Lower(ts[j])| == 0 < |Lower(t)|;
      }
    }
  }

  /** Every position in `at` comes before `n`. */
  predicate Below(at: seq<nat>, n: nat)
  {
    forall i :: 0 <= i < |at| ==> at[i] < n
  }

  lemma FirstOccurrencesAppend(ts: seq<string>, out: seq<string>, at: seq<nat>, n: nat)
    requires FirstOccurrencesOf(ts, out, at) && n < |ts|
    requires Below(at, n)
    requires forall j :: 0 <= j < n ==> Lower(ts[j]) != Lower(ts[n])
    ensures FirstOccurrencesOf(ts, out + [ts[n]], at + [n])
  {
    var out', at' := out + [ts[n]], at + [n];
    forall i, j | 0 <= i < |at'| && 0 <= j < at'[i]
      ensures Lower(ts[j]) != Lower(out'[i])
    {
      if i < |at| {
        assert at'[i] == at[i] && out'[i] == out[i];
      }
    }
  }

  lemma {:induction false} KeptInFirst(ts: seq<string>, k: nat)
    requires k <= |ts|
    ensures FirstOccurrencesOf(ts, DedupOf(ts, k), KeptIn(ts, k))
    ensures Below(KeptIn(ts, k), k)
  {
    if k > 0 {
      KeptInFirst(ts, k - 1);
      if ts[k - 1] != [] && Lower(ts[k - 1]) !in Lowers(DedupOf(ts, k - 1)) {
        KeptInKeeps(ts, k);
      } else {
        KeptInSkips(ts, k);
      }
    }
  }

  /** A line not seen before is kept, at its own position. */
  lemma KeptInKeeps(ts: seq<string>, k: nat)
    requires 0 < k <= |ts| && ts[k - 1] != [] && Lower(ts[k - 1]) !in Lowers(DedupOf(ts, k - 1))
    requires FirstOccurrencesOf(ts, DedupOf(ts, k - 1), KeptIn(ts, k - 1))
    requires Below(KeptIn(ts, k - 1), k - 1)
    ensures FirstOccurrencesOf(ts, DedupOf(ts, k), KeptIn(ts, k))
    ensures Below(KeptIn(ts, k), k)
  {
    var prev, at := DedupOf(ts, k - 1), KeptIn(ts, k - 1);
    UnseenIsFirst(ts, k - 1, ts[k - 1]);
    assert DedupOf(ts, k) == prev + [ts[k - 1]];
    assert KeptIn(ts, k) == at + [k - 1];
    FirstOccurrencesAppend(ts, prev, at, k - 1);
  }

  /** A blank line, or one seen before, changes neither the kept lines nor their positions. */
  lemma KeptInSkips(ts: seq<string>, k: nat)
    requires 0 < k <= |ts| && (ts[k - 1] == [] || Lower(ts[k - 1]) in Lowers(DedupOf(ts, k - 1)))
    ensures DedupOf(ts, k) == DedupOf(ts, k - 1) && KeptIn(ts, k) == KeptIn(ts, k - 1)
  {
  }

  /**
   * `out[i]` is the trimmed line `at[i]`, no earlier line has its lower-case
   * form, and the positions grow: each kept line is the first spelling of
   * its kind, in the order of first appearance.
   */
  predicate FirstOccurrences(lines: seq<string>, out: seq<string>, at: seq<nat>)
  {
    && |at| == |out|
    && (forall i :: 0 <= i < |at| ==> at[i] < |lines| && out[i] == Trim(lines[at[i]]))
    && (forall i, j :: 0 <= i < |at| && 0 <= j < at[i] ==> Lower(Trim(lines[j])) != Lower(out[i]))
    && (forall i1, i2 :: 0 <= i1 < i2 < |at| ==> at[i1] < at[i2])
  }

  /** The positions of the lines kept. */
  function KeptAt(lines: seq<string>): (r: seq<nat>)
  {
    KeptIn(Trims(lines), |lines|)
  }

  /** De-duplication keeps the first spelling of each line, trimmed, in the order the lines first appear. */
  lemma DedupFirstOccurrences(lines: seq<string>)
    ensures FirstOccurrences(lines, Dedup(lines), KeptAt(lines))
  {
    var ts := Trims(lines);
    DedupUpToOf(lines, |lines|);
    KeptInFirst(ts, |lines|);
    assert forall j :: 0 <= j < |lines| ==> ts[j] == Trim(lines[j]);
  }

  /** Clean lines pass through unchanged. */
  lemma {:induction false} DedupOfClean(out: seq<string>, k: nat)
    requires Clean(out) && k <= |out|
    ensures DedupUpTo(out, k) == out[..k]
  {
    if k > 0 {
      DedupOfClean(out, k - 1);
      NotSeenInClean(out, k - 1);
      assert Trim(out[k - 1]) == out[k - 1];
      TakeOneMore(out, k);
    }
  }

  lemma TakeOneMore(s: seq<string>, k: nat)
    requires 0 < k <= |s|
    ensures s[..k] == s[..k - 1] + [s[k - 1]]
  {
  }

  lemma NotSeenInClean(out: seq<string>, k: nat)
    requires Clean(out) && k < |out|
    ensures Lower(out[k]) !in Lowers(out[..k])
  {
    forall i | 0 <= i < k
      ensures Lower(out[..k][i]) != Lower(out[k])
    {
      assert out[..k][i] == out[i];
    }
    LowersHas(out[..k], Lower(out[k]));
  }

  /** De-duplicating twice is de-duplicating once. */
  lemma DedupIdempotent(lines: seq<string>)
    ensures Dedup(Dedup(lines)) == Dedup(lines)
  {
    var out := Dedup(lines);
    DedupUpToClean(lines, |lines|);
    DedupOfClean(out, |out|);
    assert out[..|out|] == out;
  }

  // ----- the headings -----

  const Headings: seq<string> := ["Damage Immunities", "Damage Resistances", "Damage Vulnerabilities", "Condition Immunities"]

  /** A line under one of the four headings, followed by `sep`. */
  predicate UnderHeading(line: string, sep: string)
  {
    exists h :: h in Headings && StartsWith(line, h + sep)
  }

  lemma HeadedUnder(h: string, text: string)
    requires h in Headings
    ensures forall line :: line in Headed(h, text) ==> UnderHeading(line, ": ")
  {
    if text != [] {
      var line := h + ": " + text;
      assert line[..|h + ": "|] == h + ": ";
    }
  }

  /** Every line before de-duplication is "Heading: text" under one of the four headings. */
  lemma RawLinesUnder(source: Value)
    ensures forall line :: line in RawLines(source) ==> UnderHeading(line, ": ")
  {
    HeadedUnder("Damage Immunities", DisplayText(source, "damage_immunities_display"));
    HeadedUnder("Damage Resistances", DisplayText(source, "damage_resistances_display"));
    HeadedUnder("Damage Vulnerabilities", DisplayText(source, "damage_vulnerabilities_display"));
    HeadedUnder("Condition Immunities", DisplayText(source, "condition_immunities_display"));
    HeadedUnder("Damage Immunities", NamesText(Get(source, "damage_immunities")));
    HeadedUnder("Damage Resistances", NamesText(Get(source, "damage_resistances")));
    HeadedUnder("Damage Vulnerabilities", NamesText(Get(source, "damage_vulnerabilities")));
    HeadedUnder("Condition Immunities", NamesText(Get(source, "condition_immunities")));
  }

  /** Trimming the end keeps a prefix that ends in a non-space. */
  lemma {:induction false} TrimEndKeeps(s: string, p: string)
    requires StartsWith(s, p) && p != [] && !IsSpace(p[|p| - 1])
    ensures StartsWith(TrimEnd(s), p)
    decreases |s|
  {
    if IsSpace(s[|s| - 1]) {
      assert s[|p| - 1] == p[|p| - 1];
      var init := s[..|s| - 1];
      assert init[..|p|] == p;
      TrimEndKeeps(init, p);
    }
  }

  lemma TrimKeeps(s: string, p: string)
    requires StartsWith(s, p) && p != [] && !IsSpace(p[0]) && !IsSpace(p[|p| - 1])
    ensures StartsWith(Trim(s), p)
  {
    assert s[0] == p[0];
    assert TrimStart(s) == s;
    TrimEndKeeps(s, p);
  }

  lemma TrimUnder(line: string)
    requires UnderHeading(line, ": ")
    ensures UnderHeading(Trim(line), ":")
  {
    var h :| h in Headings && StartsWith(line, h + ": ");
    assert line[..|h + ":"|] == (h + ": ")[..|h + ":"|] == h + ":";
    TrimKeeps(line, h + ":");
  }

  /**
   * The lines `normalizeOpen5eResistancesAndImmunities` returns each start
   * with one of the four headings and a colon, none is blank and no two are
   * equal up to letter case.
   */
  lemma ResistanceLinesMeaning(source: Value)
    ensures Clean(Dedup(RawLines(source)))
    ensures forall line :: line in Dedup(RawLines(source)) ==> UnderHeading(line, ":")
  {
    var lines := RawLines(source);
    DedupMeaning(lines);
    RawLinesUnder(source);
    forall line | line in Dedup(lines)
      ensures UnderHeading(line, ":")
    {
      var j :| 0 <= j < |lines| && line == Trim(lines[j]);
      assert lines[j] in lines;
      TrimUnder(lines[j]);
    }
  }
}
