// The field extractors of the statblock parser (sbiParser.js): each reads the
// regular-expression captures of one block and writes what it finds into the
// actor being built. The expressions themselves (ability names, damage types,
// speed entries, ...) lie outside the model: an extractor receives their
// matches as typed capture records, and the model does what the code then does
// with those captures.
module SbiExtract {
  import opened Text
  import opened SbiData
  import opened SbiUtils
  import opened SbiSegmenter
  import opened SbiActor

  // ----- generic list helpers -----

  /** `Array.prototype.filter`. */
  function Filter<T>(s: seq<T>, p: T -> bool): (r: seq<T>)
    ensures |r| <= |s|
    ensures forall k :: 0 <= k < |r| ==> p(r[k])
  {
    if s == [] then [] else Filter(s[..|s| - 1], p) + (if p(s[|s| - 1]) then [s[|s| - 1]] else [])
  }

  /** `filter` with the negated test. */
  function Reject<T>(s: seq<T>, p: T -> bool): (r: seq<T>)
    ensures |r| <= |s|
    ensures forall k :: 0 <= k < |r| ==> !p(r[k])
  {
    if s == [] then [] else Reject(s[..|s| - 1], p) + (if p(s[|s| - 1]) then [] else [s[|s| - 1]])
  }

  /** Filtering by a test and by its negation splits a list into two parts that together hold each element once. */
  lemma {:induction false} FilterPartition<T>(s: seq<T>, p: T -> bool)
    ensures multiset(Filter(s, p)) + multiset(Reject(s, p)) == multiset(s)
    ensures |Filter(s, p)| + |Reject(s, p)| == |s|
  {
    if s != [] {
      var init, x := s[..|s| - 1], s[|s| - 1];
      FilterPartition(init, p);
      assert s == init + [x];
    }
    assert |multiset(Filter(s, p)) + multiset(Reject(s, p))| == |multiset(s)|;
  }

  /** JavaScript truthiness of an optional string capture: present and non-empty. */
  predicate Given(o: Option<string>) { o.Some? && o.value != [] }

  // ----- matchAndAnnotate -----

  /** A named group's span; `start` and `end` are offsets into the text searched. */
  datatype GroupSpan = GroupSpan(name: string, start: int, end: int)

  /** Where line `l` begins in the lines joined with "\n". */
  function LineStart(texts: seq<string>, l: nat): (r: nat)
    requires l <= |texts|
  {
    if l == 0 then 0 else LineStart(texts, l - 1) + |texts[l - 1]| + 1
  }

  /** The span `[s, e]` begins within line `l` (its end included) and ends before that line's end. */
  predicate SpanInLine(texts: seq<string>, l: nat, s: int, e: int)
    requires l < |texts|
  {
    LineStart(texts, l) <= s <= LineStart(texts, l) + |texts[l]| && e <= LineStart(texts, l) + |texts[l]|
  }

  /** The first line holding the span, searching from line `l`. */
  function LineOfSpan(texts: seq<string>, s: int, e: int, l: nat): (r: Option<nat>)
    requires l <= |texts|
    decreases |texts| - l
    ensures r.Some? ==> l <= r.value < |texts| && SpanInLine(texts, r.value, s, e)
    ensures r.Some? ==> forall k :: l <= k < r.value ==> !SpanInLine(texts, k, s, e)
    ensures r.None? ==> forall k :: l <= k < |texts| ==> !SpanInLine(texts, k, s, e)
  {
    if l == |texts| then None
    else if SpanInLine(texts, l, s, e) then Some(l)
    else LineOfSpan(texts, s, e, l + 1)
  }

  /** The annotations after one group: it lands, with line-relative indices, on the first line that holds it, or nowhere. */
  function Annotated(texts: seq<string>, data: seq<seq<GroupSpan>>, g: GroupSpan): (r: seq<seq<GroupSpan>>)
    requires |data| == |texts|
    ensures |r| == |data|
    ensures forall l :: 0 <= l < |data| && Some(l) != LineOfSpan(texts, g.start, g.end, 0) ==> r[l] == data[l]
  {
    match LineOfSpan(texts, g.start, g.end, 0)
    case None => data
    case Some(h) =>
      var shift := LineStart(texts, h);
      data[h := data[h] + [GroupSpan(g.name, g.start - shift, g.end - shift)]]
  }

  /** The annotations after all groups, in order. */
  function AnnotatedAll(texts: seq<string>, data: seq<seq<GroupSpan>>, groups: seq<GroupSpan>): (r: seq<seq<GroupSpan>>)
    requires |data| == |texts|
    ensures |r| == |data|
  {
    if groups == [] then data
    else Annotated(texts, AnnotatedAll(texts, data, groups[..|groups| - 1]), groups[|groups| - 1])
  }

  /** Each group adds at most one annotation over all lines. */
  function Count(data: seq<seq<GroupSpan>>): nat
  {
    if data == [] then 0 else Count(data[..|data| - 1]) + |data[|data| - 1]|
  }

  lemma {:induction false} CountUpdate(data: seq<seq<GroupSpan>>, h: nat, x: seq<GroupSpan>)
    requires h < |data|
    ensures Count(data[h := x]) == Count(data) - |data[h]| + |x|
  {
    if h < |data| - 1 {
      CountUpdate(data[..|data| - 1], h, x);
      assert data[h := x][..|data| - 1] == data[..|data| - 1][h := x];
    } else {
      assert data[h := x][..|data| - 1] == data[..|data| - 1];
    }
  }

  /** A group annotates at most one line: the annotation count grows by at most the number of groups. */
  lemma {:induction false} AtMostOneLinePerGroup(texts: seq<string>, data: seq<seq<GroupSpan>>, groups: seq<GroupSpan>)
    requires |data| == |texts|
    ensures Count(data) <= Count(AnnotatedAll(texts, data, groups)) <= Count(data) + |groups|
  {
    if groups != [] {
      var prev := AnnotatedAll(texts, data, groups[..|groups| - 1]);
      AtMostOneLinePerGroup(texts, data, groups[..|groups| - 1]);
      var g := groups[|groups| - 1];
      match LineOfSpan(texts, g.start, g.end, 0)
      case None =>
      case Some(h) =>
        var shift := LineStart(texts, h);
        CountUpdate(prev, h, prev[h] + [GroupSpan(g.name, g.start - shift, g.end - shift)]);
    }
  }

  /**
   * The line bookkeeping of `matchAndAnnotate` for one group: walk the lines
   * keeping the running length; a line that holds the span gets the group,
   * and the group's indices are made relative to that line, in place.
   */
  method AnnotateGroup(texts: seq<string>, data: seq<seq<GroupSpan>>, g: GroupSpan) returns (r: seq<seq<GroupSpan>>)
    requires |data| == |texts|
    ensures r == Annotated(texts, data, g)
  {
    var s, e := g.start, g.end;
    var hit: Option<nat> := None;
    var length := 0;
    r := data;
    var l := 0;
    while l < |texts|
      invariant 0 <= l <= |texts| && length == LineStart(texts, l) && |r| == |data|
      invariant hit.None? ==> s == g.start && e == g.end && r == data && LineOfSpan(texts, g.start, g.end, 0) == LineOfSpan(texts, g.start, g.end, l)
      invariant hit.Some? ==> hit == LineOfSpan(texts, g.start, g.end, 0) && s < length && hit.value < l
      invariant hit.Some? ==> r == Annotated(texts, data, g)
    {
      var line := texts[l];
      if s >= length && s <= length + |line| && e <= length + |line| {
        assert hit.None?;
        hit := Some(l);
        s, e := s - length, e - length;
        r := r[l := r[l] + [GroupSpan(g.name, s, e)]];
      }
      length := length + |line| + 1;
      l := l + 1;
    }
  }

  /**
   * `matchAndAnnotate`'s bookkeeping: the groups (already shifted by the
   * search offset and ordered by start) are placed one after another.
   */
  method AnnotateGroups(texts: seq<string>, data: seq<seq<GroupSpan>>, groups: seq<GroupSpan>) returns (r: seq<seq<GroupSpan>>)
    requires |data| == |texts|
    ensures r == AnnotatedAll(texts, data, groups)
  {
    r := data;
    var m := 0;
    while m < |groups|
      invariant 0 <= m <= |groups| && r == AnnotatedAll(texts, data, groups[..m])
    {
      assert groups[..m + 1][..m] == groups[..m];
      r := AnnotateGroup(texts, r, groups[m]);
      m := m + 1;
    }
    assert groups[..m] == groups;
  }

  // ----- parseAbilities -----

  /** A 2024-format value triple such as "18 +4 +6": score, modifier and saving-throw modifier, as written. */
  datatype Values24 = Values24(base: string, modifier: string, saveModifier: string)

  /**
   * The captures of one line of the abilities block: the text of every
   * ability-name match, the 2024-format value triples and the classic-format
   * scores (used only when the line has no 2024 triple).
   */
  datatype AbilityLine = AbilityLine(names: seq<string>, values24: seq<Values24>, values: seq<string>)

  /** What the scan has collected: ability names, score texts and, per 2024 triple, whether it marks a save proficiency. */
  datatype AbilityScan = AbilityScan(names: seq<string>, values: seq<string>, saves: seq<bool>)

  /** The first three characters of a name match: "Strength" becomes "Str". */
  function Short(name: string): (r: string)
    ensures |r| <= 3 && |r| <= |name| && r == name[..|r|]
    ensures |name| >= 3 ==> |r| == 3
  {
    if |name| <= 3 then name else name[..3]
  }

  function Shorts(names: seq<string>): (r: seq<string>)
    ensures |r| == |names| && forall k :: 0 <= k < |r| ==> r[k] == Short(names[k])
  {
    seq(|names|, k requires 0 <= k < |names| => Short(names[k]))
  }

  function Bases24(v: seq<Values24>): (r: seq<string>)
    ensures |r| == |v| && forall k :: 0 <= k < |r| ==> r[k] == v[k].base
  {
    seq(|v|, k requires 0 <= k < |v| => v[k].base)
  }

  /** A triple marks a proficiency when its modifier and save modifier are written differently. */
  function SaveFlags(v: seq<Values24>): (r: seq<bool>)
    ensures |r| == |v| && forall k :: 0 <= k < |r| ==> (r[k] <==> v[k].modifier != v[k].saveModifier)
  {
    seq(|v|, k requires 0 <= k < |v| => v[k].modifier != v[k].saveModifier)
  }

  /** One iteration of the scan over a line. */
  function ScanLine(st: AbilityScan, l: AbilityLine): (r: AbilityScan)
  {
    var names := st.names + Shorts(l.names);
    if l.values24 != [] then AbilityScan(names, st.values + Bases24(l.values24), st.saves + SaveFlags(l.values24))
    else AbilityScan(names, st.values + l.values, st.saves)
  }

  /** The scan over the lines, which stops once exactly six values have been collected. */
  function Scan(lines: seq<AbilityLine>): (r: AbilityScan)
    ensures forall k :: 0 <= k < |r.names| ==> |r.names[k]| <= 3
    ensures |r.saves| <= |r.values|
  {
    if lines == [] then AbilityScan([], [], [])
    else
      var st := Scan(lines[..|lines| - 1]);
      if |st.values| == 6 then st else ScanLine(st, lines[|lines| - 1])
  }

  /** Once six values are in, the remaining lines are not looked at. */
  lemma {:induction false} ScanStopsAtSix(lines: seq<AbilityLine>, n: nat)
    requires n <= |lines| && |Scan(lines[..n]).values| == 6
    ensures Scan(lines) == Scan(lines[..n])
    decreases |lines| - n
  {
    if n < |lines| {
      assert lines[..n + 1][..n] == lines[..n];
      ScanStopsAtSix(lines, n + 1);
    } else {
      assert lines[..n] == lines;
    }
  }

  /** Names and scores paired by position; a name without a score gets `parseInt(undefined)`, NaN. */
  function AbilitiesOf(sc: AbilityScan): (r: seq<NameValueData>)
    ensures |r| == |sc.names|
    ensures forall i :: 0 <= i < |r| ==> r[i].name == sc.names[i]
    ensures forall i :: 0 <= i < |r| ==> r[i].value == NumVal(if i < |sc.values| then ParseInt(sc.values[i]) else NaN)
  {
    seq(|sc.names|, i requires 0 <= i < |sc.names| => PairAt(sc, i))
  }

  /** The entry at position `i`: its name and the score at the same position. */
  function PairAt(sc: AbilityScan, i: nat): (r: NameValueData)
    requires i < |sc.names|
  {
    NameValueData(sc.names[i], NumVal(if i < |sc.values| then ParseInt(sc.values[i]) else NaN))
  }

  /** The names at positions whose 2024 triple marks a save proficiency. */
  function SavesOf(names: seq<string>, saves: seq<bool>): (r: seq<string>)
    ensures |r| <= |names|
  {
    if names == [] then []
    else
      var i := |names| - 1;
      SavesOf(names[..i], saves) + (if i < |saves| && saves[i] then [names[i]] else [])
  }

  /** A name is added as a saving throw exactly when its position carries a proficiency flag. */
  lemma {:induction false} SavesOfExactly(names: seq<string>, saves: seq<bool>, a: string)
    ensures a in SavesOf(names, saves) <==> exists i :: 0 <= i < |names| && i < |saves| && saves[i] && names[i] == a
  {
    if names != [] {
      var i := |names| - 1;
      SavesOfExactly(names[..i], saves, a);
      if exists j :: 0 <= j < |names| && j < |saves| && saves[j] && names[j] == a {
        var j :| 0 <= j < |names| && j < |saves| && saves[j] && names[j] == a;
        if j < i {
          assert names[..i][j] == names[j];
        }
      }
    }
  }

  /** The scanning loop of `parseAbilities`, which breaks as soon as six values are collected. */
  method ScanAbilities(lines: seq<AbilityLine>) returns (st: AbilityScan)
    ensures st == Scan(lines)
  {
    st := AbilityScan([], [], []);
    var i := 0;
    while i < |lines|
      invariant 0 <= i <= |lines| && st == Scan(lines[..i])
    {
      if |st.values| == 6 {
        ScanStopsAtSix(lines, i);
        return;
      }
      assert lines[..i + 1][..i] == lines[..i];
      st := ScanLine(st, lines[i]);
      i := i + 1;
    }
    assert lines[..i] == lines;
  }

  /** The pairing loop of `parseAbilities`: one entry per name, and the names whose triple marks a save. */
  method PairAbilities(st: AbilityScan) returns (data: seq<NameValueData>, saved: seq<string>)
    ensures data == AbilitiesOf(st)
    ensures saved == SavesOf(st.names, st.saves)
  {
    data, saved := [], [];
    var k := 0;
    while k < |st.names|
      invariant 0 <= k <= |st.names|
      invariant data == AbilitiesOf(st)[..k]
      invariant saved == SavesOf(st.names[..k], st.saves)
    {
      PairStep(st, k);
      data := data + [PairAt(st, k)];
      if k < |st.saves| && st.saves[k] {
        saved := saved + [st.names[k]];
      }
      k := k + 1;
    }
    assert st.names[..k] == st.names;
  }

  /** One more position adds its entry to the pairs and, when flagged, its name to the saves. */
  lemma PairStep(st: AbilityScan, k: nat)
    requires k < |st.names|
    ensures AbilitiesOf(st)[..k + 1] == AbilitiesOf(st)[..k] + [PairAt(st, k)]
    ensures SavesOf(st.names[..k + 1], st.saves) == SavesOf(st.names[..k], st.saves) + (if k < |st.saves| && st.saves[k] then [st.names[k]] else [])
  {
    assert st.names[..k + 1][..k] == st.names[..k];
  }

  /**
   * `parseAbilities`: scan the lines until six values are collected, then
   * pair names and scores by position and record the 2024 save proficiencies.
   */
  method ParseAbilities(actor: Actor, lines: seq<AbilityLine>)
    modifies actor`abilities, actor`savingThrows
    ensures actor.abilities == AbilitiesOf(Scan(lines))
    ensures actor.savingThrows == old(actor.savingThrows) + SavesOf(Scan(lines).names, Scan(lines).saves)
  {
    var st := ScanAbilities(lines);
    var data, saved := PairAbilities(st);
    actor.abilities := data;
    actor.savingThrows := actor.savingThrows + saved;
  }

  // ----- parseArmor -----

  /** The captures of the armour-class expression. */
  datatype ArmorMatch = ArmorMatch(ac: string, armorType: Option<string>, initiativeModifier: Option<string>, initiativeScore: Option<string>)

  /** `replace(/[−–]/, "-")`: the first minus sign or en dash becomes an ASCII hyphen. */
  function AsciiMinus(s: string): (r: string)
    ensures |r| == |s|
  {
    if s == [] then []
    else if s[0] == '\U{2212}' || s[0] == '\U{2013}' then "-" + s[1..]
    else [s[0]] + AsciiMinus(s[1..])
  }

  /** A modifier written with a typographic minus reads as the negative number. */
  lemma TypographicMinus(n: nat)
    ensures ParseInt(AsciiMinus("\U{2212}" + NatToString(n))) == Finite(-(n as real))
    ensures ParseInt(AsciiMinus("\U{2013}" + NatToString(n))) == Finite(-(n as real))
  {
    var d := NatToString(n);
    assert AsciiMinus("\U{2212}" + d) == "-" + d;
    assert AsciiMinus("\U{2013}" + d) == "-" + d;
    NegativeDigits(d);
    DigitsValueOfNatToString(n);
  }

  lemma NegativeDigits(d: string)
    requires d != [] && forall i :: 0 <= i < |d| ==> IsDigit(d[i])
    ensures ParseIntPrefix("-" + d) == Some(-(DigitsValue(d) as int))
  {
    var t := "-" + d;
    SignedShape(d);
    AllDigitsSkipped(d);
    assert d[..|d|] == d;
    assert TrimStart(t)[1..] == d;
    assert ParseIntPrefix(t) == Some(0 - DigitsValue(d) as int);
  }

  /** A minus sign before digits is not trimmed, and the digits follow it. */
  lemma SignedShape(d: string)
    ensures TrimStart("-" + d) == "-" + d && ("-" + d)[0] == '-' && ("-" + d)[1..] == d
  {
    var t := "-" + d;
    assert TrimStart(t) == t;
    assert t[1..] == d;
  }

  /** `armorType?.split(",").map(trim) || []`. */
  function ArmorTypes(armorType: Option<string>): (r: seq<string>)
  {
    if armorType.None? then []
    else
      var parts := Split(armorType.value, ',');
      seq(|parts|, k requires 0 <= k < |parts| => Trim(parts[k]))
  }

  predicate IsNaturalArmor(t: string) { Lower(t) == "natural armor" }

  /** The non-natural armour types as gear: lower-cased, quantity one. */
  function ArmorGear(types: seq<string>): (r: seq<NameValueData>)
    ensures |r| == |types|
    ensures forall k :: 0 <= k < |r| ==> r[k] == NameValueData(Lower(types[k]), NumVal(Finite(1.0)))
  {
    seq(|types|, k requires 0 <= k < |types| => NameValueData(Lower(types[k]), NumVal(Finite(1.0))))
  }

  /** `parseInt(undefined)` is NaN. */
  function ParseIntOpt(s: Option<string>): (r: Num)
    ensures s.None? ==> r.NaN?
  {
    if s.Some? then ParseInt(s.value) else NaN
  }

  /** Every armour type ends up either among the natural-armour types or as one piece of gear, never both. */
  lemma ArmorTypesSplit(armorType: Option<string>)
    ensures var types := ArmorTypes(armorType);
      |Filter(types, IsNaturalArmor)| + |ArmorGear(Reject(types, IsNaturalArmor))| == |types|
      && multiset(Filter(types, IsNaturalArmor)) + multiset(Reject(types, IsNaturalArmor)) == multiset(types)
  {
    FilterPartition(ArmorTypes(armorType), IsNaturalArmor);
  }

  /**
   * `parseArmor`: the armour class with its natural-armour types, the other
   * types appended to the gear, and the initiative when the line gives one.
   */
  method ParseArmor(actor: Actor, m: Option<ArmorMatch>)
    modifies actor`armor, actor`gear, actor`initiative
    ensures m.None? ==> actor.armor == old(actor.armor) && actor.gear == old(actor.gear) && actor.initiative == old(actor.initiative)
    ensures m.Some? ==> var types := ArmorTypes(m.value.armorType);
      && actor.armor == Some(ArmorData(ParseInt(m.value.ac), Filter(types, IsNaturalArmor)))
      && actor.gear == old(actor.gear) + ArmorGear(Reject(types, IsNaturalArmor))
    ensures m.Some? && Given(m.value.initiativeModifier) ==>
      actor.initiative == Some(SbiActor.Initiative(ParseInt(AsciiMinus(m.value.initiativeModifier.value)), ParseIntOpt(m.value.initiativeScore)))
    ensures m.Some? && !Given(m.value.initiativeModifier) ==> actor.initiative == old(actor.initiative)
  {
    if m.None? {
      return;
    }
    var types := ArmorTypes(m.value.armorType);
    actor.armor := Some(ArmorData(ParseInt(m.value.ac), Filter(types, IsNaturalArmor)));
    actor.gear := actor.gear + ArmorGear(Reject(types, IsNaturalArmor));
    if Given(m.value.initiativeModifier) {
      actor.initiative := Some(SbiActor.Initiative(ParseInt(AsciiMinus(m.value.initiativeModifier.value)), ParseIntOpt(m.value.initiativeScore)));
    }
  }

  // ----- parseChallenge -----

  /** The captures of the challenge expression. */
  datatype ChallengeMatch = ChallengeMatch(cr: string, xp: Option<string>, experiencePoints: Option<string>, pb: Option<string>, role: Option<string>)

  /** The challenge rating: "½" is a half, a text with "/" goes through `parseFraction` (None: its `null`), anything else through `parseInt`. */
  function CrOf(cr: string): (r: Option<Num>)
    ensures cr == "\U{00BD}" ==> r == Some(Finite(0.5))
    ensures cr != "\U{00BD}" && '/' in cr ==> r == ParseFraction(cr)
    ensures '/' !in cr && cr != "\U{00BD}" ==> r == Some(ParseInt(cr))
  {
    if cr == "\U{00BD}" then Some(Finite(0.5))
    else if '/' in cr then ParseFraction(cr)
    else Some(ParseInt(cr))
  }

  /** Experience points: the `xp` group, else the `experiencePoints` group, with its first comma removed; else 0. */
  function XpOf(m: ChallengeMatch): (r: Num)
  {
    if Given(m.xp) then ParseInt(ReplaceFirst(m.xp.value, ",", ""))
    else if Given(m.experiencePoints) then ParseInt(ReplaceFirst(m.experiencePoints.value, ",", ""))
    else Finite(0.0)
  }

  function PbOf(m: ChallengeMatch): (r: Num)
    ensures !Given(m.pb) ==> r == Finite(0.0)
  {
    if Given(m.pb) then ParseInt(m.pb.value) else Finite(0.0)
  }

  /** A fraction "a/b" with b non-zero is the quotient; a plain number is itself. */
  lemma CrOfNumbers(a: nat, b: nat)
    requires b > 0
    ensures CrOf(NatToString(a) + "/" + NatToString(b)) == Some(Finite(a as real / b as real))
    ensures CrOf(NatToString(a)) == Some(Finite(a as real))
  {
    var s := NatToString(a) + "/" + NatToString(b);
    assert s[|NatToString(a)|] == '/';
    ParseFractionOfNats(a, b);
    var d := NatToString(a);
    assert '/' !in d by {
      assert forall i :: 0 <= i < |d| ==> IsDigit(d[i]);
    }
    ParseNatToString(a);
  }

  /** Removing the first comma joins the digits around it: "1,100" reads as 1100. */
  lemma FirstCommaRemoved(x: string, y: string)
    requires ',' !in x
    ensures ReplaceFirst(x + "," + y, ",", "") == x + y
  {
    var s := x + "," + y;
    FirstCharFound(s, ',', |x|);
    assert s[..|x|] == x && s[|x| + 1..] == y;
  }

  /** `parseChallenge`: the challenge record and the role (the MCDM role sits beside the rating). */
  method ParseChallenge(actor: Actor, m: Option<ChallengeMatch>)
    modifies actor`challenge, actor`role
    ensures m.None? ==> actor.challenge == old(actor.challenge) && actor.role == old(actor.role)
    ensures m.Some? ==> actor.challenge == Some(Full(ChallengeData(CrOf(m.value.cr), XpOf(m.value), PbOf(m.value))))
    ensures m.Some? ==> actor.role == m.value.role
  {
    if m.None? {
      return;
    }
    var cr: Option<Num> := Some(Finite(0.0));
    if m.value.cr == "\U{00BD}" {
      cr := Some(Finite(0.5));
    } else if '/' in m.value.cr {
      cr := ParseFraction(m.value.cr);
    } else {
      cr := Some(ParseInt(m.value.cr));
    }
    var xp := Finite(0.0);
    if Given(m.value.xp) {
      xp := ParseInt(ReplaceFirst(m.value.xp.value, ",", ""));
    } else if Given(m.value.experiencePoints) {
      xp := ParseInt(ReplaceFirst(m.value.experiencePoints.value, ",", ""));
    }
    var pb := Finite(0.0);
    if Given(m.value.pb) {
      pb := ParseInt(m.value.pb.value);
    }
    actor.challenge := Some(Full(ChallengeData(cr, xp, pb)));
    actor.role := m.value.role;
  }

  // ----- parseDamagesAndConditions -----

  /** The blocks `parseDamagesAndConditions` is called for, and the damage list each fills. */
  function DamageListOf(b: BlockId): (r: Option<DamageConditionId>)
    ensures r.Some? <==> b in {DamageImmunities, ConditionImmunities, Immunities2024, DamageResistances, DamageVulnerabilities}
  {
    match b
    case DamageImmunities => Some(Immunities)
    case ConditionImmunities => Some(Immunities)
    case Immunities2024 => Some(Immunities)
    case DamageResistances => Some(Resistances)
    case DamageVulnerabilities => Some(Vulnerabilities)
    case _ => None
  }

  /**
   * The captures of one damage/condition block: the text of every damage-type
   * and condition-type match, and the block text with the header removed and
   * every such match deleted.
   */
  datatype DamageMatches = DamageMatches(damageTypes: seq<string>, conditionTypes: seq<string>, withoutTypes: string)

  /** The length of "immunities", "resistances" or "vulnerabilities" at `i` of the lower-cased text. */
  function ListWordAt(l: string, i: nat): (r: Option<nat>)
  {
    if i <= |l| && StartsWith(l[i..], "immunities") then Some(10)
    else if i <= |l| && StartsWith(l[i..], "resistances") then Some(11)
    else if i <= |l| && StartsWith(l[i..], "vulnerabilities") then Some(15)
    else None
  }

  predicate IsSpaceOrColon(c: char) { IsSpace(c) || c == ':' }

  /** Where the optional "damage"/"condition" prefix and the list word end in the lower-cased text `l`. */
  function HeaderEnd(l: string): (r: Option<nat>)
    ensures r.Some? ==> r.value <= |l|
  {
    var p: nat :=
      if StartsWith(l, "damage") && |l| > 6 && IsSpace(l[6]) && ListWordAt(l, 7).Some? then 7
      else if StartsWith(l, "condition") && |l| > 9 && IsSpace(l[9]) && ListWordAt(l, 10).Some? then 10
      else 0;
    match ListWordAt(l, p)
    case None => None
    case Some(w) => Some(p + w)
  }

  /** `replace(/^(damage\s|condition\s)?(immunities|resistances|vulnerabilities)[\s:]*\/i, "")`. */
  function StripListHeader(s: string): (r: string)
    ensures |r| <= |s|
  {
    match HeaderEnd(Lower(s))
    case None => s
    case Some(e) => s[SkipWhileFrom(s, e, IsSpaceOrColon)..]
  }

  /** `/first\ssecond/i.test(s)`: the two words, case-insensitively, with one whitespace character between. */
  predicate WordsWithSpace(s: string, first: string, second: string)
  {
    exists i :: 0 <= i < |s| && OccursAt(Lower(s), first, i) && i + |first| < |s| && IsSpace(s[i + |first|]) && OccursAt(Lower(s), second, i + |first| + 1)
  }

  predicate Nonmagical(s: string)
  {
    WordsWithSpace(s, "nonmagical", "weapons") || WordsWithSpace(s, "nonmagical", "attacks") || WordsWithSpace(s, "mundane", "attacks")
  }

  /** The bypass tags: "mgc", "ada" and "sil", each present exactly when its wording is, in that order. */
  function Bypasses(s: string): (r: seq<string>)
    ensures "mgc" in r <==> Nonmagical(s)
    ensures "ada" in r <==> Contains(s, "adamantine")
    ensures "sil" in r <==> Contains(s, "silvered")
    ensures forall k :: 0 <= k < |r| ==> r[k] in {"mgc", "ada", "sil"}
    ensures forall j, k :: 0 <= j < k < |r| ==> r[j] != r[k]
  {
    (if Nonmagical(s) then ["mgc"] else []) + (if Contains(s, "adamantine") then ["ada"] else [])
      + (if Contains(s, "silvered") then ["sil"] else [])
  }

  /** `str.replace(/,/g, "")`. */
  function RemoveCommas(s: string): (r: string)
    ensures ',' !in r
  {
    if s == [] then [] else (if s[0] == ',' then [] else [s[0]]) + RemoveCommas(s[1..])
  }

  /** The free text: only without a bypass, what is left once types and commas are gone, with its first newline made a space. */
  function Special(fullText: string, withoutTypes: string): (r: Option<string>)
    ensures r.Some? ==> Bypasses(fullText) == [] && r.value != []
  {
    if Bypasses(fullText) != [] then None
    else
      var left := Trim(RemoveCommas(withoutTypes));
      if left == [] then None
      else
        var i := IndexOf(left, "\n", 0);
        assert i.Some? ==> |left[..i.value] + " " + left[i.value + 1..]| > 0;
        Some(ReplaceFirst(left, "\n", " "))
  }

  /** The matched type names: the non-empty ones, lower-cased. */
  function TypeNames(matched: seq<string>): (r: seq<string>)
    ensures forall k :: 0 <= k < |r| ==> r[k] != []
  {
    if matched == [] then []
    else TypeNames(matched[..|matched| - 1]) + (var m := matched[|matched| - 1]; if m != [] then [Lower(m)] else [])
  }

  /** The text the bypasses are looked for in: the joined lines without their header, trimmed. */
  function ListText(texts: seq<string>): string
  {
    Trim(StripListHeader(Join(texts, "\n")))
  }

  /**
   * `parseDamagesAndConditions`: the damage list of the block's kind gains
   * the damage types and has its bypasses and free text overwritten; the
   * condition immunities gain the condition types.
   */
  method ParseDamagesAndConditions(actor: Actor, texts: seq<string>, kind: BlockId, m: DamageMatches)
    requires DamageListOf(kind).Some?
    modifies actor`damages, actor`conditionImmunities
    ensures var id := DamageListOf(kind).value;
      var before := if id in old(actor.damages) then old(actor.damages)[id].types else [];
      actor.damages == old(actor.damages)[id := DamageEntry(before + TypeNames(m.damageTypes), Bypasses(ListText(texts)), Special(ListText(texts), m.withoutTypes))]
    ensures var before := if old(actor.conditionImmunities).Some? then old(actor.conditionImmunities).value else ConditionEntry([], "");
      actor.conditionImmunities == Some(before.(types := before.types + TypeNames(m.conditionTypes)))
  {
    var id := DamageListOf(kind).value;
    var fullLines := ListText(texts);
    var bypasses := Bypasses(fullLines);
    var customType := Special(fullLines, m.withoutTypes);
    var entry := if id in actor.damages then actor.damages[id] else DamageEntry([], [], Some(""));
    entry := DamageEntry(entry.types + TypeNames(m.damageTypes), bypasses, customType);
    actor.damages := actor.damages[id := entry];
    var conditions := if actor.conditionImmunities.Some? then actor.conditionImmunities.value else ConditionEntry([], "");
    actor.conditionImmunities := Some(conditions.(types := conditions.types + TypeNames(m.conditionTypes)));
  }

  /** A lower-cased text starting "damage resistances" has its header end after those two words. */
  lemma ResistancesHeader(l: string)
    requires |l| >= 18 && l[..18] == "damage resistances"
    ensures HeaderEnd(l) == Some(18)
  {
    assert StartsWith(l, "damage") && IsSpace(l[6]);
    assert l[7..][..11] == "resistances";
    assert !StartsWith(l[7..], "immunities") by { assert l[7..][..10][0] == 'r'; }
  }

  /** The header words and the list separator are removed from the front of a damage list. */
  lemma HeaderStripped(rest: string)
    requires rest == [] || !IsSpaceOrColon(rest[0])
    ensures StripListHeader("Damage Resistances: " + rest) == rest
  {
    var s := "Damage Resistances: " + rest;
    var l := Lower(s);
    assert l[..18] == "damage resistances" by {
      assert forall i :: 0 <= i < 18 ==> l[i] == LowerChar(s[i]);
    }
    ResistancesHeader(l);
    assert s[18] == ':' && s[19] == ' ';
    assert SkipWhileFrom(s, 20, IsSpaceOrColon) == 20;
    assert SkipWhileFrom(s, 18, IsSpaceOrColon) == 20;
    assert s[20..] == rest;
  }

  // ----- parseSpeed -----

  /** The captures of one speed entry: an optional mode name and the value. */
  datatype SpeedMatch = SpeedMatch(name: Option<string>, value: Option<string>)

  /** The entries with a value, an unnamed one named "walk". */
  function ListedSpeeds(matches: seq<SpeedMatch>): (r: seq<NameValueData>)
    ensures |r| <= |matches|
    ensures forall k :: 0 <= k < |r| ==> r[k].name != [] && r[k].value.StrVal?
  {
    if matches == [] then []
    else
      var m := matches[|matches| - 1];
      ListedSpeeds(matches[..|matches| - 1])
        + (if m.value.Some? then [NameValueData(if Given(m.name) then m.name.value else "walk", StrVal(m.value.value))] else [])
  }

  predicate MentionsHover(texts: seq<string>)
  {
    exists k :: 0 <= k < |texts| && Contains(Lower(texts[k]), "hover")
  }

  /** `parseSpeed`'s list: the listed speeds, then a "hover" entry with an empty value when some line mentions hovering. */
  function SpeedsOf(matches: seq<SpeedMatch>, texts: seq<string>): (r: seq<NameValueData>)
    ensures |r| >= |ListedSpeeds(matches)| && r[..|ListedSpeeds(matches)|] == ListedSpeeds(matches)
    ensures MentionsHover(texts) <==> |r| == |ListedSpeeds(matches)| + 1
    ensures MentionsHover(texts) ==> r[|r| - 1] == NameValueData("hover", StrVal(""))
    ensures !MentionsHover(texts) ==> r == ListedSpeeds(matches)
  {
    ListedSpeeds(matches) + (if MentionsHover(texts) then [NameValueData("hover", StrVal(""))] else [])
  }

  /** An entry is listed for each match that has a value, in order: a match without a value is dropped. */
  lemma {:induction false} ListedSpeedsCount(matches: seq<SpeedMatch>)
    ensures |ListedSpeeds(matches)| == |Filter(matches, (m: SpeedMatch) => m.value.Some?)|
  {
    if matches != [] {
      ListedSpeedsCount(matches[..|matches| - 1]);
    }
  }

  method ParseSpeed(actor: Actor, matches: seq<SpeedMatch>, texts: seq<string>)
    modifies actor`speeds
    ensures actor.speeds == SpeedsOf(matches, texts)
  {
    var speeds := ListedSpeeds(matches);
    if exists k :: 0 <= k < |texts| && Contains(Lower(texts[k]), "hover") {
      speeds := speeds + [NameValueData("hover", StrVal(""))];
    }
    actor.speeds := speeds;
  }

  // ----- parseRacialDetails -----

  /** The captures of the racial-details expression. */
  datatype RacialMatch = RacialMatch(size: Option<string>, alignment: Option<string>, race: Option<string>, swarmSize: Option<string>, creatureType: Option<string>)

  /** Whether an extractor ran to its end or threw a `TypeError` part way. */
  datatype Completion = Normal | Threw

  function TrimOpt(o: Option<string>): (r: Option<string>)
    ensures r.None? <==> o.None?
  {
    if o.Some? then Some(Trim(o.value)) else None
  }

  /** The singular of a type name: a final "s" dropped, "monstrositie" corrected to "monstrosity". */
  function Singular(t: string): (r: string)
  {
    var s := if |t| > 0 && t[|t| - 1] == 's' then t[..|t| - 1] else t;
    if s == "monstrositie" then "monstrosity" else s
  }

  /** The creature type and custom type: a known singular type, or else the whole type text as a custom type. */
  function CreatureKind(creatureType: string): (r: (Option<string>, Option<string>))
    ensures r.0.Some? <==> r.1.None?
    ensures r.0.Some? ==> r.0.value in KnownCreatureTypes && r.0.value == Singular(creatureType)
    ensures r.1.Some? ==> r.1.value == creatureType && Singular(creatureType) !in KnownCreatureTypes
  {
    var single := Singular(creatureType);
    if single in KnownCreatureTypes then (Some(single), None) else (None, Some(creatureType))
  }

  /** Every known type is recognised both as written and in the plural ("dragons", "monstrosities"). */
  lemma KnownTypesAndPlurals(t: string)
    requires t in KnownCreatureTypes
    ensures CreatureKind(t) == (Some(t), None)
    ensures t != "monstrosity" ==> CreatureKind(t + "s") == (Some(t), None)
    ensures CreatureKind("monstrosities") == (Some("monstrosity"), None)
  {
    assert (t + "s")[..|t|] == t;
    assert "monstrosities"[..12] == "monstrositie";
  }

  /**
   * `parseRacialDetails`: size, alignment, race and swarm size, then the
   * creature type; a match without a type group throws after the first four
   * are written.
   */
  method ParseRacialDetails(actor: Actor, m: Option<RacialMatch>) returns (r: Completion)
    modifies actor`size, actor`alignment, actor`race, actor`swarmSize, actor`creatureType, actor`customType
    ensures m.None? ==>
      r == Normal && actor.size == old(actor.size) && actor.alignment == old(actor.alignment)
      && actor.race == old(actor.race) && actor.swarmSize == old(actor.swarmSize)
    ensures m.Some? ==>
      actor.size == m.value.size && actor.alignment == TrimOpt(m.value.alignment)
      && actor.race == TrimOpt(m.value.race) && actor.swarmSize == TrimOpt(m.value.swarmSize)
    ensures r == Threw <==> m.Some? && m.value.creatureType.None?
    ensures r == Threw || m.None? ==> actor.creatureType == old(actor.creatureType) && actor.customType == old(actor.customType)
    ensures r == Normal && m.Some? ==>
      (actor.creatureType, actor.customType) == CreatureKind(Trim(Lower(m.value.creatureType.value)))
  {
    if m.None? {
      return Normal;
    }
    actor.size := m.value.size;
    actor.alignment := TrimOpt(m.value.alignment);
    actor.race := TrimOpt(m.value.race);
    actor.swarmSize := TrimOpt(m.value.swarmSize);
    if m.value.creatureType.None? {
      return Threw;
    }
    var kind := CreatureKind(Trim(Lower(m.value.creatureType.value)));
    actor.creatureType := kind.0;
    actor.customType := kind.1;
    return Normal;
  }

  // ----- parseRange and parseTarget -----

  /** The captures of the range expression, e.g. "range 150/600 ft.". */
  datatype RangeMatch = RangeMatch(near: string, far: Option<string>)

  /** An attack's range: `parseInt` of the near distance and of the far one when written, else null. */
  datatype RangeData = RangeData(near: Num, far: Option<Num>)

  /** The captures of the target expression: an area ("a 15-foot cone") or a count of creatures within a distance. */
  datatype TargetMatch = TargetMatch(areaRange: Option<string>, shape: Option<string>, targetsAmount: Option<string>, range: Option<string>)

  /** What `target` holds: the distance text, the area's shape, or the creature type and count. */
  datatype TargetData = TargetData(range: Option<string>, shape: Option<string>, kind: Option<string>, amount: Option<int>)

  /** `/spell attack/i` on the entry's lines joined with "\n". */
  predicate MentionsSpellAttack(lines: seq<string>)
  {
    Contains(Lower(Join(lines, "\n")), "spell attack")
  }

  function RangeOf(m: RangeMatch): (r: RangeData)
    ensures r.near == ParseInt(m.near)
    ensures r.far.Some? <==> Given(m.far)
    ensures r.far.Some? ==> r.far.value == ParseInt(m.far.value)
  {
    RangeData(ParseInt(m.near), if Given(m.far) then Some(ParseInt(m.far.value)) else None)
  }

  /** The attack type an attack line implies: "spell" exactly when it says "spell attack", else "weapon". */
  function AttackKind(lines: seq<string>): (r: string)
    ensures r == "spell" <==> MentionsSpellAttack(lines)
    ensures r == "weapon" <==> !MentionsSpellAttack(lines)
  {
    if MentionsSpellAttack(lines) then "spell" else "weapon"
  }

  /** Written distances read back as the numbers they spell. */
  lemma RangeOfNumbers(near: nat, far: nat)
    ensures RangeOf(RangeMatch(NatToString(near), Some(NatToString(far)))) == RangeData(Finite(near as real), Some(Finite(far as real)))
    ensures RangeOf(RangeMatch(NatToString(near), None)) == RangeData(Finite(near as real), None)
  {
    ParseNatToString(near);
    ParseNatToString(far);
  }

  /**
   * The target an action describes: an area gives its size and shape;
   * otherwise the targets are creatures within the given distance, and "one"
   * or "a" (as written, lower case) fixes their number at 1.
   */
  function TargetOf(m: TargetMatch): (r: TargetData)
    ensures Given(m.areaRange) ==> r.range == m.areaRange && r.shape == m.shape && r.kind.None? && r.amount.None?
    ensures !Given(m.areaRange) ==> r.range == m.range && r.shape.None? && r.kind == Some("creature")
    ensures r.amount.Some? <==> !Given(m.areaRange) && (m.targetsAmount == Some("one") || m.targetsAmount == Some("a"))
    ensures r.amount.Some? ==> r.amount.value == 1
  {
    if Given(m.areaRange) then TargetData(m.areaRange, m.shape, None, None)
    else
      var one := m.targetsAmount == Some("one") || m.targetsAmount == Some("a");
      TargetData(m.range, None, Some("creature"), if one then Some(1) else None)
  }

  /** The value of one action or feature entry, as far as these two extractors use it. */
  class ActionValue {
    var lines: seq<string>
    var range: Option<RangeData>
    var attackType: Option<string>
    var target: Option<TargetData>

    constructor(lines: seq<string>)
      ensures this.lines == lines && range.None? && attackType.None? && target.None?
    {
      this.lines := lines;
      range, attackType, target := None, None, None;
    }

    /** `parseRange`: with a range match, the range and the attack type are written; without one nothing changes. */
    method ParseRange(m: Option<RangeMatch>)
      modifies this`range, this`attackType
      ensures m.None? ==> range == old(range) && attackType == old(attackType)
      ensures m.Some? ==> range == Some(RangeOf(m.value)) && attackType == Some(AttackKind(lines))
    {
      if m.None? {
        return;
      }
      range := Some(RangeOf(m.value));
      if MentionsSpellAttack(lines) {
        attackType := Some("spell");
      } else {
        attackType := Some("weapon");
      }
    }

    /** `parseTarget`: with a target match, the target is replaced; without one nothing changes. */
    method ParseTarget(m: Option<TargetMatch>)
      modifies this`target
      ensures m.None? ==> target == old(target)
      ensures m.Some? ==> target == Some(TargetOf(m.value))
    {
      if m.None? {
        return;
      }
      var t := TargetData(if Given(m.value.areaRange) then m.value.areaRange else m.value.range, None, None, None);
      if Given(m.value.areaRange) {
        t := t.(shape := m.value.shape);
      } else {
        t := t.(kind := Some("creature"));
        if m.value.targetsAmount == Some("one") || m.value.targetsAmount == Some("a") {
          t := t.(amount := Some(1));
        }
      }
      target := Some(t);
    }
  }
}
