// The importer's arithmetic, name tables and string/array helpers
// (scripts/sbi-importer/sbiUtils.js).
module SbiUtils {
  import opened Text

  // ----- arithmetic -----

  /** `getAbilityMod`: the ability modifier, rounded down. */
  function AbilityMod(score: int): (r: int)
    ensures 2 * r <= score - 10 < 2 * r + 2
  {
    (score - 10) / 2
  }

  /** `getAbilityMod()` with the argument left out uses a score of 10. */
  function AbilityModOrDefault(score: Option<int>): (r: int)
    ensures score.None? ==> r == 0
    ensures score.Some? ==> r == AbilityMod(score.value)
  {
    AbilityMod(if score.Some? then score.value else 10)
  }

  /** `getProficiencyBonus`: +1 every four levels from 2, never below 2. */
  function ProficiencyBonus(level: int): (r: int)
    ensures r >= 2
    ensures level <= 4 ==> r == 2
    ensures level >= 1 ==> 4 * (r - 2) <= level - 1 < 4 * (r - 1)
  {
    var step := (level - 1) / 4;
    if 2 + step < 2 then 2 else 2 + step
  }

  /** `getMinLevel`: the level paired with a proficiency bonus. */
  function MinLevel(pb: int): (r: int)
    ensures r + 7 == 4 * pb
  {
    pb * 4 - 7
  }

  /** From a bonus of 2 up, `getMinLevel` is the lowest level with that bonus. */
  lemma MinLevelRoundTrip(pb: int)
    requires pb >= 2
    ensures ProficiencyBonus(MinLevel(pb)) == pb
    ensures pb >= 3 ==> ProficiencyBonus(MinLevel(pb) - 1) == pb - 1
  {
    assert (4 * pb - 8) / 4 == pb - 2;
    if pb >= 3 {
      assert (4 * pb - 9) / 4 == pb - 3;
    }
  }

  // ----- name tables -----

  /** The value paired with the first occurrence of `key`. */
  function Lookup(table: seq<(string, string)>, key: string): (r: Option<string>)
    ensures r.Some? ==> exists i :: 0 <= i < |table| && table[i].0 == key && table[i].1 == r.value
    ensures r.None? <==> forall i :: 0 <= i < |table| ==> table[i].0 != key
  {
    if table == [] then None
    else if table[0].0 == key then Some(table[0].1)
    else
      var r := Lookup(table[1..], key);
      assert forall i :: 1 <= i < |table| ==> table[i] == table[1..][i - 1];
      r
  }

  const AbilityTable: seq<(string, string)> := [
    ("strength", "str"), ("dexterity", "dex"), ("constitution", "con"),
    ("intelligence", "int"), ("wisdom", "wis"), ("charisma", "cha")]

  const SkillTable: seq<(string, string)> := [
    ("acrobatics", "acr"), ("animal handling", "ani"), ("arcana", "arc"), ("athletics", "ath"),
    ("deception", "dec"), ("history", "his"), ("insight", "ins"), ("intimidation", "itm"),
    ("investigation", "inv"), ("medicine", "med"), ("nature", "nat"), ("perception", "prc"),
    ("performance", "prf"), ("persuasion", "per"), ("religion", "rel"), ("sleight of hand", "slt"),
    ("stealth", "ste"), ("survival", "sur")]

  const LanguageTable: seq<(string, string)> := [("deep speech", "deep"), ("thieves' cant", "cant")]

  /** Looks `name` up case-insensitively; an unknown name comes back lower-cased. */
  function ConvertWith(table: seq<(string, string)>, name: string): (r: string)
    ensures (exists i :: 0 <= i < |table| && table[i].0 == Lower(name) && table[i].1 == r)
            || (r == Lower(name) && forall i :: 0 <= i < |table| ==> table[i].0 != Lower(name))
  {
    match Lookup(table, Lower(name))
    case Some(code) => code
    case None => Lower(name)
  }

  /** `convertToShortAbility`. */
  function ConvertToShortAbility(name: string): (r: string)
    ensures (exists i :: 0 <= i < |AbilityTable| && AbilityTable[i].0 == Lower(name) && AbilityTable[i].1 == r)
            || (r == Lower(name) && forall i :: 0 <= i < |AbilityTable| ==> AbilityTable[i].0 != Lower(name))
  {
    ConvertWith(AbilityTable, name)
  }

  /** `convertToShortSkill`. */
  function ConvertToShortSkill(name: string): (r: string)
    ensures (exists i :: 0 <= i < |SkillTable| && SkillTable[i].0 == Lower(name) && SkillTable[i].1 == r)
            || (r == Lower(name) && forall i :: 0 <= i < |SkillTable| ==> SkillTable[i].0 != Lower(name))
  {
    ConvertWith(SkillTable, name)
  }

  /** `convertLanguage`. */
  function ConvertLanguage(name: string): (r: string)
    ensures (exists i :: 0 <= i < |LanguageTable| && LanguageTable[i].0 == Lower(name) && LanguageTable[i].1 == r)
            || (r == Lower(name) && forall i :: 0 <= i < |LanguageTable| ==> LanguageTable[i].0 != Lower(name))
  {
    ConvertWith(LanguageTable, name)
  }

  /** Every ability and skill code has three letters. */
  lemma CodesHaveThreeLetters()
    ensures forall i :: 0 <= i < |AbilityTable| ==> |AbilityTable[i].1| == 3
    ensures forall i :: 0 <= i < |SkillTable| ==> |SkillTable[i].1| == 3
  {
  }

  // ----- strings -----

  /** Whether `capitalizeAll`'s pattern `^\w|\s\w|\(\w` ends with the word character at `i`. */
  predicate CapitalAt(l: string, i: int)
  {
    0 <= i < |l| && IsWord(l[i]) && (i == 0 || IsSpace(l[i - 1]) || l[i - 1] == '(')
  }

  /**
   * `capitalizeAll`: null for the empty string; otherwise the lower-cased text
   * with each word character at the start, after whitespace or after "("
   * upper-cased. The matches of the global pattern never overlap, since each
   * ends on a word character and the next one begins on a separator.
   */
  function CapitalizeAll(s: string): (r: Option<string>)
    ensures r.None? <==> s == []
    ensures r.Some? ==> |r.value| == |s|
    ensures r.Some? ==> forall i {:trigger r.value[i]} :: 0 <= i < |s| ==>
      r.value[i] == if CapitalAt(Lower(s), i) then UpperChar(LowerChar(s[i])) else LowerChar(s[i])
  {
    if s == [] then None
    else
      var l := Lower(s);
      Some(seq(|l|, i requires 0 <= i < |l| => if CapitalAt(l, i) then UpperChar(l[i]) else l[i]))
  }

  lemma LowerUpper(c: char)
    ensures LowerChar(UpperChar(c)) == LowerChar(c)
    ensures IsWord(LowerChar(c)) == IsWord(c) && IsSpace(LowerChar(c)) == IsSpace(c)
    ensures (LowerChar(c) == '(') == (c == '(')
  {
  }

  /** Capitalising twice gives the same text as capitalising once. */
  lemma CapitalizeAllIdempotent(s: string)
    requires s != []
    ensures CapitalizeAll(CapitalizeAll(s).value) == CapitalizeAll(s)
  {
    var r := CapitalizeAll(s).value;
    var l, lr := Lower(s), Lower(r);
    forall i | 0 <= i < |s|
      ensures lr[i] == l[i]
    {
      LowerUpper(LowerChar(s[i]));
    }
    assert lr == l;
    var rr := CapitalizeAll(r).value;
    forall i | 0 <= i < |s|
      ensures rr[i] == r[i]
    {
      LowerUpper(LowerChar(s[i]));
    }
  }

  /** `capitalizeFirstLetter`. */
  function CapitalizeFirstLetter(s: string): (r: string)
    ensures |r| == |s|
    ensures s != [] ==> r[0] == UpperChar(s[0]) && r[1..] == s[1..]
  {
    if s == [] then [] else [UpperChar(s[0])] + s[1..]
  }

  /** `replaceAt`: past the end the string is returned unchanged; before the start `c` is prepended. */
  function ReplaceAt(s: string, index: int, c: string): (r: string)
    ensures index > |s| - 1 ==> r == s
    ensures index < 0 ==> r == c + s
    ensures |c| == 1 && 0 <= index < |s| ==>
      |r| == |s| && r[index] == c[0] && forall j :: 0 <= j < |s| && j != index ==> r[j] == s[j]
  {
    if index > |s| - 1 then s
    else if index < 0 then c + s
    else s[..index] + c + s[index + 1..]
  }

  predicate EndsWith(s: string, t: string) { |t| <= |s| && s[|s| - |t|..] == t }

  /** `trimStringEnd`: removes one copy of the suffix, only when present. */
  function TrimStringEnd(s: string, t: string): (r: string)
    ensures EndsWith(s, t) ==> r + t == s
    ensures !EndsWith(s, t) ==> r == s
  {
    if EndsWith(s, t) then s[..|s| - |t|] else s
  }

  /** Trimming a suffix that was just appended gives back the text. */
  lemma TrimStringEndAppended(x: string, t: string)
    ensures TrimStringEnd(x + t, t) == x
  {
    assert (x + t)[|x + t| - |t|..] == t;
    assert (x + t)[..|x|] == x;
  }

  /** `parseFraction`: null unless "/" cuts the text into exactly two parts. */
  function ParseFraction(s: string): (r: Option<Num>)
    ensures r.Some? <==> |Split(s, '/')| == 2
  {
    var parts := Split(s, '/');
    if |parts| == 2 then Some(Divide(ParseFloat(parts[0]), ParseFloat(parts[1]))) else None
  }

  lemma SplitFraction(a: nat, b: nat)
    ensures Split(NatToString(a) + "/" + NatToString(b), '/') == [NatToString(a), NatToString(b)]
  {
    var x, y := NatToString(a), NatToString(b);
    assert '/' !in x && '/' !in y by {
      assert forall i :: 0 <= i < |x| ==> IsDigit(x[i]);
      assert forall i :: 0 <= i < |y| ==> IsDigit(y[i]);
    }
    SplitAtFirst(x, '/', y);
    SplitNoSep(y, '/');
  }

  /** "a/b" with a non-zero denominator reads back as the quotient. */
  lemma ParseFractionOfNats(a: nat, b: nat)
    requires b > 0
    ensures ParseFraction(NatToString(a) + "/" + NatToString(b)) == Some(Finite(a as real / b as real))
  {
    SplitFraction(a, b);
    ParseFloatNatToString(a);
    ParseFloatNatToString(b);
  }

  /** `format`: the token index written in canonical decimal form, if `digits` is one. */
  function TokenIndex(digits: string): (r: Option<nat>)
    requires forall i :: 0 <= i < |digits| ==> IsDigit(digits[i])
    ensures r.Some? ==> NatToString(r.value) == digits
  {
    if digits != [] && NatToString(DigitsValue(digits)) == digits then Some(DigitsValue(digits)) else None
  }

  /**
   * `format`: every "{N}" whose index names a token becomes that token; other
   * placeholders and all other text are kept. Scanning resumes after each
   * placeholder, as a global replacement does.
   */
  function Format(s: string, tokens: seq<string>): (r: string)
    decreases |s|
  {
    if s == [] then []
    else
      var digits := LeadingDigits(s[1..]);
      var close := 1 + |digits|;
      if s[0] == '{' && digits != [] && close < |s| && s[close] == '}' then
        var placeholder := s[..close + 1];
        var index := TokenIndex(digits);
        (if index.Some? && index.value < |tokens| then tokens[index.value] else placeholder)
          + Format(s[close + 1..], tokens)
      else [s[0]] + Format(s[1..], tokens)
  }

  /** Text without "{" is left as it is. */
  lemma {:induction false} FormatPlainText(s: string, tokens: seq<string>)
    requires '{' !in s
    ensures Format(s, tokens) == s
  {
    if s != [] {
      FormatPlainText(s[1..], tokens);
      assert [s[0]] + s[1..] == s;
    }
  }

  /** "{k}" with a token k is replaced by that token. */
  lemma FormatPlaceholder(k: nat, tokens: seq<string>)
    requires k < |tokens|
    ensures Format("{" + NatToString(k) + "}", tokens) == tokens[k]
  {
    var d := NatToString(k);
    var s := "{" + d + "}";
    assert s[1..] == d + "}";
    LeadingDigitsOf(d, "}");
    DigitsValueOfNatToString(k);
    assert s[1 + |d| + 1..] == [];
  }

  /**
   * `combineSourceLines` with `removeName`: `^[^.:!]*[.:!]\s*` removes the
   * text through the first ".", ":" or "!" and the whitespace after it.
   */
  function StripName(s: string): (r: string)
    ensures |r| <= |s| && r == s[|s| - |r|..]
    ensures (forall i :: 0 <= i < |s| ==> !IsNameEnd(s[i])) ==> r == s
    ensures r != [] && |r| < |s| ==> !IsSpace(r[0])
  {
    var k := SkipWhileFrom(s, 0, NotNameEnd);
    if k == |s| then s else s[SkipWhileFrom(s, k + 1, IsSpace)..]
  }

  predicate IsNameEnd(c: char) { c == '.' || c == ':' || c == '!' }
  predicate NotNameEnd(c: char) { !IsNameEnd(c) }

  /** `combineSourceLines`: lines joined by "\n", the first "\n" read as a space, the name optionally removed. */
  function CombineSourceLines(lines: seq<string>, removeName: bool): (r: string)
  {
    var combined := ReplaceFirst(Join(lines, "\n"), "\n", " ");
    if removeName then StripName(combined) else combined
  }

  /** Only the first line break becomes a space. */
  lemma CombineTwoLines(a: string, b: string)
    requires '\n' !in a
    ensures CombineSourceLines([a, b], false) == a + " " + b
  {
    var s := a + "\n" + b;
    assert Join([a, b], "\n") == s;
    var i := IndexOf(s, "\n", 0);
    assert OccursAt(s, "\n", |a|);
    assert forall j :: 0 <= j < |a| ==> !OccursAt(s, "\n", j) by {
      forall j | 0 <= j < |a| ensures !OccursAt(s, "\n", j) {
        assert s[j] == a[j];
      }
    }
    assert i == Some(|a|);
    assert s[..|a|] == a && s[|a| + 1..] == b;
  }

  /** "Name. text" loses its name and the space after the full stop. */
  lemma StripNameOfEntry(name: string, text: string)
    requires forall i :: 0 <= i < |name| ==> !IsNameEnd(name[i])
    requires text != [] && !IsSpace(text[0])
    ensures StripName(name + ". " + text) == text
  {
    var s := name + ". " + text;
    assert forall i :: 0 <= i < |name| ==> s[i] == name[i];
    assert s[|name|] == '.' && s[|name| + 1] == ' ' && s[|name| + 2] == text[0];
    assert SkipWhileFrom(s, 0, NotNameEnd) == |name|;
    assert SkipWhileFrom(s, |name| + 1, IsSpace) == |name| + 2;
    assert s[|name| + 2..] == text;
  }

  // ----- arrays -----

  /** The length of the longest prefix on which `p` holds. */
  function SkipCount<T>(a: seq<T>, p: T -> bool): (k: nat)
    ensures k <= |a|
    ensures forall i :: 0 <= i < k ==> p(a[i])
    ensures k < |a| ==> !p(a[k])
  {
    if a == [] || !p(a[0]) then 0
    else
      var k := 1 + SkipCount(a[1..], p);
      assert forall i :: 1 <= i < k ==> a[i] == a[1..][i - 1];
      k
  }

  /** `skipWhile`: a filter whose flag switches on at the first item failing `p` and stays on. */
  method SkipWhile<T>(a: seq<T>, p: T -> bool) returns (r: seq<T>)
    ensures r == a[SkipCount(a, p)..]
  {
    var doneSkipping := false;
    r := [];
    var i := 0;
    while i < |a|
      invariant 0 <= i <= |a|
      invariant doneSkipping <==> i > SkipCount(a, p)
      invariant r == if doneSkipping then a[SkipCount(a, p)..i] else []
    {
      if !doneSkipping {
        doneSkipping := !p(a[i]);
      }
      if doneSkipping {
        r := r + [a[i]];
      }
      i := i + 1;
    }
    assert !doneSkipping ==> SkipCount(a, p) == |a|;
  }

  /** `intersect`: the items of `source` found in `target`, in order. */
  function Intersect<T(==)>(source: seq<T>, target: seq<T>): (r: seq<T>)
    ensures forall x :: x in r ==> x in source && x in target
  {
    if source == [] then []
    else (if source[0] in target then [source[0]] else []) + Intersect(source[1..], target)
  }

  /** `except`: the items of `source` not found in `target`, in order. */
  function Except<T(==)>(source: seq<T>, target: seq<T>): (r: seq<T>)
    ensures forall x :: x in r ==> x in source && x !in target
  {
    if source == [] then []
    else (if source[0] !in target then [source[0]] else []) + Except(source[1..], target)
  }

  /** `intersect` and `except` split the source between them. */
  lemma {:induction false} IntersectExceptPartition<T>(source: seq<T>, target: seq<T>)
    ensures multiset(Intersect(source, target)) + multiset(Except(source, target)) == multiset(source)
  {
    if source != [] {
      IntersectExceptPartition(source[1..], target);
      assert source == [source[0]] + source[1..];
    }
  }
}
