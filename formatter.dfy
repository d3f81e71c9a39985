// The reverse renderer: its number and text conversions, the dice, challenge
// and movement arithmetic, the de-duplication and grouping of Open5E data and
// the section order of the rendered statblock (scripts/statblock-formatter.js).
module Formatter {
  import opened Text
  import opened Js
  import SbiUtils

  // ----- safe conversions -----

  predicate Nullish(v: Value) { v.Undefined? || v.Null? }

  /**
   * The fraction at the start of trimmed text: a signed decimal, optional
   * spaces, "/", optional spaces and a signed decimal
   * (`^\s*([-+]?(?:\d+(?:\.\d+)?|\.\d+))\s*\/\s*(…)`).
   */
  function LeadingFraction(t: string): (r: Option<(real, real)>)
  {
    match SignedDecimalAt(t, 0, false)
    case None => None
    case Some(n) =>
      var i := SkipWhileFrom(t, n.1, IsSpace);
      if i < |t| && t[i] == '/' then
        var j := SkipWhileFrom(t, i + 1, IsSpace);
        match SignedDecimalAt(t, j, false)
        case None => None
        case Some(d) => Some((n.0, d.0))
      else None
  }

  /** `safeNumber` on trimmed, non-blank text: a leading fraction, else a leading number, else `Number` of the whole text. */
  function TextNumber(t: string, fallback: Num): (r: Num)
    ensures r == fallback || r.Finite?
  {
    var frac := LeadingFraction(t);
    if frac.Some? && frac.value.1 != 0.0 then Finite(frac.value.0 / frac.value.1)
    else match SignedDecimalAt(t, 0, false)
      case Some(n) => Finite(n.0)
      case None =>
        var parsed := StringToNumber(t);
        if parsed.Finite? then parsed else fallback
  }

  /** The first of `keys` that `props` holds as an own property, with its index. */
  function FirstOwn(props: seq<Prop>, keys: seq<string>): (r: Option<nat>)
    ensures r.Some? ==> r.value < |props| && props[r.value].key in keys
    ensures r.None? ==> forall k :: k in keys ==> FindKey(props, k).None?
    ensures keys != [] && FindKey(props, keys[0]).Some? ==> r == FindKey(props, keys[0])
  {
    if keys == [] then None
    else match FindKey(props, keys[0])
      case Some(i) => Some(i)
      case None => FirstOwn(props, keys[1..])
  }

  /**
   * `safeNumber(value, fallback)`: null and undefined give the fallback; an
   * object is unwrapped through its own `value`, `number` or `distance`
   * field, in that order; a number is kept when finite; text is read by
   * `TextNumber` once trimmed; anything else goes through `Number`.
   */
  function SafeNumber(v: Value, fallback: Num): (r: Num)
    ensures r == fallback || r.Finite?
    ensures Nullish(v) ==> r == fallback
    ensures v.Number? ==> r == if v.n.Finite? then v.n else fallback
    ensures v.Str? && Trim(v.s) == [] ==> r == fallback
    decreases v
  {
    match v
    case Undefined => fallback
    case Null => fallback
    case Number(n) => if n.Finite? then n else fallback
    case Str(s) => if Trim(s) == [] then fallback else TextNumber(Trim(s), fallback)
    case Obj(props) =>
      var k := FirstOwn(props, ["value", "number", "distance"]);
      if k.Some? then SafeNumber(props[k.value].val, fallback) else fallback
    case Bool(_) => var parsed := ToNumber(v); if parsed.Finite? then parsed else fallback
    case Arr(_) => var parsed := ToNumber(v); if parsed.Finite? then parsed else fallback
  }

  /** An object is read through its `value` field first. */
  lemma SafeNumberUnwraps(x: Value, rest: seq<Prop>, fallback: Num)
    ensures SafeNumber(Obj([Prop("value", x)] + rest), fallback) == SafeNumber(x, fallback)
  {
    var props := [Prop("value", x)] + rest;
    assert FindKey(props, "value") == Some(0);
    assert FirstOwn(props, ["value", "number", "distance"]) == Some(0);
  }

  /** Text with no space at either end is its own trim. */
  lemma TrimTight(t: string)
    requires t != [] && !IsSpace(t[0]) && !IsSpace(t[|t| - 1])
    ensures Trim(t) == t
  {
    assert TrimStart(t) == t;
    assert TrimEnd(t) == t;
  }

  /** A digit run from `i` to `j` not followed by "." or a digit is read as its value. */
  lemma DigitRunAt(t: string, i: nat, j: nat)
    requires i < j <= |t|
    requires forall k :: i <= k < j ==> IsDigit(t[k])
    requires j < |t| ==> t[j] != '.' && !IsDigit(t[j])
    ensures SignedDecimalAt(t, i, false) == Some((DigitsValue(t[i..j]) as real, j))
  {
    assert SkipWhileFrom(t, i, IsDigit) == j;
  }

  /** The digits of `n` written at `i` and not followed by "." or a digit are read as `n`. */
  lemma NatAt(t: string, i: nat, n: nat)
    requires i + |NatToString(n)| <= |t| && t[i..i + |NatToString(n)|] == NatToString(n)
    requires var j := i + |NatToString(n)|; j < |t| ==> t[j] != '.' && !IsDigit(t[j])
    ensures SignedDecimalAt(t, i, false) == Some((n as real, i + |NatToString(n)|))
  {
    var x := NatToString(n);
    var j := i + |x|;
    assert forall k :: i <= k < j ==> t[k] == x[k - i];
    DigitRunAt(t, i, j);
    DigitsValueOfNatToString(n);
  }

  /** The text of a whole number reads back as that number. */
  lemma SafeNumberOfNat(n: nat, fallback: Num)
    ensures SafeNumber(Str(NatToString(n)), fallback) == Finite(n as real)
  {
    var t := NatToString(n);
    TrimTight(t);
    assert t[0..|t|] == t;
    NatAt(t, 0, n);
    assert SkipWhileFrom(t, |t|, IsSpace) == |t|;
    assert LeadingFraction(t).None?;
  }

  /** A numerator, "/" and a denominator make a leading fraction. */
  lemma FractionAt(t: string, i: nat, a: real, b: real, e: nat)
    requires SignedDecimalAt(t, 0, false) == Some((a, i))
    requires i < |t| && t[i] == '/'
    requires SignedDecimalAt(t, i + 1, false) == Some((b, e))
    ensures LeadingFraction(t) == Some((a, b))
  {
    assert SkipWhileFrom(t, i, IsSpace) == i;
    assert SkipWhileFrom(t, i + 1, IsSpace) == i + 1;
  }

  /** The digits of `n` between any text and text that is not "." or a digit are read as `n`. */
  lemma NatIn(t: string, p: string, n: nat, q: string)
    requires t == p + NatToString(n) + q
    requires q != [] ==> q[0] != '.' && !IsDigit(q[0])
    ensures SignedDecimalAt(t, |p|, false) == Some((n as real, |p| + |NatToString(n)|))
  {
    assert t[|p|..|p| + |NatToString(n)|] == NatToString(n);
    NatAt(t, |p|, n);
  }

  /** "a/b" is read as the fraction's two parts. */
  lemma FractionParts(a: nat, b: nat)
    ensures var t := NatToString(a) + "/" + NatToString(b);
      LeadingFraction(t) == Some((a as real, b as real))
  {
    var x, y := NatToString(a), NatToString(b);
    var t := x + "/" + y;
    NumeratorAt(a, y);
    DenominatorAt(x, b);
    SlashJoin(x, y);
    FractionAt(t, |x|, a as real, b as real, |t|);
  }

  lemma NumeratorAt(a: nat, y: string)
    ensures var x := NatToString(a);
      SignedDecimalAt(x + "/" + y, 0, false) == Some((a as real, |x|))
  {
    var x := NatToString(a);
    SlashJoin(x, y);
    NatIn(x + "/" + y, [], a, "/" + y);
  }

  lemma DenominatorAt(x: string, b: nat)
    ensures var t := x + "/" + NatToString(b);
      SignedDecimalAt(t, |x| + 1, false) == Some((b as real, |t|))
  {
    var y := NatToString(b);
    SlashJoin(x, y);
    NatIn(x + "/" + y, x + "/", b, []);
  }

  lemma SlashJoin(x: string, y: string)
    ensures [] + x + ("/" + y) == x + "/" + y
    ensures x + "/" + y + [] == x + "/" + y
    ensures |x + "/"| == |x| + 1 && (x + "/" + y)[|x|] == '/'
  {
  }

  /** `safeNumber` on text that is not blank: what the text reads as. */
  lemma SafeNumberOfText(s: string, fallback: Num)
    requires Trim(s) != []
    ensures SafeNumber(Str(s), fallback) == TextNumber(Trim(s), fallback)
  {
  }

  /** "a/b" with b non-zero reads as the quotient. */
  lemma SafeNumberOfFraction(a: nat, b: nat, fallback: Num)
    requires b > 0
    ensures SafeNumber(Str(NatToString(a) + "/" + NatToString(b)), fallback) == Finite(a as real / b as real)
  {
    var x, y := NatToString(a), NatToString(b);
    var t := x + "/" + y;
    assert t[0] == x[0] && t[|t| - 1] == y[|y| - 1];
    TrimTight(t);
    SafeNumberOfText(t, fallback);
    FractionParts(a, b);
  }

  /** JavaScript truthiness. */
  predicate Truthy(v: Value)
  {
    match v
    case Undefined => false
    case Null => false
    case Bool(b) => b
    case Number(n) => n.Infinite? || (n.Finite? && n.q != 0.0)
    case Str(s) => s != []
    case _ => true
  }

  /**
   * `safeString(value, fallback)`: null and undefined give the fallback; an
   * object (arrays included) is unwrapped through `value`, `name`, `text` or
   * `desc`, and gives the fallback when it has none of them; anything else
   * is `String(value)`, with empty text giving the fallback.
   */
  function SafeString(v: Value, fallback: string): (r: string)
    ensures r == fallback || r != []
    ensures Nullish(v) || v.Arr? ==> r == fallback
    ensures v.Str? ==> r == if v.s == [] then fallback else v.s
    decreases v
  {
    match v
    case Undefined => fallback
    case Null => fallback
    case Arr(_) => fallback
    case Obj(props) =>
      var k := FirstOwn(props, ["value", "name", "text", "desc"]);
      if k.Some? then SafeString(props[k.value].val, fallback) else fallback
    case Bool(_) => var s := ToString(v); if s == [] then fallback else s
    case Number(_) => var s := ToString(v); if s == [] then fallback else s
    case Str(s) => if s == [] then fallback else s
  }

  // ----- ability modifiers -----

  /** `Math.floor((safeNumber(score, 10) - 10) / 2)`: the modifier of a score. */
  function AbilityModifier(score: Value): (m: int)
    ensures var q := SafeNumber(score, Finite(10.0)).q;
      2.0 * m as real <= q - 10.0 < 2.0 * m as real + 2.0
  {
    ((SafeNumber(score, Finite(10.0)).q - 10.0) / 2.0).Floor
  }

  /** An integer as a signed modifier: "+" before a non-negative value. */
  function SignedText(m: int): (r: string)
    ensures m >= 0 ==> r == "+" + NatToString(m)
    ensures m < 0 ==> r == "-" + NatToString(-m)
  {
    (if m >= 0 then "+" else "") + IntToString(m)
  }

  /** `normalizeAbilityModifier`: the modifier of a score with its sign. */
  function NormalizeAbilityModifier(score: Value): (r: string)
    ensures r == SignedText(AbilityModifier(score))
    ensures r[0] == '+' <==> AbilityModifier(score) >= 0
  {
    SignedText(AbilityModifier(score))
  }

  /** On whole scores the renderer's modifier is the importer's `getAbilityMod`; a score of 20 shows "+5". */
  lemma ModifierAgreesWithImporter(s: int)
    ensures AbilityModifier(Number(Finite(s as real))) == SbiUtils.AbilityMod(s)
    ensures NormalizeAbilityModifier(Number(Finite(20.0))) == "+5"
  {
    var m := SbiUtils.AbilityMod(s);
    var q := AbilityModifier(Number(Finite(s as real)));
    assert 2 * q <= s - 10 < 2 * q + 2 by {
      assert 2.0 * q as real <= s as real - 10.0 < 2.0 * q as real + 2.0;
    }
    assert AbilityModifier(Number(Finite(20.0))) == 5;
  }

  // ----- challenge -----

  /** `proficiencyByChallenge`: 2 up to CR 4, one more every four CR up to 28, 9 above; a negative CR gives 3. */
  function ProficiencyByChallenge(challenge: Value): (r: int)
    ensures var cr := SafeNumber(challenge, Finite(0.0)).q;
      && 2 <= r <= 9
      && (cr < 0.0 ==> r == 3)
      && (0.0 <= cr <= 4.0 ==> r == 2)
      && (4.0 < cr <= 28.0 ==> 4.0 * (r - 2) as real < cr <= 4.0 * (r - 1) as real)
      && (cr > 28.0 ==> r == 9)
  {
    var cr := SafeNumber(challenge, Finite(0.0)).q;
    if cr >= 0.0 && cr <= 4.0 then 2
    else if cr <= 8.0 then 3
    else if cr <= 12.0 then 4
    else if cr <= 16.0 then 5
    else if cr <= 20.0 then 6
    else if cr <= 24.0 then 7
    else if cr <= 28.0 then 8
    else 9
  }

  /** From CR 0 to 32 the bonus by challenge is the importer's bonus by level. */
  lemma ProficiencyAgreesWithLevel(c: int)
    requires 0 <= c <= 32
    ensures ProficiencyByChallenge(Number(Finite(c as real))) == SbiUtils.ProficiencyBonus(c)
  {
    var r := ProficiencyByChallenge(Number(Finite(c as real)));
    var p := SbiUtils.ProficiencyBonus(c);
    if c <= 4 {
      assert r == 2 && p == 2;
    } else if c <= 28 {
      assert 4 * (r - 2) < c <= 4 * (r - 1) by {
        assert 4.0 * (r - 2) as real < c as real <= 4.0 * (r - 1) as real;
      }
      assert 4 * (p - 2) <= c - 1 < 4 * (p - 1);
    } else {
      assert 4 * (p - 2) <= c - 1 < 4 * (p - 1);
    }
  }

  /** Number of entries in the experience table. */
  const XpCount: nat := 34

  /**
   * Rating of entry `i` of the experience table: 0, 1/8, 1/4, 1/2 and then
   * every whole rating from 1 to 30.
   */
  function XpRating(i: nat): (r: real)
    requires i < XpCount
    ensures 0.0 <= r <= 30.0
  {
    if i == 0 then 0.0
    else if i == 1 then 0.125
    else if i == 2 then 0.25
    else if i == 3 then 0.5
    else (i - 3) as real
  }

  /** Experience of entry `i` of the experience table. */
  function XpValue(i: nat): (r: nat)
    requires i < XpCount
  {
    match i
    case 0 => 10
    case 1 => 25
    case 2 => 50
    case 3 => 100
    case 4 => 200
    case 5 => 450
    case 6 => 700
    case 7 => 1100
    case 8 => 1800
    case 9 => 2300
    case 10 => 2900
    case 11 => 3900
    case 12 => 5000
    case 13 => 5900
    case 14 => 7200
    case 15 => 8400
    case 16 => 10000
    case 17 => 11500
    case 18 => 13000
    case 19 => 15000
    case 20 => 18000
    case 21 => 20000
    case 22 => 22000
    case 23 => 25000
    case 24 => 33000
    case 25 => 41000
    case 26 => 50000
    case 27 => 62000
    case 28 => 75000
    case 29 => 90000
    case 30 => 105000
    case 31 => 120000
    case 32 => 135000
    case _ => 155000
  }

  /** The table's entry for `cr`, searched from position `k`. */
  function XpFrom(cr: real, k: nat): (r: nat)
    requires k <= XpCount
    decreases XpCount - k
    ensures r == 0 <==> forall j :: k <= j < XpCount ==> XpRating(j) != cr
    ensures r != 0 ==> exists j :: k <= j < XpCount && XpRating(j) == cr && XpValue(j) == r
  {
    if k == XpCount then 0
    else if XpRating(k) == cr then XpValue(k)
    else XpFrom(cr, k + 1)
  }

  /** `challengeXpForValue`: the table's experience for the challenge, 0 for a rating it does not list. */
  function ChallengeXpForValue(challenge: Value): (r: nat)
    ensures var cr := SafeNumber(challenge, Finite(0.0)).q;
      (r == 0 <==> forall j :: 0 <= j < XpCount ==> XpRating(j) != cr)
      && (r != 0 ==> exists j :: 0 <= j < XpCount && XpRating(j) == cr && XpValue(j) == r)
  {
    XpFrom(SafeNumber(challenge, Finite(0.0)).q, 0)
  }

  /** Ratings grow along the table. */
  lemma XpRatingIncreasing(j: nat, k: nat)
    requires j < k < XpCount
    ensures XpRating(j) < XpRating(k)
  {
  }

  /** Neighbouring entries grow in experience. */
  lemma XpAdjacent(i: nat)
    requires i + 1 < XpCount
    ensures XpValue(i) < XpValue(i + 1)
  {
  }

  /** The table grows with the rating: a higher listed challenge is worth more experience. */
  lemma {:induction false} XpTableIncreasing(j: nat, k: nat)
    requires j < k < XpCount
    ensures XpRating(j) < XpRating(k) && XpValue(j) < XpValue(k)
    decreases k - j
  {
    XpRatingIncreasing(j, k);
    XpAdjacent(k - 1);
    if k > j + 1 {
      XpTableIncreasing(j, k - 1);
    }
  }

  /** A rating the table lists is worth exactly that entry's experience. */
  lemma XpOfListed(j: nat)
    requires j < XpCount
    ensures ChallengeXpForValue(Number(Finite(XpRating(j)))) == XpValue(j)
  {
    var r := ChallengeXpForValue(Number(Finite(XpRating(j))));
    assert r != 0;
    var i :| 0 <= i < XpCount && XpRating(i) == XpRating(j) && XpValue(i) == r;
    if i < j {
      XpRatingIncreasing(i, j);
    } else if j < i {
      XpRatingIncreasing(j, i);
    }
  }

  /** Challenge 11 is worth 7200 XP, and a rating between two listed ones nothing. */
  lemma XpExamples()
    ensures ChallengeXpForValue(Number(Finite(11.0))) == 7200
    ensures ChallengeXpForValue(Number(Finite(0.75))) == 0
  {
    assert XpRating(14) == 11.0 && XpValue(14) == 7200;
    XpOfListed(14);
    XpBetween(3, 0.75);
  }

  /** A rating strictly between two neighbouring entries is not listed. */
  lemma XpBetween(i: nat, cr: real)
    requires i + 1 < XpCount && XpRating(i) < cr < XpRating(i + 1)
    ensures ChallengeXpForValue(Number(Finite(cr))) == 0
  {
    forall j | 0 <= j < XpCount ensures XpRating(j) != cr {
      if j < i {
        XpRatingIncreasing(j, i);
      } else if j > i + 1 {
        XpRatingIncreasing(i + 1, j);
      }
    }
  }

  /**
   * `normalizeChallengeText`: "0" for null and undefined; text holding "/"
   * as it stands, trimmed; otherwise the number read by `safeNumber`, with
   * 1/8, 1/4 and 1/2 written as fractions.
   */
  function NormalizeChallengeText(v: Value): (r: string)
    ensures Nullish(v) ==> r == "0"
    ensures v.Str? && '/' in v.s ==> r == Trim(v.s)
    ensures !Nullish(v) && !(v.Str? && '/' in v.s) ==>
      var q := SafeNumber(v, Finite(0.0)).q;
      r == if q == 0.125 then "1/8" else if q == 0.25 then "1/4" else if q == 0.5 then "1/2" else NumberText(q)
  {
    if Nullish(v) then "0"
    else if v.Str? && '/' in v.s then Trim(v.s)
    else
      var q := SafeNumber(v, Finite(0.0)).q;
      if q == 0.125 then "1/8"
      else if q == 0.25 then "1/4"
      else if q == 0.5 then "1/2"
      else NumberText(q)
  }

  /** The challenge text of a whole rating reads back as the rating. */
  lemma ChallengeTextOfWhole(n: nat, fallback: Num)
    ensures SafeNumber(Str(NormalizeChallengeText(Number(Finite(n as real)))), fallback) == Finite(n as real)
  {
    assert IsInteger(n as real) && (n as real).Floor == n;
    assert NormalizeChallengeText(Number(Finite(n as real))) == NatToString(n);
    SafeNumberOfNat(n, fallback);
  }

  /** The three fractional ratings are written as "1/" and a denominator, which reads back as the rating. */
  lemma ChallengeTextOfFraction(q: real, fallback: Num)
    requires q == 0.5 || q == 0.25 || q == 0.125
    ensures NormalizeChallengeText(Number(Finite(q)))[..2] == "1/"
    ensures SafeNumber(Str(NormalizeChallengeText(Number(Finite(q)))), fallback) == Finite(q)
  {
    var text := NormalizeChallengeText(Number(Finite(q)));
    assert NatToString(1) == "1";
    var d: nat := if q == 0.5 then 2 else if q == 0.25 then 4 else 8;
    assert text == NatToString(1) + "/" + NatToString(d) by {
      if q == 0.5 {
        assert text == "1/2" && NatToString(2) == "2";
      } else if q == 0.25 {
        assert text == "1/4" && NatToString(4) == "4";
      } else {
        assert text == "1/8" && NatToString(8) == "8";
      }
    }
    assert 1 as real / d as real == q;
    SafeNumberOfFraction(1, d, fallback);
  }

  /**
   * A number cut toward zero with "+" before a non-negative one; a number
   * between -1 and 0 shows as "0", unsigned.
   */
  function SignedTrunc(q: real): (r: string)
    ensures q >= 0.0 || IsInteger(q) ==> r == SignedText(q.Floor)
    ensures -1.0 < q < 0.0 ==> r == "0"
    ensures q <= -1.0 ==> r != [] && r[0] == '-'
  {
    TruncCases(q);
    (if q >= 0.0 then "+" else "") + IntToString(Trunc(q))
  }

  /** `formatSignedInteger`: `SignedTrunc` of the value read by `safeNumber`, 0 when unreadable. */
  function FormatSignedInteger(v: Value): (r: string)
    ensures r == SignedTrunc(SafeNumber(v, Finite(0.0)).q)
    ensures Nullish(v) ==> r == "+0"
  {
    SignedTrunc(SafeNumber(v, Finite(0.0)).q)
  }

  /** `Math.trunc` is the floor for non-negative and whole numbers, 0 just below 0 and negative from -1 down. */
  lemma TruncCases(q: real)
    ensures q >= 0.0 || IsInteger(q) ==> Trunc(q) == q.Floor
    ensures -1.0 < q < 0.0 ==> Trunc(q) == 0
    ensures q <= -1.0 ==> Trunc(q) < 0
  {
    TruncIntegral(q);
  }

  // ----- dice -----

  /** The first position at or after `i` holding a digit. */
  function FirstDigitFrom(t: string, i: nat): (r: Option<nat>)
    requires i <= |t|
    decreases |t| - i
    ensures r.Some? ==> i <= r.value < |t| && IsDigit(t[r.value])
    ensures r.Some? ==> forall k :: i <= k < r.value ==> !IsDigit(t[k])
    ensures r.None? ==> forall k :: i <= k < |t| ==> !IsDigit(t[k])
  {
    if i == |t| then None else if IsDigit(t[i]) then Some(i) else FirstDigitFrom(t, i + 1)
  }

  /**
   * `safeDieSides`: the first run of digits in the value's text (`/\d+/`), as
   * a number; `None` stands for NaN, when the text is empty or has no digit.
   */
  function DieSides(die: Value): (r: Option<nat>)
    ensures var t := SafeString(die, "");
      r.None? <==> forall k :: 0 <= k < |t| ==> !IsDigit(t[k])
  {
    var t := SafeString(die, "");
    match FirstDigitFrom(t, 0)
    case None => None
    case Some(i) =>
      var j := SkipWhileFrom(t, i, IsDigit);
      var run := t[i..j];
      assert forall k :: 0 <= k < |run| ==> IsDigit(run[k]);
      Some(DigitsValue(run))
  }

  /** The die of a "d8"-style text is its number. */
  lemma DieSidesOfText(n: nat)
    ensures DieSides(Str("d" + NatToString(n))) == Some(n)
  {
    var t := "d" + NatToString(n);
    assert FirstDigitFrom(t, 0) == FirstDigitFrom(t, 1) == Some(1);
    assert SkipWhileFrom(t, 1, IsDigit) == |t|;
    assert t[1..|t|] == NatToString(n);
    DigitsValueOfNatToString(n);
  }

  /** The bonus part of a formula: nothing for 0, " + B" when non-negative, " - |B|" otherwise, B cut toward zero. */
  function BonusSuffix(b: real): (r: string)
    ensures IsInteger(b) && b > 0.0 ==> r == " + " + NatToString(b.Floor)
    ensures IsInteger(b) && b < 0.0 ==> r == " - " + NatToString(-b.Floor)
    ensures 0.0 < b < 1.0 ==> r == " + 0"
  {
    TruncCases(b);
    var t := Trunc(b);
    if b == 0.0 then ""
    else if b >= 0.0 then " + " + IntToString(t)
    else " - " + IntToString(if t < 0 then -t else t)
  }

  /**
   * `formatDiceFormula(count, die, bonus)`: "NdS" and the bonus, with N the
   * count cut toward zero; empty unless the count is at least 1 and the die
   * has a positive number of sides.
   */
  function FormatDiceFormula(count: Value, die: Value, bonus: Value): (r: string)
    ensures var c := SafeNumber(count, Finite(0.0)).q;
      r == [] <==> !(c >= 1.0 && DieSides(die).Some? && DieSides(die).value > 0)
    ensures var c := SafeNumber(count, Finite(0.0)).q;
      var b := SafeNumber(bonus, Finite(0.0)).q;
      r != [] ==> r == NatToString(c.Floor) + "d" + NatToString(DieSides(die).value) + BonusSuffix(b)
  {
    var c := SafeNumber(count, Finite(0.0)).q;
    var b := SafeNumber(bonus, Finite(0.0)).q;
    var d := DieSides(die);
    if d.None? || c <= 0.0 || d.value <= 0 then ""
    else
      var n := Trunc(c);
      var fixed := if n == 0 then 0.0 else b;
      if n <= 0 then ""
      else NatToString(n) + "d" + NatToString(d.value) + BonusSuffix(fixed)
  }

  /** 1 + 2 + … + n. */
  function SumTo(n: nat): nat
  {
    if n == 0 then 0 else n + SumTo(n - 1)
  }

  /** The faces of an n-sided die sum to n(n+1)/2. */
  lemma {:induction false} SumToClosed(n: nat)
    ensures 2 * SumTo(n) == n * (n + 1)
  {
    if n > 0 {
      SumToClosed(n - 1);
    }
  }

  /**
   * `damageComponentAverage(count, die, bonus)`: the mean of the count (cut
   * toward zero) of dice plus the bonus; NaN unless there is at least one
   * die with a positive number of sides.
   */
  function DamageComponentAverage(count: Value, die: Value, bonus: Value): (r: Num)
    ensures r.NaN? || r.Finite?
    ensures var n := Trunc(SafeNumber(count, Finite(0.0)).q);
      var b := SafeNumber(bonus, Finite(0.0)).q;
      r.Finite? <==> n > 0 && DieSides(die).Some? && DieSides(die).value > 0
    ensures r.Finite? ==> r.q == DiceMean(Trunc(SafeNumber(count, Finite(0.0)).q), DieSides(die).value, SafeNumber(bonus, Finite(0.0)).q)
  {
    var n := Trunc(SafeNumber(count, Finite(0.0)).q);
    var b := SafeNumber(bonus, Finite(0.0)).q;
    var d := DieSides(die);
    if d.None? || n <= 0 || d.value <= 0 then NaN
    else Finite(DiceMean(n, d.value, b))
  }

  /** `count * (die + 1) / 2 + bonus`. */
  function DiceMean(n: int, d: nat, b: real): real
  {
    n as real * (d + 1) as real / 2.0 + b
  }

  /** The mean face of an n-sided die is (n + 1) / 2. */
  lemma MeanFace(d: nat)
    requires d > 0
    ensures SumTo(d) as real / d as real == (d + 1) as real / 2.0
  {
    SumToClosed(d);
    assert SumTo(d) as real == d as real * ((d + 1) as real / 2.0);
  }

  /** The average is the count times the mean face of the die, plus the bonus. */
  lemma AverageIsMeanRoll(n: nat, d: nat, b: real)
    requires d > 0
    ensures DiceMean(n, d, b) == n as real * (SumTo(d) as real / d as real) + b
  {
    MeanFace(d);
    assert n as real * (d + 1) as real / 2.0 == n as real * ((d + 1) as real / 2.0);
  }

  /** A formula is written exactly when its average is a number. */
  lemma FormulaIffAverage(count: Value, die: Value, bonus: Value)
    ensures FormatDiceFormula(count, die, bonus) == [] <==> !DamageComponentAverage(count, die, bonus).Finite?
  {
    var c := SafeNumber(count, Finite(0.0)).q;
    TruncCases(c);
    assert Trunc(c) > 0 <==> c >= 1.0;
  }

  /** `toFixed(1)` read back: the value rounded to tenths, halves away from zero. */
  function RoundTenths(q: real): (r: real)
    ensures -0.05 <= r - q <= 0.05
  {
    if q >= 0.0 then (q * 10.0 + 0.5).Floor as real / 10.0
    else -(((-q) * 10.0 + 0.5).Floor as real / 10.0)
  }

  /** `formatDamageAverage`: empty for NaN, otherwise the average rounded to tenths. */
  function FormatDamageAverage(average: Num): (r: string)
    ensures !average.Finite? ==> r == []
    ensures average.Finite? ==> r == NumberText(RoundTenths(average.q))
  {
    if !average.Finite? then []
    else
      var rounded := RoundTenths(average.q);
      TruncCases(rounded);
      if IsInteger(rounded) then IntToString(Trunc(rounded)) else NumberText(rounded)
  }

  /** Whole and half averages print exactly: "N" and "N.5". */
  lemma DamageAverageText(n: nat)
    ensures FormatDamageAverage(Finite(n as real)) == NatToString(n)
    ensures FormatDamageAverage(Finite(n as real + 0.5)) == NatToString(n) + ".5"
  {
    WholeAverageText(n);
    HalfAverageText(n);
  }

  lemma WholeAverageText(n: nat)
    ensures FormatDamageAverage(Finite(n as real)) == NatToString(n)
  {
    RoundHalves(2 * n);
    assert (2 * n) as real / 2.0 == n as real;
    ExactFormat(n as real);
    WholeText(n);
  }

  lemma HalfAverageText(n: nat)
    ensures FormatDamageAverage(Finite(n as real + 0.5)) == NatToString(n) + ".5"
  {
    RoundHalves(2 * n + 1);
    assert (2 * n + 1) as real / 2.0 == n as real + 0.5;
    ExactFormat(n as real + 0.5);
    HalfText(n);
  }

  /** An average already in tenths prints as its own number text. */
  lemma ExactFormat(q: real)
    requires RoundTenths(q) == q
    ensures FormatDamageAverage(Finite(q)) == NumberText(q)
  {
  }

  /**
   * A count of halves prints exactly; with `DiceAverageOfNats` this is why
   * whole dice and a whole bonus always print their true mean.
   */
  lemma HalvesFormat(k: int, q: real)
    requires q == k as real / 2.0
    ensures FormatDamageAverage(Finite(q)) == NumberText(q)
  {
    RoundHalves(k);
    ExactFormat(q);
  }

  /** The mean of whole dice and a whole bonus is a count of halves. */
  lemma DiceAverageOfNats(n: nat, d: nat, b: int)
    requires n > 0 && d > 0
    ensures DamageComponentAverage(Number(Finite(n as real)), Number(Finite(d as real)), Number(Finite(b as real)))
      == Finite((n * (d + 1) + 2 * b) as real / 2.0)
  {
    DieSidesOfNat(d);
    assert IsInteger(n as real) && Trunc(n as real) == n;
    assert SafeNumber(Number(Finite(b as real)), Finite(0.0)).q == b as real;
  }

  /** A number's own text is read back as its die: `DieSides(6)` is 6. */
  lemma DieSidesOfNat(d: nat)
    ensures DieSides(Number(Finite(d as real))) == Some(d)
  {
    assert IsInteger(d as real) && (d as real).Floor == d;
    var t := NatToString(d);
    assert SafeString(Number(Finite(d as real)), "") == t;
    assert FirstDigitFrom(t, 0) == Some(0);
    assert SkipWhileFrom(t, 0, IsDigit) == |t|;
    assert t[0..|t|] == t;
    DigitsValueOfNatToString(d);
  }

  /** Rounding to tenths keeps every multiple of one half. */
  lemma RoundHalves(k: int)
    ensures RoundTenths(k as real / 2.0) == k as real / 2.0
  {
    var q := k as real / 2.0;
    if q >= 0.0 {
      assert (q * 10.0 + 0.5).Floor == 5 * k;
    } else {
      assert ((-q) * 10.0 + 0.5).Floor == -5 * k;
    }
  }
}
