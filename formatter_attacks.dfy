// The attack lines `normalizeOpen5eAction` writes for an Open5E action that
// has no description but a list of attacks (scripts/statblock-formatter.js):
// "Melee Weapon Attack: +5 to hit, reach 5 ft., one target. Hit: 7 (1d8 + 3)
// slashing damage." The fields of one attack are read first (`ReadAttack`),
// then the line is written from them.
module FormatterAttacks {
  import opened Text
  import opened Js
  import opened Formatter

  // ----- reading an attack -----

  /**
   * `safeString(value, fallback)` with a fallback that need not be text: the
   * value's text when it has some, the fallback itself otherwise.
   */
  function SafeStringOr(v: Value, fallback: Value): (r: Value)
    ensures r == fallback || (r.Str? && r.s != [])
  {
    var s := SafeString(v, "");
    if s != [] then Str(s) else fallback
  }

  /** With a text fallback it is `safeString` itself. */
  lemma {:induction false} SafeStringOrAgrees(v: Value, fallback: string)
    ensures ToString(SafeStringOr(v, Str(fallback))) == SafeString(v, fallback)
    decreases v
  {
    match v
    case Obj(props) =>
      var k := FirstOwn(props, ["value", "name", "text", "desc"]);
      if k.Some? {
        SafeStringOrAgrees(props[k.value].val, fallback);
      }
    case _ =>
  }

  /** A damage component: its dice formula and its average (NaN when there is no formula). */
  datatype Damage = Damage(formula: string, avg: Num)

  /** `formatDiceFormula` and `damageComponentAverage` of the count, die and bonus read from the attack. */
  function DamageOf(count: Value, die: Value, bonus: Value): (r: Damage)
    ensures r.formula == [] <==> !r.avg.Finite?
  {
    var n := SafeNumber(count, Finite(0.0));
    var d := SafeString(die, "");
    var b := SafeNumber(bonus, Finite(0.0));
    FormulaIffAverage(Number(n), Str(d), Number(b));
    Damage(FormatDiceFormula(Number(n), Str(d), Number(b)), DamageComponentAverage(Number(n), Str(d), Number(b)))
  }

  /** The fields of one attack the line is written from; a missing number is NaN. */
  datatype Attack = Attack(
    spell: bool, toHit: Num, reach: Num, range: Num, longRange: Num, unitSuffix: string,
    primary: Damage, extra: Damage, primaryType: Value, extraType: Value)

  function ReadAttack(attack: Value): (r: Attack)
    ensures r.primary.formula == [] <==> !r.primary.avg.Finite?
    ensures r.extra.formula == [] <==> !r.extra.avg.Finite?
  {
    var attackType := Lower(SafeString(Get(attack, "attack_type"), ""));
    var unit := SafeString(Get(attack, "distance_unit"), "feet");
    Attack(
      Contains(attackType, "spell"),
      SafeNumber(Get(attack, "to_hit_mod"), NaN),
      SafeNumber(Get(attack, "reach"), NaN),
      SafeNumber(Get(attack, "range"), NaN),
      SafeNumber(Get(attack, "long_range"), NaN),
      if unit == "feet" || unit == "ft" then "ft." else unit,
      DamageOf(Get(attack, "damage_die_count"), Get(attack, "damage_die_type"), Get(attack, "damage_bonus")),
      DamageOf(Get(attack, "extra_damage_die_count"), Get(attack, "extra_damage_die_type"), Get(attack, "extra_damage_bonus")),
      SafeStringOr(Get(Get(attack, "damage_type"), "name"), Get(attack, "damage_type")),
      SafeStringOr(Get(Get(attack, "extra_damage_type"), "name"), Get(attack, "extra_damage_type")))
  }

  // ----- the core of the line -----

  predicate Positive(n: Num) { n.Finite? && n.q > 0.0 }

  /** A ranged attack has a range and no reach. */
  predicate IsRanged(a: Attack) { Positive(a.range) && !Positive(a.reach) }

  function AttackLabel(a: Attack): (r: string)
    ensures r != [] && (r[0] == 'M' || r[0] == 'R')
    ensures r[0] == 'R' <==> IsRanged(a)
  {
    (if IsRanged(a) then "Ranged" else "Melee") + " " + (if a.spell then "Spell" else "Weapon") + " Attack"
  }

  /** "reach R ft." when there is a reach, "range R/L ft." when there is a range, nothing otherwise. */
  function DistanceText(a: Attack): (r: string)
    ensures r == [] <==> !Positive(a.reach) && !Positive(a.range)
    ensures Positive(a.reach) ==> StartsWith(r, "reach ")
    ensures !Positive(a.reach) && Positive(a.range) ==> StartsWith(r, "range ")
  {
    if Positive(a.reach) then
      "reach " + NumberText(a.reach.q) + " " + a.unitSuffix
    else if Positive(a.range) then
      "range " + NumberText(a.range.q) + (if Positive(a.longRange) then "/" + NumberText(a.longRange.q) else "") + " " + a.unitSuffix
    else ""
  }

  /** The parts after the label: the hit bonus when there is one, then the distance when there is one. */
  function TailParts(a: Attack): (r: seq<string>)
    ensures |r| == (if a.toHit.Finite? then 1 else 0) + (if DistanceText(a) != [] then 1 else 0)
    ensures a.toHit.Finite? ==> r[0] == FormatSignedInteger(Number(a.toHit)) + " to hit"
    ensures DistanceText(a) != [] ==> r[|r| - 1] == DistanceText(a)
  {
    var toHit := if a.toHit.Finite? then [FormatSignedInteger(Number(a.toHit)) + " to hit"] else [];
    var distance := DistanceText(a);
    toHit + (if distance != [] then [distance] else [])
  }

  /** The label, ": " and the parts joined by ", " when there are any, then ", one target." after a hit bonus, "." otherwise. */
  function CoreText(a: Attack): (r: string)
    ensures StartsWith(r, AttackLabel(a)) && r[|r| - 1] == '.'
  {
    var head := AttackLabel(a);
    var tail := Join(TailParts(a), ", ");
    var target := if a.toHit.Finite? then ", one target." else ".";
    var rest := (if tail != [] then ": " + tail else "") + target;
    StartsWithAppend(head, rest);
    assert rest[|rest| - 1] == '.';
    head + rest
  }

  /** `coreLine`: the core text, trimmed, which leaves it as it is. */
  function CoreLine(a: Attack): (r: string)
    ensures r == CoreText(a)
  {
    var t := CoreText(a);
    Formatter.TrimTight(t);
    Trim(t)
  }

  // ----- the damage -----

  /** A component of the damage sentence: its average, formula and damage type. */
  datatype Component = Component(avg: Num, formula: string, damageType: Value)

  /** `value || fallback`. */
  function Or(v: Value, fallback: Value): Value
  {
    if Truthy(v) then v else fallback
  }

  /**
   * The components with a formula: the primary damage, typed by its own type
   * or else the extra damage's, then the extra damage, typed only when the
   * primary damage has a type; "damage" when untyped.
   */
  function Components(a: Attack): (r: seq<Component>)
    ensures |r| <= 2
    ensures r == [] <==> a.primary.formula == [] && a.extra.formula == []
    ensures forall k :: 0 <= k < |r| ==> r[k].formula != [] && Truthy(r[k].damageType)
    ensures a.primary.formula != [] ==> r[0].formula == a.primary.formula && r[0].avg == a.primary.avg
    ensures a.primary.formula == [] && a.extra.formula != [] ==> r[0].formula == a.extra.formula && r[0].avg == a.extra.avg
  {
    var resolved := Or(a.primaryType, a.extraType);
    var p := if a.primary.formula != [] then [Component(a.primary.avg, a.primary.formula, Or(resolved, Str("damage")))] else [];
    var e := if a.extra.formula != [] then [Component(a.extra.avg, a.extra.formula, Or(if Truthy(a.primaryType) then a.extraType else Str(""), Str("damage")))] else [];
    p + e
  }

  /** " It deals A (F) T damage as well." for a further component; nothing when its average prints empty. */
  function ExtraSentence(c: Component): (r: string)
  {
    var avg := FormatDamageAverage(c.avg);
    if !Truthy(c.damageType) || avg == [] || c.formula == [] then ""
    else " It deals " + avg + " (" + c.formula + ") " + ToString(c.damageType) + " damage as well."
  }

  /** The further components' sentences, joined with nothing between them. */
  function ExtraSentences(cs: seq<Component>): (r: string)
  {
    if cs == [] then "" else ExtraSentence(cs[0]) + ExtraSentences(cs[1..])
  }

  /** " Hit: A (F) T damage." for the first component, then the sentences of the others. */
  function HitSentence(primary: Component, others: seq<Component>): (r: string)
    ensures StartsWith(r, " Hit: ")
  {
    var r := " Hit: " + FormatDamageAverage(primary.avg) + " (" + primary.formula + ") " + ToString(primary.damageType) + " damage." + ExtraSentences(others);
    assert r[..6] == " Hit: ";
    r
  }

  /** One attack's line: the core line, followed by the hit sentence when there is damage to tell. */
  function AttackLine(a: Attack): (r: string)
    ensures r != []
  {
    var core := CoreLine(a);
    var cs := Components(a);
    if cs == [] then core
    else if !cs[0].avg.Finite? then core
    else core + HitSentence(cs[0], cs[1..])
  }

  /**
   * An attack with no damage formula is its core line; one with a formula
   * (whose average is then a number) adds the hit sentence after it.
   */
  lemma AttackLineShape(a: Attack)
    requires a.primary.formula == [] <==> !a.primary.avg.Finite?
    requires a.extra.formula == [] <==> !a.extra.avg.Finite?
    ensures a.primary.formula == [] && a.extra.formula == [] ==> AttackLine(a) == CoreText(a)
    ensures a.primary.formula != [] || a.extra.formula != [] ==> StartsWith(AttackLine(a), CoreText(a) + " Hit: ")
  {
    var cs := Components(a);
    if cs != [] {
      PrefixAfter(CoreText(a), HitSentence(cs[0], cs[1..]), " Hit: ");
    }
  }

  /** The attack lines of an action, joined by spaces (`attackLines.join(' ')`); empty only without attacks. */
  function AttacksText(attacks: seq<Value>): (r: string)
    ensures r == [] <==> attacks == []
  {
    var lines := seq(|attacks|, k requires 0 <= k < |attacks| => AttackLine(ReadAttack(attacks[k])));
    Join(lines, " ")
  }
}
