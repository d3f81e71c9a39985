// The importer's intermediate creature and the synchronous setters that turn
// its fields into properties of the actor document
// (scripts/sbi-importer/sbiActor.js).
module SbiActor {
  import opened Text
  import opened SbiData
  import SbiUtils

  // ----- the actor document -----

  /** The property paths the setters write, each named after its dotted path in the document. */
  datatype Path =
    | AbilityValue(ability: string)      // system.abilities.<ability>.value
    | AbilityProficient(ability: string) // system.abilities.<ability>.proficient
    | DetailsCr                          // system.details.cr
    | HpValue                            // system.attributes.hp.value
    | HpMax                              // system.attributes.hp.max
    | HpFormula                          // system.attributes.hp.formula
    | InitBonus                          // system.attributes.init.bonus
    | TraitsSize                         // system.traits.size
    | TypeSwarm                          // system.details.type.swarm
    | TypeSubtype                        // system.details.type.subtype
    | TypeValue                          // system.details.type.value
    | TypeCustom                         // system.details.type.custom
    | DetailsAlignment                   // system.details.alignment
    | SenseRange(sense: string)          // system.attributes.senses.<sense>
    | SensesSpecial                      // system.attributes.senses.special
    | SightRange                         // prototypeToken.sight.range
    | SightEnabled                       // prototypeToken.sight.enabled
    | DetectionModes                     // prototypeToken.detectionModes
    | Movement(mode: MoveMode)           // system.attributes.movement.<mode>

  /** The keys of `system.attributes.movement` the importer writes. */
  datatype MoveMode = Walk | Burrow | Climb | Fly | Swim | Hover

  /** One entry of `prototypeToken.detectionModes` (always enabled). */
  datatype DetectionMode = DetectionMode(id: string, range: Value)

  datatype StoreValue = NumV(n: Num) | StrV(s: string) | BoolV(b: bool) | NullV | ModesV(modes: seq<DetectionMode>)

  /** `#dnd5e`: the document `foundry.utils.setProperty` writes into, one entry per leaf path. */
  class Document {
    var store: map<Path, StoreValue>

    constructor()
      ensures store == map[]
    {
      store := map[];
    }
  }

  // ----- JavaScript conversions -----

  /** JavaScript truthiness of a number: neither 0 nor NaN. */
  predicate Truthy(n: Num) { (n.Finite? && n.q != 0.0) || n.Infinite? }

  /** `parseInt` of an extractor's value: an integral number reads back as itself, a fraction is cut toward zero. */
  function IntOfValue(v: Value): (r: Num)
    ensures v.StrVal? ==> r == ParseInt(v.s)
    ensures v.NumVal? && v.n.Finite? && v.n.q.Floor as real == v.n.q ==> r == v.n
    ensures v.NumVal? && !v.n.Finite? ==> r.NaN?
  {
    if v.StrVal? then ParseInt(v.s)
    else if v.n.Finite? then
      TruncIntegral(v.n.q);
      Finite(Trunc(v.n.q) as real)
    else NaN
  }

  /** A value as a template literal shows it. */
  function ValueText(v: Value): (r: string)
    ensures v.StrVal? ==> r == v.s
  {
    match v
    case StrVal(s) => s
    case NumVal(Finite(q)) => if q.Floor as real == q then IntToString(q.Floor) else "NaN"
    case NumVal(NaN) => "NaN"
    case NumVal(Infinite(p)) => if p then "Infinity" else "-Infinity"
  }

  function StoreOf(v: Value): StoreValue
  {
    match v
    case NumVal(n) => NumV(n)
    case StrVal(s) => StrV(s)
  }

  // ----- the intermediate creature -----

  /** `challenge`: the record `parseChallenge` builds, or the bare `{pb}` object `parseProficiencyBonus` makes when there is none. */
  datatype ChallengeRecord = Full(data: ChallengeData) | PbOnly(pb: Num)

  datatype Initiative = Initiative(mod: Num, score: Num)

  /** A damage list: recognised types, bypass tags and free text (`null` once a bypass is found). */
  datatype DamageEntry = DamageEntry(types: seq<string>, bypasses: seq<string>, special: Option<string>)

  datatype ConditionEntry = ConditionEntry(types: seq<string>, special: string)

  /** The three spellcasting records `spellcastingFeature` chooses from. */
  datatype SpellSource = InnateSource | SpellcastingSource | UtilitySource

  /** A feature name counts only when it is a non-empty string. */
  predicate HasFeature(name: Option<string>) { name.Some? && name.value != [] }

  /** `sbiActor`: the fields the extractors fill and the synchronous setters read. */
  class Actor {
    var name: string
    var abilities: seq<NameValueData>
    var armor: Option<ArmorData>
    var gear: seq<NameValueData>
    var initiative: Option<Initiative>
    var challenge: Option<ChallengeRecord>
    var role: Option<string>
    var damages: map<DamageConditionId, DamageEntry>
    var conditionImmunities: Option<ConditionEntry>
    var health: Option<RollData>
    var size: Option<string>
    var alignment: Option<string>
    var race: Option<string>
    var swarmSize: Option<string>
    var creatureType: Option<string>
    var customType: Option<string>
    var savingThrows: seq<string>
    var senses: seq<NameValueData>
    var speeds: seq<NameValueData>
    var innateSpellcasting: Option<string>
    var spellcasting: Option<string>
    var utilitySpells: Option<string>
    var crNotFound: bool
    const doc: Document

    /** `new sbiActor(name)`: every list empty, every record absent, an empty document. */
    constructor(name: string)
      ensures this.name == name && abilities == [] && armor.None? && gear == [] && initiative.None?
      ensures challenge.None? && role.None? && damages == map[] && conditionImmunities.None? && health.None?
      ensures size.None? && alignment.None? && race.None? && swarmSize.None? && creatureType.None? && customType.None?
      ensures savingThrows == [] && senses == [] && speeds == []
      ensures innateSpellcasting.None? && spellcasting.None? && utilitySpells.None? && !crNotFound
      ensures fresh(doc) && doc.store == map[]
    {
      this.name := name;
      abilities, armor, gear, initiative := [], None, [], None;
      challenge, role, damages, conditionImmunities, health := None, None, map[], None, None;
      size, alignment, race, swarmSize, creatureType, customType := None, None, None, None, None, None;
      savingThrows, senses, speeds := [], [], [];
      innateSpellcasting, spellcasting, utilitySpells := None, None, None;
      crNotFound := false;
      doc := new Document();
    }

    /** `spellcastingFeature`: innate spellcasting first, then spellcasting, then utility spells. */
    function SpellcastingFeature(): (r: Option<SpellSource>)
      reads this
      ensures r == Some(InnateSource) <==> HasFeature(innateSpellcasting)
      ensures r == Some(SpellcastingSource) <==> !HasFeature(innateSpellcasting) && HasFeature(spellcasting)
      ensures r == Some(UtilitySource) <==> !HasFeature(innateSpellcasting) && !HasFeature(spellcasting) && HasFeature(utilitySpells)
      ensures r.None? <==> !HasFeature(innateSpellcasting) && !HasFeature(spellcasting) && !HasFeature(utilitySpells)
    {
      if HasFeature(innateSpellcasting) then Some(InnateSource)
      else if HasFeature(spellcasting) then Some(SpellcastingSource)
      else if HasFeature(utilitySpells) then Some(UtilitySource)
      else None
    }

    /** `setAbilities`: the ability object is replaced, then each score is written under its lower-cased name. */
    method SetAbilities()
      modifies doc
      ensures doc.store == WriteScores(WithoutAbilities(old(doc.store)), abilities)
    {
      doc.store := WithoutAbilities(doc.store);
      var i := 0;
      while i < |abilities|
        invariant i <= |abilities|
        invariant doc.store == WriteScores(WithoutAbilities(old(doc.store)), abilities[..i])
      {
        var data := abilities[i];
        doc.store := doc.store[AbilityValue(Lower(data.name)) := NumV(IntOfValue(data.value))];
        assert abilities[..i + 1][..i] == abilities[..i];
        i := i + 1;
      }
      assert abilities[..i] == abilities;
    }

    /** `setChallenge`: the parsed rating, else the lowest level for a positive proficiency bonus, else 0 and a missing-rating flag. */
    method SetChallenge()
      modifies doc, this`crNotFound
      ensures doc.store == old(doc.store)[DetailsCr := CrWritten(challenge)]
      ensures crNotFound == (old(crNotFound) || CrMissing(challenge))
    {
      if challenge.Some? && challenge.value.Full? {
        var cr := challenge.value.data.cr;
        doc.store := doc.store[DetailsCr := if cr.Some? then NumV(cr.value) else NullV];
      } else if challenge.Some? && Positive(challenge.value.pb) {
        doc.store := doc.store[DetailsCr := NumV(MinLevelOf(challenge.value.pb))];
      } else {
        doc.store := doc.store[DetailsCr := NumV(Finite(0.0))];
        crNotFound := true;
      }
    }

    /** `setHealth`: current and maximum hit points from the parsed value, the formula, each 0 when absent. */
    method SetHealth()
      modifies doc
      ensures doc.store == old(doc.store)[HpValue := HpWritten(health)][HpMax := HpWritten(health)][HpFormula := FormulaWritten(health)]
    {
      var hp := NumV(Finite(0.0));
      if health.Some? && Truthy(health.value.value) {
        hp := NumV(health.value.value);
      }
      var formula := NumV(Finite(0.0));
      if health.Some? && health.value.formula.Some? && health.value.formula.value != [] {
        formula := StrV(health.value.formula.value);
      }
      doc.store := doc.store[HpValue := hp];
      doc.store := doc.store[HpMax := hp];
      doc.store := doc.store[HpFormula := formula];
    }

    /** `setInitiative`: the bonus over the dexterity modifier, written only when the parsed modifier differs from it. */
    method SetInitiative()
      modifies doc
      ensures doc.store == InitiativeWritten(old(doc.store), initiative)
    {
      if initiative.None? {
        return;
      }
      var dexterityMod := AbilityModOf(DexScore(doc.store));
      if !StrictEquals(dexterityMod, initiative.value.mod) {
        doc.store := doc.store[InitBonus := NumV(Subtract(initiative.value.mod, dexterityMod))];
      }
    }

    /** `setRacialDetails`: size (default medium) as a size code, swarm size, alignment, subtype and creature type. */
    method SetRacialDetails()
      modifies doc, this`size
      ensures size == (if old(size).Some? && old(size).value != [] then old(size) else Some("medium"))
      ensures doc.store == RacialWritten(old(doc.store), size.value, swarmSize, alignment, race, creatureType, customType)
    {
      if size.None? || size.value == [] {
        size := Some("medium");
      }
      var sizeValue := FoldedSize(Lower(size.value));
      var st := doc.store[TraitsSize := StrV(SizeAbbreviation(sizeValue))];
      st := SwarmWritten(st, swarmSize);
      st := AlignmentWritten(st, alignment);
      st := SubtypeWritten(st, race);
      st := TypeWritten(st, creatureType);
      st := CustomWritten(st, customType);
      doc.store := st;
    }

    /** `setSavingThrows`: each saving throw marks its ability proficient. */
    method SetSavingThrows()
      modifies doc
      ensures doc.store == WriteProficient(old(doc.store), savingThrows)
    {
      var i := 0;
      while i < |savingThrows|
        invariant i <= |savingThrows|
        invariant doc.store == WriteProficient(old(doc.store), savingThrows[..i])
      {
        doc.store := doc.store[AbilityProficient(Lower(savingThrows[i])) := NumV(Finite(1.0))];
        assert savingThrows[..i + 1][..i] == savingThrows[..i];
        i := i + 1;
      }
      assert savingThrows[..i] == savingThrows;
    }

    /**
     * `setSenses`: the four special senses get their own range (and token
     * vision or detection mode); every other sense but perception is listed
     * in the special text.
     */
    method SetSenses()
      modifies doc
      ensures var (s, special) := SensesFold(old(doc.store), senses);
        doc.store == s[SensesSpecial := StrV(Join(special, "; "))]
    {
      var specialSenses: seq<string> := [];
      var i := 0;
      while i < |senses|
        invariant i <= |senses|
        invariant (doc.store, specialSenses) == SensesFold(old(doc.store), senses[..i])
      {
        var senseName := Lower(senses[i].name);
        var senseRange := senses[i].value;
        if senseName == "perception" {
        } else if IsVisionSense(senseName) {
          doc.store := doc.store[SenseRange(senseName) := StoreOf(senseRange)];
          if senseName == "darkvision" {
            doc.store := doc.store[SightRange := StoreOf(senseRange)];
          } else {
            var modes := if DetectionModes in doc.store && doc.store[DetectionModes].ModesV? then doc.store[DetectionModes].modes else [];
            doc.store := doc.store[DetectionModes := ModesV(modes + [DetectionMode(DetectionId(senseName), senseRange)])];
          }
          doc.store := doc.store[SightEnabled := BoolV(false)];
        } else {
          specialSenses := specialSenses + [SpecialSenseText(senseName, senseRange)];
        }
        assert senses[..i + 1][..i] == senses[..i];
        i := i + 1;
      }
      assert senses[..i] == senses;
      doc.store := doc.store[SensesSpecial := StrV(Join(specialSenses, "; "))];
    }

    /**
     * `setSpeed`: the other speeds as one movement object, written only when
     * there are any, then the walking speed.
     */
    method SetSpeed()
      modifies doc
      ensures doc.store == SpeedWritten(old(doc.store), speeds)
    {
      var walk := FirstNamed(speeds, "walk", 0);
      var otherSpeeds := Without(speeds, walk);
      if otherSpeeds != [] {
        var moved := WithoutMovement(doc.store);
        moved := moved[Movement(Burrow) := NumV(ModeSpeed(otherSpeeds, "burrow"))];
        moved := moved[Movement(Climb) := NumV(ModeSpeed(otherSpeeds, "climb"))];
        moved := moved[Movement(Fly) := NumV(ModeSpeed(otherSpeeds, "fly"))];
        moved := moved[Movement(Swim) := NumV(ModeSpeed(otherSpeeds, "swim"))];
        moved := moved[Movement(Hover) := BoolV(FirstNamed(otherSpeeds, "hover", 0).Some?)];
        assert moved == MovementWritten(doc.store, otherSpeeds);
        doc.store := moved;
      }
      if walk.Some? {
        doc.store := doc.store[Movement(Walk) := NumV(IntOfValue(speeds[walk.value].value))];
      }
    }
  }

  // ----- setAbilities -----

  function WithoutAbilities(s: map<Path, StoreValue>): (r: map<Path, StoreValue>)
    ensures forall p :: p in r <==> p in s && !p.AbilityValue? && !p.AbilityProficient?
    ensures forall p :: p in r ==> r[p] == s[p]
  {
    map p | p in s && !p.AbilityValue? && !p.AbilityProficient? :: s[p]
  }

  /** The scores written in order: a later entry with the same lower-cased name overwrites an earlier one. */
  function WriteScores(s: map<Path, StoreValue>, data: seq<NameValueData>): map<Path, StoreValue>
  {
    if data == [] then s
    else
      var d := data[|data| - 1];
      WriteScores(s, data[..|data| - 1])[AbilityValue(Lower(d.name)) := NumV(IntOfValue(d.value))]
  }

  /** The last entry of `data` whose lower-cased name is `a`. */
  function LastNamed(data: seq<NameValueData>, a: string): (r: Option<nat>)
    ensures r.Some? ==> r.value < |data| && Lower(data[r.value].name) == a
    ensures r.Some? ==> forall j :: r.value < j < |data| ==> Lower(data[j].name) != a
    ensures r.None? ==> forall j :: 0 <= j < |data| ==> Lower(data[j].name) != a
  {
    if data == [] then None
    else if Lower(data[|data| - 1].name) == a then Some(|data| - 1)
    else LastNamed(data[..|data| - 1], a)
  }

  /**
   * After `setAbilities` an ability's score is that of the last entry of that
   * name; no score survives from before, and every path outside the ability
   * object is left alone.
   */
  lemma {:induction false} ScoresLastWins(s: map<Path, StoreValue>, data: seq<NameValueData>, p: Path)
    ensures var r := WriteScores(WithoutAbilities(s), data);
      && (p.AbilityValue? ==>
            (p in r <==> LastNamed(data, p.ability).Some?)
            && (p in r ==> r[p] == NumV(IntOfValue(data[LastNamed(data, p.ability).value].value))))
      && (p.AbilityProficient? ==> p !in r)
      && (!p.AbilityValue? && !p.AbilityProficient? ==> (p in r <==> p in s) && (p in r ==> r[p] == s[p]))
  {
    if data != [] {
      ScoresLastWins(s, data[..|data| - 1], p);
    }
  }

  // ----- setChallenge -----

  predicate Positive(n: Num) { (n.Finite? && n.q > 0.0) || n == Infinite(true) }

  /** `getMinLevel` on a JavaScript number. */
  function MinLevelOf(pb: Num): (r: Num)
    ensures pb.Finite? ==> r.Finite? && r.q + 7.0 == 4.0 * pb.q
  {
    match pb
    case Finite(q) => Finite(q * 4.0 - 7.0)
    case _ => pb
  }

  /** The value `setChallenge` writes to `system.details.cr`. */
  function CrWritten(c: Option<ChallengeRecord>): StoreValue
  {
    if c.Some? && c.value.Full? then (if c.value.data.cr.Some? then NumV(c.value.data.cr.value) else NullV)
    else if c.Some? && Positive(c.value.pb) then NumV(MinLevelOf(c.value.pb))
    else NumV(Finite(0.0))
  }

  /** Whether `setChallenge` reports the rating as not found. */
  predicate CrMissing(c: Option<ChallengeRecord>)
  {
    !(c.Some? && (c.value.Full? || Positive(c.value.pb)))
  }

  /**
   * A parsed rating is copied as it is; a proficiency bonus alone yields a
   * rating whose bonus is that bonus again; with neither the rating is 0 and
   * reported missing.
   */
  lemma ChallengeFromBonus(c: Option<ChallengeRecord>)
    ensures c.Some? && c.value.Full? && c.value.data.cr.Some? ==> CrWritten(c) == NumV(c.value.data.cr.value) && !CrMissing(c)
    ensures c.Some? && c.value.PbOnly? && c.value.pb.Finite? && c.value.pb.q.Floor as real == c.value.pb.q && c.value.pb.q >= 2.0 ==>
      CrWritten(c).NumV? && CrWritten(c).n.Finite?
      && SbiUtils.ProficiencyBonus(CrWritten(c).n.q.Floor) == c.value.pb.q.Floor && !CrMissing(c)
    ensures CrMissing(c) ==> CrWritten(c) == NumV(Finite(0.0))
    ensures CrMissing(c) <==> c.None? || (c.value.PbOnly? && !Positive(c.value.pb))
  {
    if c.Some? && c.value.PbOnly? && c.value.pb.Finite? && c.value.pb.q.Floor as real == c.value.pb.q && c.value.pb.q >= 2.0 {
      var pb := c.value.pb.q.Floor;
      SbiUtils.MinLevelRoundTrip(pb);
      assert CrWritten(c).n.q == SbiUtils.MinLevel(pb) as real;
    }
  }

  // ----- setHealth -----

  function HpWritten(h: Option<RollData>): StoreValue
  {
    if h.Some? && Truthy(h.value.value) then NumV(h.value.value) else NumV(Finite(0.0))
  }

  function FormulaWritten(h: Option<RollData>): StoreValue
  {
    if h.Some? && h.value.formula.Some? && h.value.formula.value != [] then StrV(h.value.formula.value) else NumV(Finite(0.0))
  }

  /** Hit points are written as a number, never NaN: the parsed value when it is a non-zero number, else 0. */
  lemma HealthIsNumber(h: Option<RollData>)
    ensures HpWritten(h).NumV? && !HpWritten(h).n.NaN?
    ensures h.Some? && h.value.value.Finite? && h.value.value.q != 0.0 ==> HpWritten(h) == NumV(h.value.value)
    ensures h.None? || h.value.value.NaN? ==> HpWritten(h) == NumV(Finite(0.0))
    ensures FormulaWritten(h).StrV? <==> h.Some? && h.value.formula.Some? && h.value.formula.value != []
  {
  }

  // ----- setInitiative -----

  /** `dex?.value || 10`: the stored dexterity score when it is a truthy number, else 10. */
  function DexScore(s: map<Path, StoreValue>): (r: Num)
    ensures r.Finite? || r.Infinite?
  {
    var p := AbilityValue("dex");
    if p in s && s[p].NumV? && Truthy(s[p].n) then s[p].n else Finite(10.0)
  }

  /** `getAbilityMod` on a JavaScript number. */
  function AbilityModOf(score: Num): (r: Num)
    ensures score.Finite? ==> r.Finite? && 2.0 * r.q <= score.q - 10.0 < 2.0 * r.q + 2.0
  {
    match score
    case Finite(q) => Finite(((q - 10.0) / 2.0).Floor as real)
    case _ => score
  }

  /** `===` on numbers: NaN equals nothing. */
  predicate StrictEquals(a: Num, b: Num)
  {
    (a.Finite? && b.Finite? && a.q == b.q) || (a.Infinite? && b.Infinite? && a.positive == b.positive)
  }

  /** `a - b` on numbers. */
  function Subtract(a: Num, b: Num): (r: Num)
    ensures a.Finite? && b.Finite? ==> r == Finite(a.q - b.q)
  {
    match (a, b)
    case (Finite(x), Finite(y)) => Finite(x - y)
    case (Finite(_), Infinite(p)) => Infinite(!p)
    case (Infinite(p), Finite(_)) => Infinite(p)
    case (Infinite(p), Infinite(q)) => if p != q then Infinite(p) else NaN
    case _ => NaN
  }

  function InitiativeWritten(s: map<Path, StoreValue>, init: Option<Initiative>): map<Path, StoreValue>
  {
    if init.None? then s
    else
      var dexterityMod := AbilityModOf(DexScore(s));
      if StrictEquals(dexterityMod, init.value.mod) then s
      else s[InitBonus := NumV(Subtract(init.value.mod, dexterityMod))]
  }

  /**
   * The bonus makes up the difference: with a finite parsed modifier, the
   * dexterity modifier plus the stored bonus (0 when none is written) is the
   * parsed modifier; nothing else in the document changes.
   */
  lemma InitiativeAddsUp(s: map<Path, StoreValue>, init: Option<Initiative>)
    requires InitBonus !in s
    ensures init.None? ==> InitiativeWritten(s, init) == s
    ensures init.Some? && init.value.mod.Finite? && DexScore(s).Finite? ==>
      var r := InitiativeWritten(s, init);
      var bonus := if InitBonus in r then r[InitBonus].n.q else 0.0;
      (InitBonus in r ==> r[InitBonus].NumV? && r[InitBonus].n.Finite?)
      && AbilityModOf(DexScore(s)).q + bonus == init.value.mod.q
    ensures forall p :: p != InitBonus ==> (p in InitiativeWritten(s, init) <==> p in s)
  {
  }

  // ----- setRacialDetails -----

  /** `getSizeAbbreviation`: the four sizes with codes of their own; any other size as it is. */
  function SizeAbbreviation(size: string): string
  {
    if size == "small" then "sm"
    else if size == "medium" then "med"
    else if size == "large" then "lg"
    else if size == "gargantuan" then "grg"
    else size
  }

  /** Fine and diminutive fold into tiny, colossal into gargantuan. */
  function FoldedSize(sizeValue: string): string
  {
    if sizeValue == "fine" || sizeValue == "diminutive" then "tiny"
    else if sizeValue == "colossal" then "gargantuan" else sizeValue
  }

  /** The size written for a lower-cased size. */
  function SizeCode(sizeValue: string): string
  {
    SizeAbbreviation(FoldedSize(sizeValue))
  }

  /** `capitalizeAll`, whose `null` for empty text is stored as null. */
  function Capitalized(s: string): (r: StoreValue)
    ensures s == [] <==> r == NullV
  {
    match SbiUtils.CapitalizeAll(s)
    case None => NullV
    case Some(c) => StrV(c)
  }

  predicate Present(o: Option<string>) { o.Some? && o.value != [] }

  function SwarmWritten(s: map<Path, StoreValue>, swarmSize: Option<string>): map<Path, StoreValue>
  {
    if Present(swarmSize) then s[TypeSwarm := StrV(SizeAbbreviation(Lower(swarmSize.value)))] else s
  }

  function AlignmentWritten(s: map<Path, StoreValue>, alignment: Option<string>): map<Path, StoreValue>
  {
    if Present(alignment) then s[DetailsAlignment := Capitalized(Trim(alignment.value))] else s
  }

  function SubtypeWritten(s: map<Path, StoreValue>, race: Option<string>): map<Path, StoreValue>
  {
    if Present(race) then s[TypeSubtype := Capitalized(Trim(race.value))] else s
  }

  function TypeWritten(s: map<Path, StoreValue>, creatureType: Option<string>): map<Path, StoreValue>
  {
    if Present(creatureType) then s[TypeValue := StrV(Lower(Trim(creatureType.value)))] else s
  }

  /** A custom type (non-blank once trimmed) overrides the type with "custom" and stores its capitalised name. */
  function CustomWritten(s: map<Path, StoreValue>, customType: Option<string>): map<Path, StoreValue>
  {
    if customType.Some? && Trim(customType.value) != [] then s[TypeValue := StrV("custom")][TypeCustom := Capitalized(Trim(customType.value))]
    else s
  }

  function RacialWritten(s: map<Path, StoreValue>, size: string, swarmSize: Option<string>, alignment: Option<string>,
                         race: Option<string>, creatureType: Option<string>, customType: Option<string>): map<Path, StoreValue>
  {
    var sized := s[TraitsSize := StrV(SizeCode(Lower(size)))];
    CustomWritten(TypeWritten(SubtypeWritten(AlignmentWritten(SwarmWritten(sized, swarmSize), alignment), race), creatureType), customType)
  }

  /** The size codes: fine and diminutive become tiny, colossal gargantuan, and the four sizes with codes are abbreviated. */
  lemma SizeCodes()
    ensures SizeCode("fine") == "tiny" && SizeCode("diminutive") == "tiny" && SizeCode("tiny") == "tiny"
    ensures SizeCode("small") == "sm" && SizeCode("medium") == "med" && SizeCode("large") == "lg"
    ensures SizeCode("huge") == "huge" && SizeCode("gargantuan") == "grg" && SizeCode("colossal") == "grg"
  {
  }

  /** A custom type wins over the parsed type: the type becomes "custom" and the custom name is stored. */
  lemma CustomTypeWins(s: map<Path, StoreValue>, creatureType: Option<string>, customType: Option<string>)
    ensures var r := CustomWritten(TypeWritten(s, creatureType), customType);
      && (customType.Some? && Trim(customType.value) != [] ==>
            r[TypeValue] == StrV("custom") && r[TypeCustom].StrV?)
      && (!(customType.Some? && Trim(customType.value) != []) && Present(creatureType) ==>
            r[TypeValue] == StrV(Lower(Trim(creatureType.value))) && (TypeCustom in r <==> TypeCustom in s))
  {
  }

  // ----- setSavingThrows -----

  function WriteProficient(s: map<Path, StoreValue>, names: seq<string>): map<Path, StoreValue>
  {
    if names == [] then s
    else WriteProficient(s, names[..|names| - 1])[AbilityProficient(Lower(names[|names| - 1])) := NumV(Finite(1.0))]
  }

  /** Exactly the saving throws' abilities (lower-cased) are marked proficient; nothing else changes. */
  lemma {:induction false} ProficientExactly(s: map<Path, StoreValue>, names: seq<string>, p: Path)
    ensures var r := WriteProficient(s, names);
      && (p.AbilityProficient? && (exists i :: 0 <= i < |names| && Lower(names[i]) == p.ability) ==> p in r && r[p] == NumV(Finite(1.0)))
      && (!(p.AbilityProficient? && exists i :: 0 <= i < |names| && Lower(names[i]) == p.ability) ==>
            (p in r <==> p in s) && (p in r ==> r[p] == s[p]))
  {
    if names != [] {
      var init := names[..|names| - 1];
      ProficientExactly(s, init, p);
      if p.AbilityProficient? && p.ability != Lower(names[|names| - 1]) {
        assert (exists i :: 0 <= i < |names| && Lower(names[i]) == p.ability) <==>
               (exists i :: 0 <= i < |init| && Lower(init[i]) == p.ability) by {
          if exists i :: 0 <= i < |names| && Lower(names[i]) == p.ability {
            var i :| 0 <= i < |names| && Lower(names[i]) == p.ability;
            assert i < |init| && init[i] == names[i];
          }
          if exists i :: 0 <= i < |init| && Lower(init[i]) == p.ability {
            var i :| 0 <= i < |init| && Lower(init[i]) == p.ability;
            assert names[i] == init[i];
          }
        }
      }
    }
  }

  // ----- setSenses -----

  predicate IsVisionSense(name: string)
  {
    name == "blindsight" || name == "darkvision" || name == "tremorsense" || name == "truesight"
  }

  /** The detection mode a vision sense adds to the token. */
  function DetectionId(name: string): string
  {
    if name == "tremorsense" then "feelTremor" else if name == "blindsight" then "blindsight" else "seeAll"
  }

  /** One entry of the special-senses text: "Name N ft". */
  function SpecialSenseText(name: string, range: Value): (r: string)
    ensures |r| >= |name| + 4
  {
    SbiUtils.CapitalizeFirstLetter(name) + " " + ValueText(range) + " ft"
  }

  /** The document and the special-sense texts after the loop has seen `senses`. */
  function SensesFold(s: map<Path, StoreValue>, senses: seq<NameValueData>): (map<Path, StoreValue>, seq<string>)
  {
    if senses == [] then (s, [])
    else
      var (t, special) := SensesFold(s, senses[..|senses| - 1]);
      var senseName := Lower(senses[|senses| - 1].name);
      var senseRange := senses[|senses| - 1].value;
      if senseName == "perception" then (t, special)
      else if IsVisionSense(senseName) then
        var t1 := t[SenseRange(senseName) := StoreOf(senseRange)];
        var t2 := if senseName == "darkvision" then t1[SightRange := StoreOf(senseRange)]
          else
            var modes := if DetectionModes in t1 && t1[DetectionModes].ModesV? then t1[DetectionModes].modes else [];
            t1[DetectionModes := ModesV(modes + [DetectionMode(DetectionId(senseName), senseRange)])];
        (t2[SightEnabled := BoolV(false)], special)
      else (t, special + [SpecialSenseText(senseName, senseRange)])
  }

  /** The senses that end up in the special text: neither perception nor a vision sense. */
  function OtherSenses(senses: seq<NameValueData>): (r: seq<NameValueData>)
    ensures |r| <= |senses|
    ensures forall k :: 0 <= k < |r| ==> Lower(r[k].name) != "perception" && !IsVisionSense(Lower(r[k].name))
  {
    if senses == [] then []
    else
      var last := senses[|senses| - 1];
      var n := Lower(last.name);
      OtherSenses(senses[..|senses| - 1]) + (if n == "perception" || IsVisionSense(n) then [] else [last])
  }

  /** The special text lists, in order, exactly the senses that are neither perception nor a vision sense. */
  lemma {:induction false} SpecialSensesInOrder(s: map<Path, StoreValue>, senses: seq<NameValueData>)
    ensures var special := SensesFold(s, senses).1;
      var others := OtherSenses(senses);
      |special| == |others|
      && forall k :: 0 <= k < |others| ==> special[k] == SpecialSenseText(Lower(others[k].name), others[k].value)
  {
    if senses != [] {
      SpecialSensesInOrder(s, senses[..|senses| - 1]);
    }
  }

  /** A vision sense writes its range and turns the token's default sight off; the special text is left alone. */
  lemma VisionSenseWritesRange(s: map<Path, StoreValue>, senses: seq<NameValueData>)
    requires senses != [] && IsVisionSense(Lower(senses[|senses| - 1].name))
    ensures var (t, special) := SensesFold(s, senses);
      var last := senses[|senses| - 1];
      && t[SenseRange(Lower(last.name))] == StoreOf(last.value)
      && t[SightEnabled] == BoolV(false)
      && special == SensesFold(s, senses[..|senses| - 1]).1
  {
  }

  // ----- setSpeed -----

  /** The first entry at or after `k` whose lower-cased name is `mode` (`Array.prototype.find`). */
  function FirstNamed(speeds: seq<NameValueData>, mode: string, k: nat): (r: Option<nat>)
    requires k <= |speeds|
    ensures r.Some? ==> k <= r.value < |speeds| && Lower(speeds[r.value].name) == mode
    ensures r.Some? ==> forall j :: k <= j < r.value ==> Lower(speeds[j].name) != mode
    ensures r.None? ==> forall j :: k <= j < |speeds| ==> Lower(speeds[j].name) != mode
    decreases |speeds| - k
  {
    if k == |speeds| then None
    else if Lower(speeds[k].name) == mode then Some(k)
    else FirstNamed(speeds, mode, k + 1)
  }

  /** The list without the one entry found (`filter(s => s != walkSpeed)` compares identities). */
  function Without(speeds: seq<NameValueData>, i: Option<nat>): (r: seq<NameValueData>)
    requires i.Some? ==> i.value < |speeds|
    ensures i.None? ==> r == speeds
    ensures i.Some? ==> |r| == |speeds| - 1
    ensures i.Some? ==> forall j :: 0 <= j < i.value ==> r[j] == speeds[j]
    ensures i.Some? ==> forall j :: i.value < j < |speeds| ==> r[j - 1] == speeds[j]
  {
    if i.None? then speeds else speeds[..i.value] + speeds[i.value + 1..]
  }

  /** `parseInt(find(mode)?.value ?? 0)`. */
  function ModeSpeed(speeds: seq<NameValueData>, mode: string): Num
  {
    match FirstNamed(speeds, mode, 0)
    case None => Finite(0.0)
    case Some(j) => IntOfValue(speeds[j].value)
  }

  function WithoutMovement(s: map<Path, StoreValue>): (r: map<Path, StoreValue>)
    ensures forall p :: p in r <==> p in s && !p.Movement?
    ensures forall p :: p in r ==> r[p] == s[p]
  {
    map p | p in s && !p.Movement? :: s[p]
  }

  /** The movement object `setSpeed` writes when speeds other than walking are listed. */
  function MovementWritten(s: map<Path, StoreValue>, others: seq<NameValueData>): (r: map<Path, StoreValue>)
    ensures others == [] ==> r == s
    ensures others != [] ==> Movement(Fly) in r && Movement(Hover) in r && Movement(Walk) !in r
    ensures others != [] ==> r[Movement(Hover)] == BoolV(FirstNamed(others, "hover", 0).Some?)
    ensures forall p: Path :: !p.Movement? ==> (p in r <==> p in s) && (p in r ==> r[p] == s[p])
  {
    if others == [] then s
    else WithoutMovement(s)[Movement(Burrow) := NumV(ModeSpeed(others, "burrow"))]
      [Movement(Climb) := NumV(ModeSpeed(others, "climb"))]
      [Movement(Fly) := NumV(ModeSpeed(others, "fly"))]
      [Movement(Swim) := NumV(ModeSpeed(others, "swim"))]
      [Movement(Hover) := BoolV(FirstNamed(others, "hover", 0).Some?)]
  }

  function SpeedWritten(s: map<Path, StoreValue>, speeds: seq<NameValueData>): map<Path, StoreValue>
  {
    var walk := FirstNamed(speeds, "walk", 0);
    var moved := MovementWritten(s, Without(speeds, walk));
    if walk.Some? then moved[Movement(Walk) := NumV(IntOfValue(speeds[walk.value].value))] else moved
  }

  /** Walking speed is written exactly when some speed is named walk, as the first such speed's value. */
  lemma WalkSpeedWritten(s: map<Path, StoreValue>, speeds: seq<NameValueData>)
    requires Movement(Walk) !in s
    ensures var r := SpeedWritten(s, speeds);
      (Movement(Walk) in r <==> exists j :: 0 <= j < |speeds| && Lower(speeds[j].name) == "walk")
      && (Movement(Walk) in r ==> r[Movement(Walk)] == NumV(IntOfValue(speeds[FirstNamed(speeds, "walk", 0).value].value)))
  {
    var walk := FirstNamed(speeds, "walk", 0);
    if walk.None? {
      var others := Without(speeds, walk);
      assert others == speeds;
    }
  }

  /** The speeds left once the walking speed is set aside are exactly the other indices of the list. */
  lemma {:induction false} OthersNamed(speeds: seq<NameValueData>, walk: Option<nat>, mode: string)
    requires walk.Some? ==> walk.value < |speeds|
    ensures FirstNamed(Without(speeds, walk), mode, 0).Some? <==>
      exists j :: 0 <= j < |speeds| && Some(j) != walk && Lower(speeds[j].name) == mode
  {
    var others := Without(speeds, walk);
    var h := FirstNamed(others, mode, 0);
    if exists j :: 0 <= j < |speeds| && Some(j) != walk && Lower(speeds[j].name) == mode {
      var j :| 0 <= j < |speeds| && Some(j) != walk && Lower(speeds[j].name) == mode;
      var k := if walk.Some? && j > walk.value then j - 1 else j;
      assert others[k] == speeds[j];
    }
    if h.Some? {
      var k := h.value;
      var j := if walk.Some? && k >= walk.value then k + 1 else k;
      assert others[k] == speeds[j];
    }
  }

  /** The movement object is written exactly when some speed other than the walking speed is listed. */
  lemma MovementObjectPresent(s: map<Path, StoreValue>, speeds: seq<NameValueData>)
    requires Movement(Fly) !in s
    ensures var walk := FirstNamed(speeds, "walk", 0);
      Movement(Fly) in SpeedWritten(s, speeds) <==> |speeds| > (if walk.Some? then 1 else 0)
  {
  }

  /** When the movement object is written, its hover flag says whether a speed other than walking is named hover. */
  lemma HoverFlagWritten(s: map<Path, StoreValue>, speeds: seq<NameValueData>)
    requires Movement(Fly) in SpeedWritten(s, speeds) && Movement(Fly) !in s
    ensures var walk := FirstNamed(speeds, "walk", 0);
      SpeedWritten(s, speeds)[Movement(Hover)] == BoolV(true) <==>
        exists j :: 0 <= j < |speeds| && Some(j) != walk && Lower(speeds[j].name) == "hover"
  {
    var walk := FirstNamed(speeds, "walk", 0);
    var others := Without(speeds, walk);
    assert others != [];
    OthersNamed(speeds, walk, "hover");
  }

  /** `setSpeed` writes only inside the movement object. */
  lemma SpeedKeepsOtherPaths(s: map<Path, StoreValue>, speeds: seq<NameValueData>, p: Path)
    requires !p.Movement?
    ensures var r := SpeedWritten(s, speeds);
      (p in r <==> p in s) && (p in r ==> r[p] == s[p])
  {
  }
}
