// The statblock importer's block registry and the small records its
// extractors produce (scripts/sbi-importer/sbiData.js).
module SbiData {
  import opened Text

  /** The keys of the block registry, in the registry's declaration order. */
  datatype BlockId =
    | Abilities | Actions | Armor | BonusActions | Challenge
    | ConditionImmunities | DamageImmunities | Immunities2024 | DamageResistances | DamageVulnerabilities
    | Features | Gear | Health | Initiative | LairActions | Languages
    | LegendaryActions | MythicActions | Name | ProficiencyBonus | RacialDetails
    | Reactions | SavingThrows | Senses | Skills | Souls | Source | Speed
    | Traits | UtilitySpells | VillainActions | OtherBlock

  /** The number of registry entries. */
  const BlockCount: nat := 32

  /** The block at position `k` of the registry's declaration order. */
  function BlockAt(k: nat): BlockId
    requires k < BlockCount
  {
    match k
    case 0 => Abilities case 1 => Actions case 2 => Armor case 3 => BonusActions case 4 => Challenge
    case 5 => ConditionImmunities case 6 => DamageImmunities case 7 => Immunities2024
    case 8 => DamageResistances case 9 => DamageVulnerabilities case 10 => Features case 11 => Gear
    case 12 => Health case 13 => Initiative case 14 => LairActions case 15 => Languages
    case 16 => LegendaryActions case 17 => MythicActions case 18 => Name case 19 => ProficiencyBonus
    case 20 => RacialDetails case 21 => Reactions case 22 => SavingThrows case 23 => Senses
    case 24 => Skills case 25 => Souls case 26 => Source case 27 => Speed case 28 => Traits
    case 29 => UtilitySpells case 30 => VillainActions case _ => OtherBlock
  }

  /** `Object.keys(Blocks)`: every block id, in declaration order. */
  const BlockOrder: seq<BlockId> := seq(BlockCount, k requires 0 <= k < BlockCount => BlockAt(k))

  /** The registry key (equal to the entry's `id`). */
  function Key(b: BlockId): string
  {
    match b
    case Abilities => "abilities"
    case Actions => "actions"
    case Armor => "armor"
    case BonusActions => "bonusActions"
    case Challenge => "challenge"
    case ConditionImmunities => "conditionImmunities"
    case DamageImmunities => "damageImmunities"
    case Immunities2024 => "immunities2024"
    case DamageResistances => "damageResistances"
    case DamageVulnerabilities => "damageVulnerabilities"
    case Features => "features"
    case Gear => "gear"
    case Health => "health"
    case Initiative => "initiative"
    case LairActions => "lairActions"
    case Languages => "languages"
    case LegendaryActions => "legendaryActions"
    case MythicActions => "mythicActions"
    case Name => "name"
    case ProficiencyBonus => "proficiencyBonus"
    case RacialDetails => "racialDetails"
    case Reactions => "reactions"
    case SavingThrows => "savingThrows"
    case Senses => "senses"
    case Skills => "skills"
    case Souls => "souls"
    case Source => "source"
    case Speed => "speed"
    case Traits => "traits"
    case UtilitySpells => "utilitySpells"
    case VillainActions => "villainActions"
    case OtherBlock => "otherBlock"
  }

  /** The `top` flag: the section belongs to the statblock's header region. */
  predicate IsTop(b: BlockId)
  {
    b in {Abilities, Armor, Challenge, ConditionImmunities, DamageImmunities, Immunities2024,
          DamageResistances, DamageVulnerabilities, Gear, Health, Initiative, Languages,
          ProficiencyBonus, RacialDetails, SavingThrows, Senses, Skills, Souls, Source, Speed}
  }

  /** A block's position in the registry order. */
  function Rank(b: BlockId): nat
  {
    match b
    case Abilities => 0 case Actions => 1 case Armor => 2 case BonusActions => 3 case Challenge => 4
    case ConditionImmunities => 5 case DamageImmunities => 6 case Immunities2024 => 7
    case DamageResistances => 8 case DamageVulnerabilities => 9 case Features => 10 case Gear => 11
    case Health => 12 case Initiative => 13 case LairActions => 14 case Languages => 15
    case LegendaryActions => 16 case MythicActions => 17 case Name => 18 case ProficiencyBonus => 19
    case RacialDetails => 20 case Reactions => 21 case SavingThrows => 22 case Senses => 23
    case Skills => 24 case Souls => 25 case Source => 26 case Speed => 27 case Traits => 28
    case UtilitySpells => 29 case VillainActions => 30 case OtherBlock => 31
  }

  /** Every block appears in the registry order, at its rank. */
  lemma RankInOrder(b: BlockId)
    ensures Rank(b) < BlockCount && BlockAt(Rank(b)) == b
  {
  }

  /** Each position of the registry order holds the block of that rank, so no block appears twice. */
  lemma OrderHasRank(k: nat)
    requires k < BlockCount
    ensures Rank(BlockAt(k)) == k
  {
  }

  /** The three kinds of damage/condition list an actor carries. */
  datatype DamageConditionId = Immunities | Resistances | Vulnerabilities

  /** `KnownCreatureTypes`: the fourteen standard creature types, lower case. */
  const KnownCreatureTypes: seq<string> := [
    "aberration", "celestial", "dragon", "fey", "giant", "monstrosity", "plant",
    "beast", "construct", "elemental", "fiend", "humanoid", "ooze", "undead"]

  /** The blocks carrying the `top` flag, in registry order. */
  const TopBlocks: seq<BlockId> := [
    Abilities, Armor, Challenge, ConditionImmunities, DamageImmunities, Immunities2024,
    DamageResistances, DamageVulnerabilities, Gear, Health, Initiative, Languages,
    ProficiencyBonus, RacialDetails, SavingThrows, Senses, Skills, Souls, Source, Speed]

  /** Exactly twenty distinct blocks carry the `top` flag. */
  lemma TwentyTopBlocks()
    ensures |TopBlocks| == 20
    ensures forall i, j :: 0 <= i < j < |TopBlocks| ==> TopBlocks[i] != TopBlocks[j]
    ensures forall b :: IsTop(b) <==> b in TopBlocks
  {
  }

  /** The fourteen creature types are distinct and written in lower case. */
  lemma KnownCreatureTypesDistinct()
    ensures |KnownCreatureTypes| == 14
    ensures forall i, j :: 0 <= i < j < |KnownCreatureTypes| ==> KnownCreatureTypes[i] != KnownCreatureTypes[j]
    ensures forall i :: 0 <= i < |KnownCreatureTypes| ==> Lower(KnownCreatureTypes[i]) == KnownCreatureTypes[i]
  {
  }

  /** A value as the extractors hand it over: a number (possibly NaN) or a string. */
  datatype Value = NumVal(n: Num) | StrVal(s: string)

  datatype NameValueData = NameValueData(name: string, value: Value)

  /** Armour class (a `parseInt` result) and the armour types that count as natural armour. */
  datatype ArmorData = ArmorData(ac: Num, types: seq<string>)

  /** `new ArmorData(ac, types)`: a missing list of armour types becomes the empty list. */
  function MakeArmorData(ac: Num, types: Option<seq<string>>): (r: ArmorData)
    ensures r.ac == ac
    ensures types.None? ==> r.types == []
    ensures types.Some? ==> r.types == types.value
  {
    ArmorData(ac, if types.Some? then types.value else [])
  }

  /** Challenge rating (None: the `null` of a malformed fraction), experience points and proficiency bonus. */
  datatype ChallengeData = ChallengeData(cr: Option<Num>, xp: Num, pb: Num)

  /** A rolled value and its dice formula, stored under `formula`. */
  datatype RollData = RollData(value: Num, formula: Option<string>)
}
