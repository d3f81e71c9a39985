// Sorting an Open5E creature's traits for the rendered statblock
// (scripts/statblock-formatter.js): `normalizeWotcTraits` moves the traits
// that are really statblock lines (saving throws, skills, damage and
// condition lines, senses, languages) into eight line lists, merged by
// `mergeWotcSectionLine`, and keeps the other named traits in order.
module FormatterTraits {
  import opened Text
  import opened Js
  import Formatter
  import FormatterText

  /** A rendered name and description; an empty description stands for a trait without one. */
  datatype NamedText = NamedText(name: string, desc: string)

  // ----- merging one line -----

  /** No entry occurs twice. */
  predicate Distinct(lines: seq<string>)
  {
    forall i, j :: 0 <= i < j < |lines| ==> lines[i] != lines[j]
  }

  /** The list after `mergeWotcSectionLine` with already normalized text: kept when empty or already listed, appended otherwise. */
  function MergeIncoming(existing: seq<string>, incoming: string): (r: seq<string>)
  {
    if incoming == [] || incoming in existing then existing else existing + [incoming]
  }

  /** Merging keeps the list, adds the text at most once and only at the end, and never lists anything twice. */
  lemma MergeIncomingProps(existing: seq<string>, incoming: string)
    ensures var r := MergeIncoming(existing, incoming);
      r[..|existing|] == existing && |r| <= |existing| + 1 &&
      (incoming != [] ==> incoming in r) &&
      (forall x :: x in r ==> x in existing || x == incoming) &&
      (Distinct(existing) ==> Distinct(r)) &&
      ([] !in existing ==> [] !in r)
  {
    var r := MergeIncoming(existing, incoming);
    assert r[..|existing|] == existing;
  }

  /** Merging the same text twice is merging it once. */
  lemma MergeIncomingIdempotent(existing: seq<string>, incoming: string)
    ensures MergeIncoming(MergeIncoming(existing, incoming), incoming) == MergeIncoming(existing, incoming)
  {
    if incoming != [] && incoming !in existing {
      assert incoming in existing + [incoming];
    }
  }

  // ----- the eight line lists -----

  const SlotCount: nat := 8

  /** The lists `normalizeWotcTraits` fills, in the order the statblock prints them. */
  function SlotKey(slot: nat): string
  {
    match slot
    case 0 => "saving throws"
    case 1 => "skills"
    case 2 => "damage vulnerabilities"
    case 3 => "damage resistances"
    case 4 => "damage immunities"
    case 5 => "condition immunities"
    case 6 => "senses"
    case _ => "languages"
  }

  /** The list a lower-case trait name belongs to, if any: the first of the list names from `s` on equal to it. */
  function SlotFrom(key: string, s: nat): (r: Option<nat>)
    requires s <= SlotCount
    decreases SlotCount - s
    ensures r.Some? ==> s <= r.value < SlotCount && SlotKey(r.value) == key
    ensures r.None? ==> forall j :: s <= j < SlotCount ==> SlotKey(j) != key
  {
    if s == SlotCount then None
    else if SlotKey(s) == key then Some(s)
    else SlotFrom(key, s + 1)
  }

  function SlotOf(key: string): (r: Option<nat>)
    ensures r.Some? ==> r.value < SlotCount && SlotKey(r.value) == key
    ensures r.None? ==> forall j :: 0 <= j < SlotCount ==> SlotKey(j) != key
  {
    SlotFrom(key, 0)
  }

  /** The eight lists, with entry `slot` holding `value`'s description text merged in (`mergeWotcSectionLine`). */
  class SectionLists {
    var lists: seq<seq<string>>

    constructor()
      ensures lists == seq(SlotCount, _ => [])
    {
      lists := seq(SlotCount, _ => []);
    }

    /** `mergeWotcSectionLine(lists[slot], value)`. */
    method Merge(slot: nat, value: string)
      requires slot < |lists|
      modifies this
      ensures lists == old(lists)[slot := MergeIncoming(old(lists)[slot], FormatterText.DescriptionText(Str(value)))]
    {
      var incoming := FormatterText.DescriptionText(Str(value));
      AddLine(slot, incoming);
    }

    /** The push of `mergeWotcSectionLine`, once the text is normalized. */
    method AddLine(slot: nat, incoming: string)
      requires slot < |lists|
      modifies this
      ensures lists == old(lists)[slot := MergeIncoming(old(lists)[slot], incoming)]
    {
      if incoming != [] && incoming !in lists[slot] {
        lists := lists[slot := lists[slot] + [incoming]];
      }
    }
  }

  // ----- one trait -----

  /**
   * What `normalizeWotcTraits` reads from one trait: the title-cased name,
   * the description text (`trait?.desc || ''`), the list the lower-case
   * name selects, and the text the merge would add.
   */
  datatype TraitView = TraitView(name: string, desc: string, slot: Option<nat>, incoming: string)

  function ViewOf(entry: Value): (r: TraitView)
    ensures r.slot == SlotOf(Lower(r.name))
    ensures r.incoming == FormatterText.DescriptionText(Str(r.desc))
  {
    var name := FormatterText.TitleCase(Formatter.SafeString(Get(entry, "name"), ""));
    var d := Get(entry, "desc");
    var desc := FormatterText.DescriptionText(if Formatter.Truthy(d) then d else Str(""));
    TraitView(name, desc, SlotOf(Lower(name)), FormatterText.DescriptionText(Str(desc)))
  }

  function Views(traits: seq<Value>): (r: seq<TraitView>)
    ensures |r| == |traits|
  {
    if traits == [] then [] else Views(traits[..|traits| - 1]) + [ViewOf(traits[|traits| - 1])]
  }

  lemma {:induction false} ViewsAt(traits: seq<Value>, k: nat)
    requires k < |traits|
    ensures Views(traits)[k] == ViewOf(traits[k])
  {
    if k < |traits| - 1 {
      ViewsAt(traits[..|traits| - 1], k);
    }
  }

  // ----- the traits in turn -----

  /** The result of `normalizeWotcTraits`: the remaining traits and the eight lists. */
  datatype TraitSplit = TraitSplit(remaining: seq<NamedText>, special: seq<seq<string>>)

  /** One trait: an unnamed one is dropped, a listed name merges into its list, any other is kept. */
  function TraitStep(st: TraitSplit, v: TraitView): (r: TraitSplit)
    requires |st.special| == SlotCount
    ensures |r.special| == SlotCount
  {
    if v.name == [] then st
    else match v.slot
      case Some(s) =>
        if s < SlotCount then TraitSplit(st.remaining, st.special[s := MergeIncoming(st.special[s], v.incoming)])
        else st
      case None => TraitSplit(st.remaining + [NamedText(v.name, v.desc)], st.special)
  }

  function SplitUpTo(views: seq<TraitView>, k: nat): (r: TraitSplit)
    requires k <= |views|
    ensures |r.special| == SlotCount
  {
    if k == 0 then TraitSplit([], seq(SlotCount, _ => []))
    else TraitStep(SplitUpTo(views, k - 1), views[k - 1])
  }

  /** `normalizeWotcTraits(traits)`. */
  function NormalizedTraits(traits: seq<Value>): (r: TraitSplit)
    ensures |r.special| == SlotCount
  {
    SplitUpTo(Views(traits), |traits|)
  }

  /**
   * The loop of `normalizeWotcTraits`, merging into the lists in place. Each
   * trait is read (name, description, list) before the loop takes it; the
   * reads change nothing, so reading them all first is the same.
   */
  method NormalizeWotcTraits(traits: seq<Value>) returns (remaining: seq<NamedText>, special: SectionLists)
    ensures fresh(special)
    ensures TraitSplit(remaining, special.lists) == NormalizedTraits(traits)
  {
    var views := Views(traits);
    remaining := [];
    special := new SectionLists();
    for k := 0 to |views|
      invariant TraitSplit(remaining, special.lists) == SplitUpTo(views, k)
    {
      remaining := TakeTrait(views[k], remaining, special);
    }
  }

  /** The body of the loop for one trait. */
  method TakeTrait(v: TraitView, remaining: seq<NamedText>, special: SectionLists) returns (remaining': seq<NamedText>)
    requires |special.lists| == SlotCount
    modifies special
    ensures TraitSplit(remaining', special.lists) == TraitStep(TraitSplit(remaining, old(special.lists)), v)
  {
    remaining' := remaining;
    if v.name != [] {
      match v.slot
      case Some(s) =>
        if s < SlotCount {
          special.AddLine(s, v.incoming);
        }
      case None =>
        remaining' := remaining + [NamedText(v.name, v.desc)];
    }
  }

  // ----- what the split keeps -----

  /** The lists never hold empty text or the same text twice. */
  predicate ListsOk(special: seq<seq<string>>)
  {
    forall s :: 0 <= s < |special| ==> Distinct(special[s]) && [] !in special[s]
  }

  /** The kept traits are named and are not one of the eight list names. */
  predicate RemainingOk(remaining: seq<NamedText>)
  {
    forall k :: 0 <= k < |remaining| ==> remaining[k].name != [] && SlotOf(Lower(remaining[k].name)).None?
  }

  lemma StepOk(st: TraitSplit, v: TraitView)
    requires |st.special| == SlotCount && ListsOk(st.special) && RemainingOk(st.remaining)
    requires v.slot == SlotOf(Lower(v.name))
    ensures ListsOk(TraitStep(st, v).special) && RemainingOk(TraitStep(st, v).remaining)
  {
    if v.name != [] && v.slot.Some? {
      var s := v.slot.value;
      MergeIncomingProps(st.special[s], v.incoming);
    }
  }

  /** Every stage of the split keeps the lists duplicate-free and the kept traits named and unlisted. */
  lemma {:induction false} SplitOk(views: seq<TraitView>, k: nat)
    requires k <= |views|
    requires forall j :: 0 <= j < |views| ==> views[j].slot == SlotOf(Lower(views[j].name))
    ensures ListsOk(SplitUpTo(views, k).special) && RemainingOk(SplitUpTo(views, k).remaining)
  {
    if k > 0 {
      SplitOk(views, k - 1);
      StepOk(SplitUpTo(views, k - 1), views[k - 1]);
    }
  }

  lemma NormalizedTraitsOk(traits: seq<Value>)
    ensures ListsOk(NormalizedTraits(traits).special) && RemainingOk(NormalizedTraits(traits).remaining)
  {
    var views := Views(traits);
    forall j | 0 <= j < |views|
      ensures views[j].slot == SlotOf(Lower(views[j].name))
    {
      ViewsAt(traits, j);
    }
    SplitOk(views, |traits|);
  }

  /** The kept traits, by an independent filter: the named traits whose name selects no list, in order. */
  function Kept(views: seq<TraitView>): (r: seq<NamedText>)
  {
    if views == [] then []
    else
      var v := views[|views| - 1];
      Kept(views[..|views| - 1]) + (if v.name != [] && v.slot.None? then [NamedText(v.name, v.desc)] else [])
  }

  lemma {:induction false} SplitKeeps(views: seq<TraitView>, k: nat)
    requires k <= |views|
    ensures SplitUpTo(views, k).remaining == Kept(views[..k])
  {
    if k > 0 {
      SplitKeeps(views, k - 1);
      assert views[..k][..k - 1] == views[..k - 1];
    }
  }

  /** A trait named for a list leaves its text in that list, whatever follows it. */
  lemma {:induction false} SplitLists(views: seq<TraitView>, k: nat, j: nat)
    requires j < k <= |views|
    requires views[j].name != [] && views[j].slot.Some? && views[j].slot.value < SlotCount && views[j].incoming != []
    ensures views[j].incoming in SplitUpTo(views, k).special[views[j].slot.value]
  {
    var s := views[j].slot.value;
    if k == j + 1 {
      MergeIncomingProps(SplitUpTo(views, j).special[s], views[j].incoming);
    } else {
      SplitLists(views, k - 1, j);
      var before := SplitUpTo(views, k - 1).special;
      var v := views[k - 1];
      if v.name != [] && v.slot.Some? && v.slot.value == s {
        MergeIncomingProps(before[s], v.incoming);
        assert before[s] <= MergeIncoming(before[s], v.incoming);
      }
    }
  }

  /** A list holds only text merged from traits named for it. */
  lemma {:induction false} ListsFromTraits(views: seq<TraitView>, k: nat, s: nat, line: string)
    requires k <= |views| && s < SlotCount && line in SplitUpTo(views, k).special[s]
    ensures exists j :: 0 <= j < k && views[j].name != [] && views[j].slot == Some(s) && views[j].incoming == line
  {
    if k > 0 {
      var before := SplitUpTo(views, k - 1).special;
      var v := views[k - 1];
      if line in before[s] {
        ListsFromTraits(views, k - 1, s, line);
        var j :| 0 <= j < k - 1 && views[j].name != [] && views[j].slot == Some(s) && views[j].incoming == line;
        assert 0 <= j < k;
      } else {
        assert v.name != [] && v.slot == Some(s) && v.incoming == line;
      }
    }
  }
}
