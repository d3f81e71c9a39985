// The actions of an Open5E creature (scripts/statblock-formatter.js):
// `normalizeOpen5eActionType` reads an action's kind,
// `normalizeOpen5eAction` gives its name and text (the description, or the
// attack lines when there is none), and `mergeOpen5eActionsByType` sorts the
// actions into six groups, dropping the "The X can take 3 legendary
// actions" preamble that Open5E lists as an action.
module FormatterActions {
  import opened Text
  import opened Js
  import opened Formatter
  import FormatterText
  import opened FormatterTraits
  import FormatterAttacks

  // ----- the kind of an action -----

  datatype ActionType = Action | Bonus | Reaction | Legendary | Lair | Mythic

  /** The upper-case `action_type` code of each kind. */
  function TypeCode(t: ActionType): string
  {
    match t
    case Action => "ACTION"
    case Bonus => "BONUS_ACTION"
    case Reaction => "REACTION"
    case Legendary => "LEGENDARY_ACTION"
    case Lair => "LAIR_ACTION"
    case Mythic => "MYTHIC_ACTION"
  }

  /** The kind named by an upper-case code; anything else is an action. */
  function TypeOfCode(code: string): (r: ActionType)
  {
    if code == "BONUS_ACTION" then Bonus
    else if code == "REACTION" then Reaction
    else if code == "LEGENDARY_ACTION" then Legendary
    else if code == "LAIR_ACTION" then Lair
    else if code == "MYTHIC_ACTION" then Mythic
    else Action
  }

  /** `normalizeOpen5eActionType`: the kind named by the upper-cased `action_type` text. */
  function TypeOf(action: Value): (r: ActionType)
  {
    TypeOfCode(Upper(SafeString(Get(action, "action_type"), "")))
  }

  /** A code names its kind, and a kind other than a plain action is read only from its own code. */
  lemma TypeOfCodeMeaning(code: string, t: ActionType)
    ensures code == TypeCode(t) ==> TypeOfCode(code) == t
    ensures TypeOfCode(code) == t && t != Action ==> code == TypeCode(t)
  {
  }

  // ----- one action -----

  /** The action's attacks when it has an array of them, none otherwise. */
  function Attacks(action: Value): seq<Value>
  {
    var a := Get(action, "attacks");
    if a.Arr? then a.items else []
  }

  /**
   * `normalizeOpen5eAction`: the name (or "Action"), and the description
   * text, or the attack lines when the description is empty.
   */
  function NormalizeAction(action: Value): (r: NamedText)
  {
    var name := SafeString(Get(action, "name"), "Action");
    var description := FormatterText.DescriptionText(Get(action, "desc"));
    var attacks := Attacks(action);
    if description != [] then NamedText(name, description)
    else if attacks == [] then NamedText(name, "")
    else NamedText(name, FormatterAttacks.AttacksText(attacks))
  }

  /**
   * An action is always named; its text is the description when there is
   * one, and is empty exactly when there is neither a description nor an
   * attack.
   */
  lemma NormalizeActionMeaning(action: Value)
    ensures NormalizeAction(action).name != []
    ensures var d := FormatterText.DescriptionText(Get(action, "desc"));
      (d != [] ==> NormalizeAction(action).desc == d) &&
      (NormalizeAction(action).desc == [] <==> d == [] && Attacks(action) == [])
  {
  }

  // ----- the legendary preamble -----

  /** JavaScript's line terminators, which `.` does not match. */
  predicate IsLineTerminator(c: char)
  {
    c == '\n' || c == '\r' || c == '\U{2028}' || c == '\U{2029}'
  }

  predicate NoLineTerminator(s: string)
  {
    forall i :: 0 <= i < |s| ==> !IsLineTerminator(s[i])
  }

  /** Text starting " can take ", digits, white space, then "legendary action". */
  predicate TakesLegendary(t: string)
  {
    StartsWith(t, " can take ") &&
    var d := SkipWhileFrom(t, 10, IsDigit);
    d > 10 &&
    var v := SkipWhileFrom(t, d, IsSpace);
    v > d && StartsWith(t[v..], "legendary action")
  }

  /**
   * `/^the .+ can take \d+\s+legendary actions?/i` on the lower-case name:
   * "the ", at least one character that is not a line terminator, and then
   * the rest of the sentence.
   */
  predicate IsLegendaryPreamble(name: string)
  {
    StartsWith(name, "the ") &&
    exists p :: 5 <= p <= |name| && NoLineTerminator(name[4..p]) && TakesLegendary(name[p..])
  }

  lemma TakesLegendaryOf(n: char, rest: string)
    requires IsDigit(n)
    ensures TakesLegendary(" can take " + [n] + " legendary action" + rest)
  {
    var tail := "legendary action" + rest;
    var t := " can take " + [n] + " " + tail;
    assert " can take " + [n] + " legendary action" + rest == t;
    StartsWithAppend(" can take ", [n] + " " + tail);
    assert t[10] == n && t[11] == ' ' && t[12] == 'l';
    assert SkipWhileFrom(t, 10, IsDigit) == 11;
    assert SkipWhileFrom(t, 11, IsSpace) == 12;
    assert t[12..] == tail;
    StartsWithAppend("legendary action", rest);
  }

  /**
   * "the X can take N legendary action..." is the preamble for any creature
   * text X without a line break and any digit N.
   */
  lemma PreambleOfSentence(x: string, n: char, rest: string)
    requires x != [] && NoLineTerminator(x) && IsDigit(n)
    ensures IsLegendaryPreamble("the " + x + " can take " + [n] + " legendary action" + rest)
  {
    var t := " can take " + [n] + " legendary action" + rest;
    var name := "the " + x + t;
    assert "the " + x + " can take " + [n] + " legendary action" + rest == name;
    var p := 4 + |x|;
    assert name[..4] == "the ";
    assert name[4..p] == x;
    assert name[p..] == t;
    TakesLegendaryOf(n, rest);
  }

  /** A name that does not start with "the " is never the preamble. */
  lemma PreambleNeedsThe(name: string)
    requires !StartsWith(name, "the ")
    ensures !IsLegendaryPreamble(name)
  {
  }

  // ----- the groups -----

  const GroupCount: nat := 6

  /** The group of each kind, in the order of the result object's keys. */
  function GroupIndex(t: ActionType): (r: nat)
    ensures r < GroupCount
  {
    match t
    case Action => 0
    case Bonus => 1
    case Reaction => 2
    case Legendary => 3
    case Lair => 4
    case Mythic => 5
  }

  lemma GroupIndexInjective(s: ActionType, t: ActionType)
    ensures GroupIndex(s) == GroupIndex(t) ==> s == t
  {
  }

  /** The six groups of `mergeOpen5eActionsByType`, updated in place. */
  class ActionGroups {
    var groups: seq<seq<NamedText>>

    constructor()
      ensures groups == seq(GroupCount, _ => [])
    {
      groups := seq(GroupCount, _ => []);
    }

    /** `grouped[type].push(entry)`. */
    method Push(t: ActionType, entry: NamedText)
      requires |groups| == GroupCount
      modifies this
      ensures groups == old(groups)[GroupIndex(t) := old(groups)[GroupIndex(t)] + [entry]]
    {
      var g := GroupIndex(t);
      groups := groups[g := groups[g] + [entry]];
    }
  }

  /** What the loop reads from one action: its normalized form, its kind, and whether it is the preamble. */
  datatype ActionView = ActionView(entry: NamedText, kind: ActionType, preamble: bool)

  function ActionViewOf(action: Value): (r: ActionView)
  {
    var normalized := NormalizeAction(action);
    // `safeString(normalized.name, '')` is the name itself, which is text.
    ActionView(normalized, TypeOf(action), IsLegendaryPreamble(Lower(normalized.name)))
  }

  function ActionViews(actions: seq<Value>): (r: seq<ActionView>)
    ensures |r| == |actions|
    ensures forall k :: 0 <= k < |actions| ==> r[k] == ActionViewOf(actions[k])
  {
    seq(|actions|, k requires 0 <= k < |actions| => ActionViewOf(actions[k]))
  }

  /** One action: the preamble is dropped, anything else joins its kind's group. */
  function GroupStep(g: seq<seq<NamedText>>, v: ActionView): (r: seq<seq<NamedText>>)
    requires |g| == GroupCount
    ensures |r| == GroupCount
  {
    if v.preamble then g
    else g[GroupIndex(v.kind) := g[GroupIndex(v.kind)] + [v.entry]]
  }

  function GroupUpTo(views: seq<ActionView>, k: nat): (r: seq<seq<NamedText>>)
    requires k <= |views|
    ensures |r| == GroupCount
  {
    if k == 0 then seq(GroupCount, _ => [])
    else GroupStep(GroupUpTo(views, k - 1), views[k - 1])
  }

  /** The groups of `mergeOpen5eActionsByType`; all six empty when the actions are not an array. */
  function MergedByType(actions: Value): (r: seq<seq<NamedText>>)
    ensures |r| == GroupCount
  {
    if actions.Arr? then GroupUpTo(ActionViews(actions.items), |actions.items|)
    else seq(GroupCount, _ => [])
  }

  /** `mergeOpen5eActionsByType`. */
  method MergeActionsByType(actions: Value) returns (grouped: ActionGroups)
    ensures fresh(grouped)
    ensures grouped.groups == MergedByType(actions)
  {
    grouped := new ActionGroups();
    if !actions.Arr? {
      return;
    }
    var views := ActionViews(actions.items);
    for k := 0 to |views|
      invariant grouped.groups == GroupUpTo(views, k)
    {
      var v := views[k];
      if !v.preamble {
        grouped.Push(v.kind, v.entry);
      }
    }
  }

  // ----- what the groups hold -----

  /** The entries of one kind that are not the preamble, in order: the reference the groups are checked against. */
  function KindEntries(views: seq<ActionView>, t: ActionType): (r: seq<NamedText>)
  {
    if views == [] then []
    else
      var v := views[|views| - 1];
      KindEntries(views[..|views| - 1], t) + (if v.kind == t && !v.preamble then [v.entry] else [])
  }

  lemma {:induction false} GroupUpToIsFilter(views: seq<ActionView>, k: nat, t: ActionType)
    requires k <= |views|
    ensures GroupUpTo(views, k)[GroupIndex(t)] == KindEntries(views[..k], t)
  {
    if k > 0 {
      GroupUpToIsFilter(views, k - 1, t);
      assert views[..k][..k - 1] == views[..k - 1];
      GroupIndexInjective(views[k - 1].kind, t);
    }
  }

  lemma {:induction false} KindEntriesMembers(views: seq<ActionView>, t: ActionType)
    ensures forall x :: x in KindEntries(views, t) <==> exists i :: 0 <= i < |views| && views[i].entry == x && views[i].kind == t && !views[i].preamble
  {
    if views != [] {
      var init := views[..|views| - 1];
      KindEntriesMembers(init, t);
      forall x
        ensures x in KindEntries(views, t) <==> exists i :: 0 <= i < |views| && views[i].entry == x && views[i].kind == t && !views[i].preamble
      {
        if x in KindEntries(init, t) {
          var i :| 0 <= i < |init| && init[i].entry == x && init[i].kind == t && !init[i].preamble;
          assert views[i] == init[i];
        }
        if exists i :: 0 <= i < |views| && views[i].entry == x && views[i].kind == t && !views[i].preamble {
          var i :| 0 <= i < |views| && views[i].entry == x && views[i].kind == t && !views[i].preamble;
          if i < |init| {
            assert init[i] == views[i];
          }
        }
      }
    }
  }

  /** Over the whole list, a group holds exactly the entries of its kind that are not the preamble. */
  lemma GroupsMeaning(views: seq<ActionView>, t: ActionType)
    ensures GroupUpTo(views, |views|)[GroupIndex(t)] == KindEntries(views, t)
    ensures forall x :: x in GroupUpTo(views, |views|)[GroupIndex(t)] <==>
      exists i :: 0 <= i < |views| && views[i].entry == x && views[i].kind == t && !views[i].preamble
  {
    GroupUpToIsFilter(views, |views|, t);
    assert views[..|views|] == views;
    KindEntriesMembers(views, t);
  }

  /**
   * Each group is the normalized actions of its kind, in order, leaving out
   * the legendary preamble: an action is in the group of its own kind and of
   * no other.
   */
  lemma MergedByTypeMeaning(actions: seq<Value>, t: ActionType)
    ensures forall x :: x in MergedByType(Arr(actions))[GroupIndex(t)] <==>
      exists i :: 0 <= i < |actions| && ActionViewOf(actions[i]) == ActionView(x, t, false)
  {
    var views := ActionViews(actions);
    GroupsMeaning(views, t);
    assert MergedByType(Arr(actions)) == GroupUpTo(views, |views|);
  }
}
