// Movement in the renderer (scripts/statblock-formatter.js): `toMovement`
// picks the six movement modes out of an Open5E record into a movement
// object, and `movementToText` writes a movement object as the text of the
// Speed line.
module FormatterMovement {
  import opened Text
  import opened Js
  import Formatter
  import FormatterText

  // ----- the movement modes -----

  const SpeedKeyCount: nat := 6

  /** The movement modes, in the order both functions visit them. */
  function SpeedKey(k: nat): string
  {
    match k
    case 0 => "walk"
    case 1 => "fly"
    case 2 => "swim"
    case 3 => "climb"
    case 4 => "burrow"
    case _ => "crawl"
  }

  /** Distinct modes have distinct names; only the first is "walk". */
  lemma SpeedKeysDistinct(j: nat, k: nat)
    requires j < SpeedKeyCount && k < SpeedKeyCount
    ensures SpeedKey(j) == SpeedKey(k) <==> j == k
    ensures SpeedKey(k) == "walk" <==> k == 0
  {
  }

  /** `hasMovementShape`: an object with one of the six modes as an own property. */
  predicate HasMovementShape(v: Value)
  {
    v.Obj? && OwnsModeFrom(v, 0)
  }

  /** One of the modes from `k` on is an own property of `v`. */
  predicate OwnsModeFrom(v: Value, k: nat)
    decreases SpeedKeyCount - k
  {
    k < SpeedKeyCount && (HasOwn(v, SpeedKey(k)) || OwnsModeFrom(v, k + 1))
  }

  lemma {:induction false} OwnsModeFromIff(v: Value, k: nat)
    ensures OwnsModeFrom(v, k) <==> exists j :: k <= j < SpeedKeyCount && HasOwn(v, SpeedKey(j))
    decreases SpeedKeyCount - k
  {
    if k < SpeedKeyCount {
      OwnsModeFromIff(v, k + 1);
      if !HasOwn(v, SpeedKey(k)) && (exists j :: k <= j < SpeedKeyCount && HasOwn(v, SpeedKey(j))) {
        var j :| k <= j < SpeedKeyCount && HasOwn(v, SpeedKey(j));
        assert j != k;
      }
    }
  }

  /** A kept speed: the mode's index and its distance in feet. */
  datatype Speed = Speed(k: nat, feet: real)

  // ----- speeds read mode by mode -----

  /**
   * What each mode contributes, in mode order: nothing, or one speed of
   * that mode with a non-negative distance.
   */
  predicate WellRead(byMode: seq<seq<Speed>>)
  {
    forall k :: 0 <= k < |byMode| ==> |byMode[k]| <= 1 && (byMode[k] != [] ==> byMode[k][0].k == k && byMode[k][0].feet >= 0.0)
  }

  /** The speeds the first `n` modes contribute, one after the other. */
  function Flatten(byMode: seq<seq<Speed>>, n: nat): seq<Speed>
    requires n <= |byMode|
  {
    if n == 0 then [] else Flatten(byMode, n - 1) + byMode[n - 1]
  }

  /** Speeds of the first `n` modes, non-negative, each mode after the one before. */
  predicate InModeOrder(m: seq<Speed>, n: nat)
  {
    && (forall i :: 0 <= i < |m| ==> m[i].k < n && m[i].feet >= 0.0)
    && (forall i, j :: 0 <= i < j < |m| ==> m[i].k < m[j].k)
  }

  lemma AppendInModeOrder(a: seq<Speed>, b: seq<Speed>, n: nat)
    requires n > 0 && InModeOrder(a, n - 1)
    requires |b| <= 1 && (b != [] ==> b[0].k == n - 1 && b[0].feet >= 0.0)
    ensures InModeOrder(a + b, n)
  {
    var r := a + b;
    forall i, j | 0 <= i < j < |r| ensures r[i].k < r[j].k {
      if j >= |a| {
        assert r[i] == a[i] && r[j] == b[0];
      } else {
        assert r[i] == a[i] && r[j] == a[j];
      }
    }
  }

  /** Speeds read mode by mode come out in mode order. */
  lemma {:induction false} FlattenInOrder(byMode: seq<seq<Speed>>, n: nat)
    requires WellRead(byMode) && n <= |byMode|
    ensures InModeOrder(Flatten(byMode, n), n)
  {
    if n > 0 {
      FlattenInOrder(byMode, n - 1);
      AppendInModeOrder(Flatten(byMode, n - 1), byMode[n - 1], n);
    }
  }

  /** The speed a list of kept speeds holds for mode `k`. */
  function LookupSpeed(m: seq<Speed>, k: nat): (r: Option<real>)
  {
    if m == [] then None
    else if m[0].k == k then Some(m[0].feet)
    else LookupSpeed(m[1..], k)
  }

  lemma {:induction false} LookupAppend(a: seq<Speed>, b: seq<Speed>, k: nat)
    ensures LookupSpeed(a + b, k) == if LookupSpeed(a, k).Some? then LookupSpeed(a, k) else LookupSpeed(b, k)
    decreases |a|
  {
    if a != [] {
      assert (a + b)[0] == a[0];
      assert (a + b)[1..] == a[1..] + b;
      LookupAppend(a[1..], b, k);
    } else {
      assert a + b == b;
    }
  }

  /** Mode `k` among speeds read mode by mode holds what that mode contributed. */
  lemma {:induction false} FlattenLookup(byMode: seq<seq<Speed>>, n: nat, k: nat)
    requires WellRead(byMode) && n <= |byMode|
    ensures LookupSpeed(Flatten(byMode, n), k) == if k < n && byMode[k] != [] then Some(byMode[k][0].feet) else None
  {
    if n > 0 {
      FlattenLookup(byMode, n - 1, k);
      LookupAppend(Flatten(byMode, n - 1), byMode[n - 1], k);
      if byMode[n - 1] != [] {
        assert byMode[n - 1] == [byMode[n - 1][0]];
      }
    }
  }

  /** Nothing read from any mode leaves nothing. */
  lemma {:induction false} FlattenNothing(byMode: seq<seq<Speed>>, n: nat)
    requires n <= |byMode| && forall k :: 0 <= k < n ==> byMode[k] == []
    ensures Flatten(byMode, n) == []
  {
    if n > 0 {
      FlattenNothing(byMode, n - 1);
    }
  }

  // ----- toMovement -----

  /**
   * Where `toMovement` reads speeds from: the record's own `speed_all`; else
   * its own `speed` when that has a movement shape; else the record itself
   * when it has one; else an empty object.
   */
  function SpeedSource(input: Value): (r: Value)
    ensures HasOwn(input, "speed_all") ==> r == Get(input, "speed_all")
    ensures !HasOwn(input, "speed_all") && HasOwn(input, "speed") && HasMovementShape(Get(input, "speed")) ==> r == Get(input, "speed")
    ensures !HasOwn(input, "speed_all") && !(HasOwn(input, "speed") && HasMovementShape(Get(input, "speed"))) ==>
      r == if HasMovementShape(input) then input else Obj([])
  {
    if HasOwn(input, "speed_all") then Get(input, "speed_all")
    else if HasOwn(input, "speed") && HasMovementShape(Get(input, "speed")) then Get(input, "speed")
    else if HasMovementShape(input) then input
    else Obj([])
  }

  /** A raw speed: skipped when null, undefined, empty text or a boolean; kept when `safeNumber` reads a finite, non-negative number. */
  function SpeedOf(raw: Value): (r: Option<real>)
    ensures Formatter.Nullish(raw) || raw == Str("") || raw.Bool? ==> r.None?
    ensures r.Some? <==>
      && !(Formatter.Nullish(raw) || raw == Str("") || raw.Bool?)
      && Formatter.SafeNumber(raw, NaN).Finite? && Formatter.SafeNumber(raw, NaN).q >= 0.0
    ensures r.Some? ==> r.value == Formatter.SafeNumber(raw, NaN).q
  {
    if Formatter.Nullish(raw) || raw == Str("") || raw.Bool? then None
    else
      var parsed := Formatter.SafeNumber(raw, NaN);
      if parsed.Finite? && parsed.q >= 0.0 then Some(parsed.q) else None
  }

  /** The speed kept for mode `k`, if the source owns that mode and it reads as a speed. */
  function KeepAt(source: Value, k: nat): (r: seq<Speed>)
    ensures |r| <= 1
    ensures r != [] ==> r[0].k == k && r[0].feet >= 0.0
    ensures r != [] <==> HasOwn(source, SpeedKey(k)) && SpeedOf(Get(source, SpeedKey(k))).Some?
  {
    if HasOwn(source, SpeedKey(k)) then
      match SpeedOf(Get(source, SpeedKey(k)))
      case Some(q) => [Speed(k, q)]
      case None => []
    else []
  }

  /** The speed `toMovement` keeps from each mode of its source. */
  function Kept(source: Value): (r: seq<seq<Speed>>)
    ensures |r| == SpeedKeyCount
  {
    seq(SpeedKeyCount, k requires 0 <= k < SpeedKeyCount => KeepAt(source, k))
  }

  lemma KeptWellRead(source: Value)
    ensures WellRead(Kept(source))
  {
    forall k | 0 <= k < SpeedKeyCount
      ensures |Kept(source)[k]| <= 1
    {
      assert Kept(source)[k] == KeepAt(source, k);
    }
  }

  /** What `toMovement` returns: the kept speeds in mode order. */
  function Movement(source: Value): seq<Speed>
  {
    Flatten(Kept(source), SpeedKeyCount)
  }

  /** A kept speed as the movement object holds it: `key: { value }`. */
  function SpeedProp(s: Speed): Prop
  {
    Prop(SpeedKey(s.k), Obj([Prop("value", Number(Finite(s.feet)))]))
  }

  /** The movement object of kept speeds, as its entries in insertion order. */
  function PropsOf(m: seq<Speed>): (r: seq<Prop>)
    ensures |r| == |m|
  {
    seq(|m|, i requires 0 <= i < |m| => SpeedProp(m[i]))
  }

  /** The movement object as `movementToText` and the statblock read it. */
  function MovementObject(m: seq<Speed>): Value
  {
    Obj(PropsOf(m))
  }

  /**
   * `toMovement(input)`: the speeds of the modes its source owns with a
   * readable, non-negative speed, in mode order (the movement object is
   * `MovementObject` of them).
   */
  method ToMovement(input: Value) returns (movement: seq<Speed>)
    ensures movement == Movement(SpeedSource(input))
  {
    var source := SpeedSource(input);
    movement := [];
    for k := 0 to SpeedKeyCount
      invariant movement == Flatten(Kept(source), k)
    {
      movement := KeepMode(source, k, movement);
    }
  }

  /** One turn of the loop of `toMovement`: mode `k` is kept when the source owns it and its speed reads. */
  method KeepMode(source: Value, k: nat, movement: seq<Speed>) returns (movement': seq<Speed>)
    requires k < SpeedKeyCount && movement == Flatten(Kept(source), k)
    ensures movement' == Flatten(Kept(source), k + 1)
  {
    movement' := movement;
    var key := SpeedKey(k);
    if HasOwn(source, key) {
      var parsed := SpeedOf(Get(source, key));
      if parsed.Some? {
        movement' := movement + [Speed(k, parsed.value)];
      }
    }
    assert movement' == movement + KeepAt(source, k);
  }

  /** `toMovement` keeps speeds in mode order, each non-negative. */
  lemma MovementInOrder(source: Value)
    ensures InModeOrder(Movement(source), SpeedKeyCount)
  {
    KeptWellRead(source);
    FlattenInOrder(Kept(source), SpeedKeyCount);
  }

  /**
   * `toMovement` keeps mode `k` with distance `q` exactly when the source
   * owns that mode and its raw speed reads as `q`.
   */
  lemma MovementKeeps(source: Value, k: nat)
    ensures LookupSpeed(Movement(source), k) ==
      if k < SpeedKeyCount && HasOwn(source, SpeedKey(k)) then SpeedOf(Get(source, SpeedKey(k))) else None
  {
    KeptWellRead(source);
    FlattenLookup(Kept(source), SpeedKeyCount, k);
    if k < SpeedKeyCount {
      assert Kept(source)[k] == KeepAt(source, k);
    }
  }

  // ----- movementToText -----

  /**
   * The speed `movementToText` reads for mode `k`: the mode's `value` field,
   * or the mode's own value when that is null or undefined, read by
   * `safeNumber`; listed when finite and non-negative.
   */
  function ReadAt(movement: Value, k: nat): (r: seq<Speed>)
    ensures |r| <= 1 && (r != [] ==> r[0].k == k && r[0].feet >= 0.0)
  {
    var value := ModeSpeed(movement, SpeedKey(k));
    if value.Finite? && value.q >= 0.0 then [Speed(k, value.q)] else []
  }

  /** `safeNumber(source?.value ?? source, NaN)` with `source = movement?.[key]`. */
  function ModeSpeed(movement: Value, key: string): Num
  {
    var source := Get(movement, key);
    var inner := Get(source, "value");
    Formatter.SafeNumber(if Formatter.Nullish(inner) then source else inner, NaN)
  }

  /** What `movementToText` reads from each mode of a movement object. */
  function ModeReads(movement: Value): (r: seq<seq<Speed>>)
    ensures |r| == SpeedKeyCount
  {
    seq(SpeedKeyCount, k requires 0 <= k < SpeedKeyCount => ReadAt(movement, k))
  }

  lemma ModeReadsWellRead(movement: Value)
    ensures WellRead(ModeReads(movement))
  {
    forall k | 0 <= k < SpeedKeyCount
      ensures |ModeReads(movement)[k]| <= 1
    {
      assert ModeReads(movement)[k] == ReadAt(movement, k);
    }
  }

  /** The speeds a movement object lists, in mode order. */
  function Listed(movement: Value): seq<Speed>
  {
    Flatten(ModeReads(movement), SpeedKeyCount)
  }

  /** A mode's label: none for walk, the title-cased mode and a space otherwise. */
  function Label(k: nat): string
  {
    if SpeedKey(k) == "walk" then "" else FormatterText.TitleCase(SpeedKey(k)) + " "
  }

  /** One part of the Speed line: the label, the distance and "ft.", trimmed. */
  function SpeedPart(s: Speed): string
  {
    Trim(Label(s.k) + NumberText(s.feet) + " ft.")
  }

  /** The parts of the listed speeds, one per speed, in order. */
  function Parts(m: seq<Speed>): (r: seq<string>)
    ensures |r| == |m| && forall i :: 0 <= i < |m| ==> r[i] == SpeedPart(m[i])
  {
    seq(|m|, i requires 0 <= i < |m| => SpeedPart(m[i]))
  }

  /** The names of the listed modes, in order. */
  function Modes(m: seq<Speed>): (r: seq<string>)
    ensures |r| == |m| && forall i :: 0 <= i < |m| ==> r[i] == SpeedKey(m[i].k)
  {
    seq(|m|, i requires 0 <= i < |m| => SpeedKey(m[i].k))
  }

  /** `part.replace(/^walk\s+/i, '')`. */
  function WalkStripped(part: string): (r: string)
  {
    if |part| >= 5 && Lower(part[..4]) == "walk" && IsSpace(part[4]) then part[SkipWhileFrom(part, 4, IsSpace)..]
    else part
  }

  /**
   * The Speed line of listed speeds: "30 ft." when none is listed;
   * otherwise the parts joined by ", ", with a leading "walk " taken off
   * the first part when walk is listed.
   */
  function SpeedLine(listed: seq<Speed>): string
  {
    var parts := Parts(listed);
    if parts == [] then "30 ft."
    else if "walk" !in Modes(listed) then Join(parts, ", ")
    else if |parts| == 1 then WalkStripped(parts[0])
    else Join([WalkStripped(parts[0])] + parts[1..], ", ")
  }

  /** `movementToText(movement)`. */
  function MovementText(movement: Value): string
  {
    SpeedLine(Listed(movement))
  }

  method MovementToText(movement: Value) returns (text: string)
    ensures text == MovementText(movement)
  {
    var parts, included := ListModes(movement);
    if parts == [] {
      text := "30 ft.";
    } else if "walk" !in included {
      text := Join(parts, ", ");
    } else if |parts| == 1 {
      text := WalkStripped(parts[0]);
    } else {
      text := Join([WalkStripped(parts[0])] + parts[1..], ", ");
    }
  }

  /** The loop of `movementToText`: the part of each listed mode, and the listed modes. */
  method ListModes(movement: Value) returns (parts: seq<string>, included: seq<string>)
    ensures parts == Parts(Listed(movement))
    ensures included == Modes(Listed(movement))
  {
    parts := [];
    included := [];
    ghost var listed: seq<Speed> := [];
    for k := 0 to SpeedKeyCount
      invariant listed == Flatten(ModeReads(movement), k)
      invariant parts == Parts(listed) && included == Modes(listed)
    {
      listed, parts, included := ListMode(movement, k, listed, parts, included);
    }
  }

  /** One turn of the loop of `movementToText`: mode `k` adds its part and its name when its speed reads as a distance. */
  method ListMode(movement: Value, k: nat, ghost listed: seq<Speed>, parts: seq<string>, included: seq<string>)
    returns (ghost listed': seq<Speed>, parts': seq<string>, included': seq<string>)
    requires k < SpeedKeyCount && listed == Flatten(ModeReads(movement), k)
    requires parts == Parts(listed) && included == Modes(listed)
    ensures listed' == Flatten(ModeReads(movement), k + 1)
    ensures parts' == Parts(listed') && included' == Modes(listed')
  {
    var key := SpeedKey(k);
    var value := ModeSpeed(movement, key);
    listed', parts', included' := listed, parts, included;
    if value.Finite? && value.q >= 0.0 {
      PartsSnoc(listed, Speed(k, value.q));
      listed' := listed + [Speed(k, value.q)];
      parts' := parts + [SpeedPart(Speed(k, value.q))];
      included' := included + [key];
    }
    assert listed' == listed + ReadAt(movement, k);
  }

  lemma PartsSnoc(m: seq<Speed>, s: Speed)
    ensures Parts(m + [s]) == Parts(m) + [SpeedPart(s)]
    ensures Modes(m + [s]) == Modes(m) + [SpeedKey(s.k)]
  {
  }

  // ----- what the text says -----

  /** The text of a non-negative number starts with a digit. */
  lemma NumberTextLeadingDigit(q: real)
    requires q >= 0.0
    ensures NumberText(q) != [] && IsDigit(NumberText(q)[0])
  {
    if !IsInteger(q) {
      var w := q.Floor;
      assert NumberText(q) == NatToString(w) + "." + FracDigits(q - w as real, 20);
    }
  }

  /** Walk's part is the bare distance: "30 ft.". */
  lemma WalkPart(q: real)
    requires q >= 0.0
    ensures SpeedPart(Speed(0, q)) == NumberText(q) + " ft."
  {
    var x := NumberText(q) + " ft.";
    NumberTextLeadingDigit(q);
    assert Label(0) == "";
    assert "" + NumberText(q) + " ft." == x;
    assert TrimStart(x) == x;
    assert TrimEnd(x) == x;
  }

  /** The leading-walk replacement never fires: a part starting with a digit has no "walk " to take off. */
  lemma WalkStrippedKeepsDistance(part: string)
    requires part != [] && IsDigit(part[0])
    ensures WalkStripped(part) == part
  {
    if |part| >= 5 {
      assert Lower(part[..4])[0] == LowerChar(part[0]) != 'w';
    }
  }

  /**
   * The Speed line of speeds in mode order lists every one of them, joined
   * by ", ", or says "30 ft." when there is none: the walk replacement
   * changes nothing.
   */
  lemma SpeedLineLists(listed: seq<Speed>)
    requires InModeOrder(listed, SpeedKeyCount)
    ensures SpeedLine(listed) == if listed == [] then "30 ft." else Join(Parts(listed), ", ")
  {
    var parts := Parts(listed);
    if parts != [] && "walk" in Modes(listed) {
      var i :| 0 <= i < |listed| && Modes(listed)[i] == "walk";
      SpeedKeysDistinct(listed[i].k, 0);
      var first := listed[0];
      assert i == 0;
      WalkPart(first.feet);
      WalkStrippedKeepsDistance(parts[0]);
      if |parts| > 1 {
        assert [WalkStripped(parts[0])] + parts[1..] == parts;
      }
    }
  }

  /** `movementToText` lists every listed mode in mode order, or says "30 ft.". */
  lemma MovementTextLists(movement: Value)
    ensures var listed := Listed(movement);
      MovementText(movement) == if listed == [] then "30 ft." else Join(Parts(listed), ", ")
  {
    ModeReadsWellRead(movement);
    FlattenInOrder(ModeReads(movement), SpeedKeyCount);
    SpeedLineLists(Listed(movement));
  }

  /** When nothing can be read the line says "30 ft.". */
  lemma EmptyMovementText()
    ensures MovementText(Obj([])) == "30 ft."
  {
    var byMode := ModeReads(Obj([]));
    forall k | 0 <= k < SpeedKeyCount
      ensures byMode[k] == []
    {
      assert byMode[k] == ReadAt(Obj([]), k);
      assert Get(Obj([]), SpeedKey(k)) == Undefined;
      assert Formatter.SafeNumber(Undefined, NaN) == NaN;
    }
    FlattenNothing(byMode, SpeedKeyCount);
  }

  // ----- round trip -----

  /** Looking a mode up in a movement object finds the kept speed's `{ value }`. */
  lemma {:induction false} GetOfProps(m: seq<Speed>, k: nat)
    requires k < SpeedKeyCount && forall i :: 0 <= i < |m| ==> m[i].k < SpeedKeyCount
    ensures Get(Obj(PropsOf(m)), SpeedKey(k)) ==
      match LookupSpeed(m, k)
      case Some(q) => Obj([Prop("value", Number(Finite(q)))])
      case None => Undefined
    decreases |m|
  {
    if m != [] {
      SpeedKeysDistinct(m[0].k, k);
      var props := PropsOf(m);
      if m[0].k != k {
        GetOfProps(m[1..], k);
        assert props[1..] == PropsOf(m[1..]);
        match FindKey(props[1..], SpeedKey(k))
        case None =>
        case Some(i) =>
      }
    }
  }

  /** Reading a mode back from the movement object gives the speed that was kept. */
  lemma {:induction false} LookupNonNegative(m: seq<Speed>, k: nat)
    requires forall i :: 0 <= i < |m| ==> m[i].feet >= 0.0
    ensures LookupSpeed(m, k).Some? ==> LookupSpeed(m, k).value >= 0.0
  {
    if m != [] && m[0].k != k {
      LookupNonNegative(m[1..], k);
    }
  }

  lemma ReadAtOfProps(m: seq<Speed>, k: nat)
    requires k < SpeedKeyCount && InModeOrder(m, SpeedKeyCount)
    ensures ReadAt(Obj(PropsOf(m)), k) == match LookupSpeed(m, k) case Some(q) => [Speed(k, q)] case None => []
  {
    GetOfProps(m, k);
    match LookupSpeed(m, k)
    case Some(q) =>
      var source := Obj([Prop("value", Number(Finite(q)))]);
      assert FindKey(source.props, "value") == Some(0);
      assert Get(source, "value") == Number(Finite(q));
      LookupNonNegative(m, k);
    case None =>
  }

  /** Each mode of `toMovement`'s object reads back as what `toMovement` kept from it. */
  lemma ModeReadsOfMovement(source: Value)
    ensures ModeReads(MovementObject(Movement(source))) == Kept(source)
  {
    forall k | 0 <= k < SpeedKeyCount
      ensures ModeReads(MovementObject(Movement(source)))[k] == Kept(source)[k]
    {
      ReadBackAt(source, k);
    }
  }

  lemma ReadBackAt(source: Value, k: nat)
    requires k < SpeedKeyCount
    ensures ReadAt(MovementObject(Movement(source)), k) == KeepAt(source, k)
  {
    MovementInOrder(source);
    ReadAtOfProps(Movement(source), k);
    MovementKeeps(source, k);
  }

  /**
   * The Speed line of `toMovement`'s object lists exactly the kept modes, in
   * mode order, walk unlabelled; "30 ft." when none was kept.
   */
  lemma MovementRoundTrip(input: Value)
    ensures var m := Movement(SpeedSource(input));
      MovementText(MovementObject(m)) == if m == [] then "30 ft." else Join(Parts(m), ", ")
  {
    var m := Movement(SpeedSource(input));
    ModeReadsOfMovement(SpeedSource(input));
    assert Listed(MovementObject(m)) == m;
    MovementTextLists(MovementObject(m));
  }
}
