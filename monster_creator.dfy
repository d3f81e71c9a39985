// The helpers of the monster creator (scripts/monster-creator.js) that
// normalize what the form, the text parser and the lookup box hand over:
// the API root, clamping, the safe conversions, the challenge-rating reader,
// the in-place clean-up of a parsed actor, the lookup-input classification
// and the payload of the manual form. The configured API root, which comes
// from a global or a game setting, is a parameter.
module MonsterCreator {
  import opened Text
  import opened Js
  import Formatter

  // ----- the API root -----

  /** The text without the run of "/" at its end. */
  function DropTrailingSlashes(s: string): (r: string)
    ensures |r| <= |s| && r == s[..|r|] && (r == [] || r[|r| - 1] != '/')
    ensures forall i :: |r| <= i < |s| ==> s[i] == '/'
  {
    if s != [] && s[|s| - 1] == '/' then DropTrailingSlashes(s[..|s| - 1]) else s
  }

  /** `normalizeOpen5eApiRoot(value)`: "" for anything but text; otherwise trimmed, without its trailing slashes. */
  function NormalizeApiRoot(v: Value): (r: string)
  {
    if !v.Str? then "" else DropTrailingSlashes(Trim(v.s))
  }

  /**
   * The normalized root is the trimmed text up to its run of trailing
   * slashes: adding those slashes back gives the trimmed text, and the root
   * itself never ends with "/".
   */
  lemma ApiRootRebuilds(s: string)
    ensures var r := NormalizeApiRoot(Str(s));
      |r| <= |Trim(s)| && r == Trim(s)[..|r|] && (r == [] || r[|r| - 1] != '/')
      && forall i :: |r| <= i < |Trim(s)| ==> Trim(s)[i] == '/'
  {
  }

  /** Anything but text normalizes to "". */
  lemma ApiRootOfNonText(v: Value)
    requires !v.Str?
    ensures NormalizeApiRoot(v) == ""
  {
  }

  // ----- clamp, safeInt, safeNumber, safeString -----

  /** `clamp(value, min, max)`: `min` when `Number(value)` is not finite, otherwise the value forced into [min, max]. */
  function Clamp(v: Value, min: real, max: real): (r: real)
    ensures !ToNumber(v).Finite? ==> r == min
    ensures r >= min && (min <= max ==> r <= max)
    ensures min <= max && ToNumber(v).Finite? && min <= ToNumber(v).q <= max ==> r == ToNumber(v).q
  {
    var parsed := ToNumber(v);
    if !parsed.Finite? then min
    else
      var below := if max < parsed.q then max else parsed.q;
      if min > below then min else below
  }

  /** Clamping a clamped number changes nothing. */
  lemma ClampIdempotent(v: Value, min: real, max: real)
    requires min <= max
    ensures Clamp(Number(Finite(Clamp(v, min, max))), min, max) == Clamp(v, min, max)
  {
  }

  /** `safeInt(value, fallback)`: at least 1 and whole when `Number(value)` is finite, the fallback otherwise. */
  function SafeInt(v: Value, fallback: int): (r: int)
    ensures ToNumber(v).Finite? ==> r >= 1 && (r > 1 ==> r as real <= ToNumber(v).q < r as real + 1.0)
    ensures ToNumber(v).Finite? && ToNumber(v).q < 2.0 ==> r == 1
    ensures !ToNumber(v).Finite? ==> r == fallback
  {
    var parsed := ToNumber(v);
    if parsed.Finite? then (if parsed.q.Floor < 1 then 1 else parsed.q.Floor) else fallback
  }

  /** The text of a whole number reads back as that number, raised to 1. */
  lemma {:induction false} SafeIntOfNat(n: nat, fallback: int)
    ensures SafeInt(Str(NatToString(n)), fallback) == if n == 0 then 1 else n
  {
    StringToNumberOfNat(n);
  }

  /**
   * `safeNumber(value, fallback)` of the monster creator: an object is read
   * through its own `value`, `number` or `distance` field; a finite number is
   * kept; trimmed text is read as a leading fraction with a non-zero
   * denominator, else as `Number` of the text without its commas; anything
   * else through `Number`. What is not finite gives the fallback.
   */
  function SafeNumber(v: Value, fallback: Num): (r: Num)
    ensures r == fallback || r.Finite?
    ensures Formatter.Nullish(v) ==> r == fallback
    ensures v.Number? ==> r == if v.n.Finite? then v.n else fallback
    decreases v
  {
    match v
    case Undefined => fallback
    case Null => fallback
    case Number(n) => if n.Finite? then n else fallback
    case Str(s) =>
      var t := Trim(s);
      if t == [] then fallback
      else
        var frac := Formatter.LeadingFraction(t);
        if frac.Some? && frac.value.1 != 0.0 then Finite(frac.value.0 / frac.value.1)
        else
          var parsed := StringToNumber(DropCommas(t));
          if parsed.Finite? then parsed else fallback
    case Obj(props) =>
      var k := Formatter.FirstOwn(props, ["value", "number", "distance"]);
      if k.Some? then SafeNumber(props[k.value].val, fallback) else fallback
    case Bool(_) => var parsed := ToNumber(v); if parsed.Finite? then parsed else fallback
    case Arr(_) => var parsed := ToNumber(v); if parsed.Finite? then parsed else fallback
  }

  /** The text of a whole number reads back as that number. */
  lemma {:induction false} SafeNumberOfNat(n: nat, fallback: Num)
    ensures SafeNumber(Str(NatToString(n)), fallback) == Finite(n as real)
  {
    var t := NatToString(n);
    Formatter.TrimTight(t);
    Formatter.SafeNumberOfNat(n, fallback);
    assert Formatter.LeadingFraction(t).None?;
    DropCommasOfDigits(t);
    StringToNumberOfNat(n);
  }

  /** Digits have no commas to drop. */
  lemma {:induction false} DropCommasOfDigits(t: string)
    requires forall i :: 0 <= i < |t| ==> IsDigit(t[i])
    ensures DropCommas(t) == t
  {
    if t != [] {
      DropCommasOfDigits(t[1..]);
      assert [t[0]] + t[1..] == t;
    }
  }

  /**
   * `safeString(value, fallback)` of the monster creator: null and undefined
   * give the fallback; an object is unwrapped through its own `value`,
   * `name`, `text` or `desc` field; anything else is `String(value)`
   * trimmed, with blank text giving the fallback.
   */
  function SafeString(v: Value, fallback: string): (r: string)
    ensures r == fallback || (r != [] && !IsSpace(r[0]) && !IsSpace(r[|r| - 1]))
    ensures Formatter.Nullish(v) ==> r == fallback
    ensures v.Str? ==> r == if Trim(v.s) == [] then fallback else Trim(v.s)
    decreases v
  {
    match v
    case Undefined => fallback
    case Null => fallback
    case Obj(props) =>
      var k := Formatter.FirstOwn(props, ["value", "name", "text", "desc"]);
      if k.Some? then SafeString(props[k.value].val, fallback)
      else Trimmed(ToString(v), fallback)
    case _ => Trimmed(ToString(v), fallback)
  }

  /** `text.trim() === '' ? fallback : text.trim()`. */
  function Trimmed(text: string, fallback: string): (r: string)
    ensures r == fallback || (r != [] && r == Trim(text))
  {
    if Trim(text) == [] then fallback else Trim(text)
  }

  /** An object with none of the four fields is read as "[object Object]", not as the fallback. */
  lemma PlainObjectText(props: seq<Prop>, fallback: string)
    requires forall k :: k in ["value", "name", "text", "desc"] ==> FindKey(props, k).None?
    ensures SafeString(Obj(props), fallback) == "[object Object]"
  {
    var t := "[object Object]";
    assert Trim(t) == t by {
      Formatter.TrimTight(t);
    }
  }

  // ----- parseNumericString -----

  /** `value ?? number ?? distance` on an object: the index of the property it reads, None when that is undefined. */
  function NestedIndex(props: seq<Prop>): (r: Option<nat>)
    ensures r.Some? ==> r.value < |props| && !props[r.value].val.Undefined?
  {
    var kv := FindKey(props, "value");
    var kn := FindKey(props, "number");
    var kd := FindKey(props, "distance");
    if kv.Some? && !Formatter.Nullish(props[kv.value].val) then kv
    else if kn.Some? && !Formatter.Nullish(props[kn.value].val) then kn
    else if kd.Some? && !props[kd.value].val.Undefined? then kd
    else None
  }

  /**
   * The first match of `[-+]?\d*\.?\d+` at or after `i`: the leftmost
   * position where a decimal starts, with a sign just before it included.
   */
  function FirstNumber(s: string, i: nat): (r: Option<real>)
    requires i <= |s|
    decreases |s| - i
  {
    if i == |s| then None
    else match SignedDecimalAt(s, i, false)
      case Some(d) => Some(d.0)
      case None => FirstNumber(s, i + 1)
  }

  /**
   * `parseNumericString(value, fallback)`: a finite number as it is; an
   * object through `value ?? number ?? distance` when that is defined;
   * otherwise the first number in its safe text, or the fallback.
   */
  function ParseNumericString(v: Value, fallback: Num): (r: Num)
    ensures r == fallback || r.Finite?
    ensures Formatter.Nullish(v) ==> r == fallback
    ensures v.Number? ==> r == if v.n.Finite? then v.n else fallback
    decreases v
  {
    match v
    case Undefined => fallback
    case Null => fallback
    case Number(n) => if n.Finite? then n else fallback
    case Obj(props) =>
      var k := NestedIndex(props);
      if k.Some? then ParseNumericString(props[k.value].val, fallback) else NumberInText(v, fallback)
    case _ => NumberInText(v, fallback)
  }

  /** The first number in the value's safe text, or the fallback. */
  function NumberInText(v: Value, fallback: Num): (r: Num)
    ensures r == fallback || r.Finite?
  {
    var text := SafeString(v, "");
    if text == [] then fallback
    else match FirstNumber(text, 0)
      case Some(q) => Finite(q)
      case None => fallback
  }

  /** A number written among other text is found: "30 ft." reads as 30. */
  lemma {:induction false} NumberAfterText(p: string, n: nat, q: string)
    requires forall i :: 0 <= i < |p| ==> !IsDigit(p[i]) && p[i] != '.' && p[i] != '-' && p[i] != '+'
    requires q != [] ==> q[0] != '.' && !IsDigit(q[0])
    ensures FirstNumber(p + NatToString(n) + q, 0) == Some(n as real)
  {
    var t := p + NatToString(n) + q;
    Formatter.NatIn(t, p, n, q);
    NoNumberBefore(t, p, 0);
  }

  lemma {:induction false} NoNumberBefore(t: string, p: string, i: nat)
    requires |p| <= |t| && i <= |p| && t[..|p|] == p
    requires forall j :: 0 <= j < |p| ==> !IsDigit(p[j]) && p[j] != '.' && p[j] != '-' && p[j] != '+'
    ensures FirstNumber(t, i) == FirstNumber(t, |p|)
    decreases |p| - i
  {
    if i < |p| {
      assert t[i] == p[i];
      assert SkipWhileFrom(t, i, IsDigit) == i;
      assert SignedDecimalAt(t, i, false).None?;
      NoNumberBefore(t, p, i + 1);
    }
  }

  /** A speed written as an object is read through its `value` field. */
  lemma NumericValueField(x: Value, rest: seq<Prop>, fallback: Num)
    requires !Formatter.Nullish(x)
    ensures ParseNumericString(Obj([Prop("value", x)] + rest), fallback) == ParseNumericString(x, fallback)
  {
    var props := [Prop("value", x)] + rest;
    assert FindKey(props, "value") == Some(0);
    assert NestedIndex(props) == Some(0);
  }

  // ----- parseChallengeRating -----

  /**
   * `parseChallengeRating(value, fallback)`: the safe text without commas;
   * blank text gives the fallback, "½" is 0.5, text with "/" is the quotient
   * of `parseFloat` of its first two pieces when both are finite and the
   * second is not 0 (the fallback otherwise), and other text is its
   * `parseFloat` when finite.
   */
  function ParseChallengeRating(v: Value, fallback: Num): (r: Num)
    ensures r == fallback || r.Finite?
  {
    ChallengeOfRaw(DropCommas(SafeString(v, "")), fallback)
  }

  /** The challenge read from the safe text once its commas are gone. */
  function ChallengeOfRaw(raw: string, fallback: Num): (r: Num)
    ensures r == fallback || r.Finite?
  {
    if raw == [] then fallback
    else if raw == "\U{00BD}" then Finite(0.5)
    else if '/' in raw then
      var parts := Split(raw, '/');
      assert |parts| >= 2 by {
        SlashCuts(raw);
      }
      var left, right := ParseFloat(parts[0]), ParseFloat(parts[1]);
      if left.Finite? && right.Finite? && right.q != 0.0 then Finite(left.q / right.q) else fallback
    else
      var parsed := ParseFloat(raw);
      if parsed.Finite? then parsed else fallback
  }

  /** Text holding the separator splits into at least two pieces. */
  lemma SlashCuts(raw: string)
    requires '/' in raw
    ensures |Split(raw, '/')| >= 2
  {
  }

  /** "½" is one half. */
  lemma ChallengeOfHalf(fallback: Num)
    ensures ParseChallengeRating(Str("\U{00BD}"), fallback) == Finite(0.5)
  {
    Formatter.TrimTight("\U{00BD}");
    assert DropCommas("\U{00BD}") == "\U{00BD}";
  }

  /** A whole number of digits is its value. */
  lemma {:induction false} ChallengeOfNat(n: nat, fallback: Num)
    ensures ParseChallengeRating(Str(NatToString(n)), fallback) == Finite(n as real)
  {
    var t := NatToString(n);
    Formatter.TrimTight(t);
    DropCommasOfDigits(t);
    assert '/' !in t && t != "\U{00BD}" by {
      assert IsDigit(t[0]);
    }
    ParseFloatNatToString(n);
  }

  /** "a/b" with b not 0 is a/b. */
  lemma {:induction false} ChallengeOfFraction(a: nat, b: nat, fallback: Num)
    requires b != 0
    ensures ParseChallengeRating(Str(NatToString(a) + "/" + NatToString(b)), fallback) == Finite(a as real / b as real)
  {
    ParseFloatNatToString(a);
    ParseFloatNatToString(b);
    FractionOfNumbers(NatToString(a), NatToString(b), a as real, b as real, fallback);
  }

  lemma FractionOfNumbers(x: string, y: string, a: real, b: real, fallback: Num)
    requires b != 0.0 && x != [] && y != []
    requires forall i :: 0 <= i < |x| ==> IsDigit(x[i])
    requires forall i :: 0 <= i < |y| ==> IsDigit(y[i])
    requires ParseFloat(x) == Finite(a) && ParseFloat(y) == Finite(b)
    ensures ParseChallengeRating(Str(x + "/" + y), fallback) == Finite(a / b)
  {
    FractionOfDigits(x, y, fallback);
  }

  /** "a/0" reads as the fallback. */
  lemma {:induction false} ChallengeOfZeroDenominator(a: nat, fallback: Num)
    ensures ParseChallengeRating(Str(NatToString(a) + "/" + NatToString(0)), fallback) == fallback
  {
    FractionOfDigits(NatToString(a), NatToString(0), fallback);
    ParseFloatNatToString(0);
  }

  /** Digits around a slash are read as the quotient of the two numbers. */
  lemma FractionOfDigits(x: string, y: string, fallback: Num)
    requires x != [] && y != []
    requires forall i :: 0 <= i < |x| ==> IsDigit(x[i])
    requires forall i :: 0 <= i < |y| ==> IsDigit(y[i])
    ensures var l, r := ParseFloat(x), ParseFloat(y);
      ParseChallengeRating(Str(x + "/" + y), fallback)
      == if l.Finite? && r.Finite? && r.q != 0.0 then Finite(l.q / r.q) else fallback
  {
    FractionText(x, y, fallback);
    FractionOfRaw(x, y, fallback);
  }

  /** Digits around a slash are the raw text read. */
  lemma FractionText(x: string, y: string, fallback: Num)
    requires x != [] && y != []
    requires forall i :: 0 <= i < |x| ==> IsDigit(x[i])
    requires forall i :: 0 <= i < |y| ==> IsDigit(y[i])
    ensures ParseChallengeRating(Str(x + "/" + y), fallback) == ChallengeOfRaw(x + "/" + y, fallback)
  {
    var t := x + "/" + y;
    assert t[0] == x[0] && t[|t| - 1] == y[|y| - 1];
    Formatter.TrimTight(t);
    DropCommasSlash(x, y);
  }

  /** Text "x/y" without a further slash is read as the quotient of its two pieces. */
  lemma FractionOfRaw(x: string, y: string, fallback: Num)
    requires x != [] && IsDigit(x[0])
    requires forall i :: 0 <= i < |x| ==> x[i] != '/'
    requires forall i :: 0 <= i < |y| ==> y[i] != '/'
    ensures var l, r := ParseFloat(x), ParseFloat(y);
      ChallengeOfRaw(x + "/" + y, fallback)
      == if l.Finite? && r.Finite? && r.q != 0.0 then Finite(l.q / r.q) else fallback
  {
    var t := x + "/" + y;
    assert t[|x|] == '/' && t[0] == x[0];
    assert Split(t, '/') == [x, y] by {
      SplitAtFirst(x, '/', y);
      SplitNoSep(y, '/');
    }
  }

  lemma DropCommasSlash(x: string, y: string)
    requires forall i :: 0 <= i < |x| ==> IsDigit(x[i])
    requires forall i :: 0 <= i < |y| ==> IsDigit(y[i])
    ensures DropCommas(x + "/" + y) == x + "/" + y
  {
    DropCommasOfDigits(x);
    DropCommasOfDigits(y);
    DropCommasAppend(x + "/", y);
    DropCommasAppend(x, "/");
    assert DropCommas("/") == "/";
  }

  lemma {:induction false} DropCommasAppend(a: string, b: string)
    ensures DropCommas(a + b) == DropCommas(a) + DropCommas(b)
  {
    if a != [] {
      assert (a + b)[1..] == a[1..] + b;
      DropCommasAppend(a[1..], b);
    } else {
      assert a + b == b;
    }
  }

  // ----- sanitizeParsedSbiActor -----

  /** `{ ...props, [key]: v }`: an own property keeps its place and takes the new value; a new one goes last. */
  function SetProp(props: seq<Prop>, key: string, v: Value): (r: seq<Prop>)
    ensures Get(Obj(r), key) == v
  {
    match FindKey(props, key)
    case Some(i) => FindKeyReplaced(props, i, key, v); props[i := Prop(key, v)]
    case None => FindKeyAppended(props, Prop(key, v)); props + [Prop(key, v)]
  }

  lemma FindKeyAppended(props: seq<Prop>, x: Prop)
    requires FindKey(props, x.key).None?
    ensures FindKey(props + [x], x.key) == Some(|props|)
  {
    var q := props + [x];
    assert q[|props|].key == x.key;
    assert forall j :: 0 <= j < |props| ==> q[j].key != x.key;
  }

  lemma FindKeyReplaced(props: seq<Prop>, i: nat, key: string, v: Value)
    requires FindKey(props, key) == Some(i)
    ensures FindKey(props[i := Prop(key, v)], key) == Some(i)
  {
    var q := props[i := Prop(key, v)];
    assert q[i].key == key;
    assert forall j :: 0 <= j < i ==> q[j].key != key;
  }

  /** Setting one property leaves every other property as it was. */
  lemma SetPropOther(props: seq<Prop>, key: string, v: Value, other: string)
    requires other != key
    ensures Get(Obj(SetProp(props, key, v)), other) == Get(Obj(props), other)
  {
    var r := SetProp(props, key, v);
    match FindKey(props, key)
    case Some(i) =>
      SameKeys(props, r, other);
    case None =>
      FindKeyAppend(props, Prop(key, v), other);
  }

  /** Setting a property to the value it holds changes nothing. */
  lemma SetPropSame(props: seq<Prop>, key: string)
    requires FindKey(props, key).Some?
    ensures SetProp(props, key, Get(Obj(props), key)) == props
  {
  }

  lemma {:induction false} SameKeys(p: seq<Prop>, q: seq<Prop>, key: string)
    requires |p| == |q| && forall j :: 0 <= j < |p| ==> p[j].key == q[j].key
    requires forall j :: 0 <= j < |p| && p[j].key == key ==> p[j] == q[j]
    ensures FindKey(p, key) == FindKey(q, key)
    ensures Get(Obj(p), key) == Get(Obj(q), key)
  {
    if p != [] {
      SameKeys(p[1..], q[1..], key);
    }
  }

  lemma {:induction false} FindKeyAppend(p: seq<Prop>, x: Prop, key: string)
    requires x.key != key
    ensures FindKey(p + [x], key) == FindKey(p, key)
    ensures Get(Obj(p + [x]), key) == Get(Obj(p), key)
  {
    if p != [] {
      assert (p + [x])[1..] == p[1..] + [x];
      FindKeyAppend(p[1..], x, key);
    }
  }

  /** `replace(/[^a-z]/g, '')`: the lower-case letters of the text, in order. */
  function LettersOnly(s: string): (r: string)
    ensures forall i :: 0 <= i < |r| ==> IsLower(r[i])
  {
    if s == [] then [] else (if IsLower(s[0]) then [s[0]] else []) + LettersOnly(s[1..])
  }

  /** Text of lower-case letters keeps all of them. */
  lemma {:induction false} LettersOnlyKeeps(s: string)
    requires forall i :: 0 <= i < |s| ==> IsLower(s[i])
    ensures LettersOnly(s) == s
  {
    if s != [] {
      LettersOnlyKeeps(s[1..]);
      assert [s[0]] + s[1..] == s;
    }
  }

  /** The cleaned speed name: the safe text of `name`, lower-cased, with everything but a-z removed. */
  function SpeedName(entry: Value): (r: string)
    ensures forall i :: 0 <= i < |r| ==> IsLower(r[i])
  {
    LettersOnly(Lower(SafeString(Get(entry, "name"), "")))
  }

  /**
   * One entry of the `speeds` map: anything but an object is dropped, and so
   * is an entry whose value does not read as a finite number of at least 0;
   * the others are copied with the cleaned name and the number as value.
   * (An array reads its `value` as undefined, so it is always dropped.)
   */
  function NormalizeSpeed(entry: Value): (r: Option<Value>)
  {
    if !entry.Obj? then None
    else
      var value := ParseNumericString(Get(entry, "value"), NaN);
      if !value.Finite? || value.q < 0.0 then None
      else Some(Obj(SetProp(SetProp(entry.props, "name", Str(SpeedName(entry))), "value", Number(value))))
  }

  /** A cleaned speed: an object whose name is lower-case letters and whose value is a finite number of at least 0. */
  predicate CleanSpeed(e: Value)
  {
    e.Obj?
    && Get(e, "name").Str? && (forall i :: 0 <= i < |Get(e, "name").s| ==> IsLower(Get(e, "name").s[i]))
    && Get(e, "value").Number? && Get(e, "value").n.Finite? && Get(e, "value").n.q >= 0.0
  }

  /** A kept entry is clean, carries the cleaned name and the number read, and keeps its other properties. */
  lemma NormalizedSpeedIsClean(entry: Value)
    requires NormalizeSpeed(entry).Some?
    ensures var e := NormalizeSpeed(entry).value;
      CleanSpeed(e) && Get(e, "name") == Str(SpeedName(entry))
      && Get(e, "value") == Number(ParseNumericString(Get(entry, "value"), NaN))
      && forall k :: k != "name" && k != "value" ==> Get(e, k) == Get(entry, k)
  {
    var p1 := SetProp(entry.props, "name", Str(SpeedName(entry)));
    var value := ParseNumericString(Get(entry, "value"), NaN);
    SetPropOther(p1, "value", Number(value), "name");
    forall k | k != "name" && k != "value"
      ensures Get(Obj(SetProp(p1, "value", Number(value))), k) == Get(entry, k)
    {
      SetPropOther(p1, "value", Number(value), k);
      SetPropOther(entry.props, "name", Str(SpeedName(entry)), k);
    }
  }

  /** A clean entry comes through unchanged. */
  lemma CleanSpeedKept(e: Value)
    requires CleanSpeed(e)
    ensures NormalizeSpeed(e) == Some(e)
  {
    var name := Get(e, "name").s;
    assert SpeedName(e) == name by {
      assert forall i :: 0 <= i < |name| ==> !IsSpace(name[i]);
      if name != [] {
        Formatter.TrimTight(name);
      } else {
        assert Trim(name) == [];
      }
      assert Lower(name) == name;
      LettersOnlyKeeps(name);
    }
    assert HasOwn(e, "name") && HasOwn(e, "value");
    SetPropSame(e.props, "name");
    SetPropSame(e.props, "value");
  }

  /** The entries that survive, cleaned, in order (`map` then `filter(Boolean)`). */
  function NormalizeSpeeds(items: seq<Value>): (r: seq<Value>)
    ensures |r| <= |items|
  {
    if items == [] then []
    else
      (match NormalizeSpeed(items[0]) case Some(e) => [e] case None => [])
      + NormalizeSpeeds(items[1..])
  }

  /** Every surviving entry is clean. */
  lemma {:induction false} NormalizedSpeedsClean(items: seq<Value>)
    ensures forall k :: 0 <= k < |NormalizeSpeeds(items)| ==> CleanSpeed(NormalizeSpeeds(items)[k])
  {
    if items != [] {
      NormalizedSpeedsClean(items[1..]);
      if NormalizeSpeed(items[0]).Some? {
        NormalizedSpeedIsClean(items[0]);
      }
    }
  }

  /** Clean entries all survive unchanged. */
  lemma {:induction false} CleanSpeedsKept(items: seq<Value>)
    requires forall k :: 0 <= k < |items| ==> CleanSpeed(items[k])
    ensures NormalizeSpeeds(items) == items
  {
    if items != [] {
      CleanSpeedKept(items[0]);
      CleanSpeedsKept(items[1..]);
      assert NormalizeSpeeds(items) == [items[0]] + NormalizeSpeeds(items[1..]);
      assert [items[0]] + items[1..] == items;
    }
  }

  /** `findIndex((entry) => entry.name === name)`. */
  function FirstNamed(es: seq<Value>, name: string): (r: Option<nat>)
    ensures r.Some? ==> r.value < |es| && Get(es[r.value], "name") == Str(name)
    ensures r.Some? ==> forall j :: 0 <= j < r.value ==> Get(es[j], "name") != Str(name)
    ensures r.None? ==> forall j :: 0 <= j < |es| ==> Get(es[j], "name") != Str(name)
  {
    if es == [] then None
    else if Get(es[0], "name") == Str(name) then Some(0)
    else match FirstNamed(es[1..], name)
      case None => None
      case Some(i) => Some(i + 1)
  }

  /** Without a `walk` entry, the first entry with an empty name is renamed `walk`. */
  function WithWalk(es: seq<Value>): (r: seq<Value>)
    ensures |r| == |es|
  {
    if FirstNamed(es, "walk").Some? then es
    else match FirstNamed(es, "")
      case None => es
      case Some(i) => es[i := Obj(SetProp(es[i].props, "name", Str("walk")))]
  }

  /** The sanitized `speeds` list. */
  function SanitizeSpeeds(items: seq<Value>): (r: seq<Value>)
  {
    WithWalk(NormalizeSpeeds(items))
  }

  /**
   * After sanitizing: every entry is clean; there is a `walk` entry exactly
   * when the surviving entries had one or had an unnamed one; and only the
   * first unnamed entry may differ from the surviving entry at its place.
   */
  lemma SanitizedSpeeds(items: seq<Value>)
    ensures var es := NormalizeSpeeds(items); var r := SanitizeSpeeds(items);
      |r| == |es|
      && (forall k :: 0 <= k < |r| ==> CleanSpeed(r[k]))
      && (FirstNamed(r, "walk").Some? <==> FirstNamed(es, "walk").Some? || FirstNamed(es, "").Some?)
      && (forall k :: 0 <= k < |r| && Some(k) != FirstNamed(es, "") ==> r[k] == es[k])
  {
    var es := NormalizeSpeeds(items);
    var r := WithWalk(es);
    NormalizedSpeedsClean(items);
    if FirstNamed(es, "walk").Some? || FirstNamed(es, "").None? {
      assert r == es;
    } else {
      var i := FirstNamed(es, "").value;
      assert r == es[i := Obj(SetProp(es[i].props, "name", Str("walk")))];
      RenamedClean(es[i]);
      assert Get(r[i], "name") == Str("walk");
    }
  }

  lemma RenamedClean(e: Value)
    requires CleanSpeed(e)
    ensures CleanSpeed(Obj(SetProp(e.props, "name", Str("walk"))))
  {
    SetPropOther(e.props, "name", Str("walk"), "value");
  }

  /** Sanitizing the speeds twice is sanitizing them once. */
  lemma SanitizeSpeedsIdempotent(items: seq<Value>)
    ensures SanitizeSpeeds(SanitizeSpeeds(items)) == SanitizeSpeeds(items)
  {
    var es := NormalizeSpeeds(items);
    var r := SanitizeSpeeds(items);
    SanitizedSpeeds(items);
    CleanSpeedsKept(r);
    if FirstNamed(r, "walk").None? {
      assert FirstNamed(es, "").None?;
      assert r == es;
    }
  }

  /** `challenge.cr`, `pb` and `xp` are overwritten with the numbers they read as, each only when finite. */
  function SanitizeChallenge(challenge: Value): (r: Value)
  {
    if !challenge.Obj? then challenge
    else
      var c1 := SetFinite(challenge, "cr", ParseChallengeRating(Get(challenge, "cr"), NaN));
      var c2 := SetFinite(c1, "pb", ParseNumericString(Get(c1, "pb"), NaN));
      SetFinite(c2, "xp", ParseNumericString(Get(c2, "xp"), NaN))
  }

  /** `if (Number.isFinite(n)) object[key] = n`. */
  function SetFinite(o: Value, key: string, n: Num): (r: Value)
    requires o.Obj?
    ensures r.Obj?
  {
    if n.Finite? then Obj(SetProp(o.props, key, Number(n))) else o
  }

  /** Reading a property after `SetFinite`. */
  lemma SetFiniteGet(o: Value, key: string, n: Num, k: string)
    requires o.Obj?
    ensures Get(SetFinite(o, key, n), k) == if k == key && n.Finite? then Number(n) else Get(o, k)
  {
    if n.Finite? && k != key {
      SetPropOther(o.props, key, Number(n), k);
    }
  }

  /**
   * After sanitizing a challenge object, `cr`, `pb` and `xp` hold the
   * finite numbers they read as, or what they held when that is not
   * finite, and every other property is unchanged.
   */
  lemma SanitizedChallenge(challenge: Value)
    requires challenge.Obj?
    ensures var r := SanitizeChallenge(challenge);
      var cr := ParseChallengeRating(Get(challenge, "cr"), NaN);
      var pb := ParseNumericString(Get(challenge, "pb"), NaN);
      var xp := ParseNumericString(Get(challenge, "xp"), NaN);
      r.Obj?
      && Get(r, "cr") == (if cr.Finite? then Number(cr) else Get(challenge, "cr"))
      && Get(r, "pb") == (if pb.Finite? then Number(pb) else Get(challenge, "pb"))
      && Get(r, "xp") == (if xp.Finite? then Number(xp) else Get(challenge, "xp"))
      && forall k :: k != "cr" && k != "pb" && k != "xp" ==> Get(r, k) == Get(challenge, k)
  {
    var cr := ParseChallengeRating(Get(challenge, "cr"), NaN);
    var c1 := SetFinite(challenge, "cr", cr);
    SetFiniteGet(challenge, "cr", cr, "pb");
    var pb := ParseNumericString(Get(c1, "pb"), NaN);
    var c2 := SetFinite(c1, "pb", pb);
    SetFiniteGet(c1, "pb", pb, "xp");
    SetFiniteGet(challenge, "cr", cr, "xp");
    var xp := ParseNumericString(Get(c2, "xp"), NaN);
    SetFiniteGet(c2, "xp", xp, "cr");
    SetFiniteGet(c1, "pb", pb, "cr");
    SetFiniteGet(challenge, "cr", cr, "cr");
    SetFiniteGet(c2, "xp", xp, "pb");
    SetFiniteGet(c1, "pb", pb, "pb");
    SetFiniteGet(c2, "xp", xp, "xp");
    forall k | k != "cr" && k != "pb" && k != "xp"
      ensures Get(SetFinite(c2, "xp", xp), k) == Get(challenge, k)
    {
      SetFiniteGet(c2, "xp", xp, k);
      SetFiniteGet(c1, "pb", pb, k);
      SetFiniteGet(challenge, "cr", cr, k);
    }
  }

  /** The part of a parsed actor that `sanitizeParsedSbiActor` rewrites: its `speeds` and its `challenge`. */
  class ParsedActorSource {
    var speeds: Value
    var challenge: Value

    constructor(speeds: Value, challenge: Value)
      ensures this.speeds == speeds && this.challenge == challenge
    {
      this.speeds := speeds;
      this.challenge := challenge;
    }

    /**
     * `sanitizeParsedSbiActor(actorSource)`: a `speeds` array is replaced by
     * its sanitized copy, and a `challenge` object has `cr`, `pb` and `xp`
     * overwritten in turn.
     */
    method Sanitize()
      modifies this
      ensures speeds == if old(speeds).Arr? then Arr(SanitizeSpeeds(old(speeds).items)) else old(speeds)
      ensures challenge == SanitizeChallenge(old(challenge))
    {
      if speeds.Arr? {
        var normalized := NormalizeSpeeds(speeds.items);
        speeds := Arr(WithWalk(normalized));
      }
      if challenge.Obj? {
        var cr := ParseChallengeRating(Get(challenge, "cr"), NaN);
        if cr.Finite? {
          challenge := Obj(SetProp(challenge.props, "cr", Number(cr)));
        }
        var pb := ParseNumericString(Get(challenge, "pb"), NaN);
        if pb.Finite? {
          challenge := Obj(SetProp(challenge.props, "pb", Number(pb)));
        }
        var xp := ParseNumericString(Get(challenge, "xp"), NaN);
        if xp.Finite? {
          challenge := Obj(SetProp(challenge.props, "xp", Number(xp)));
        }
      }
    }
  }

  // ----- normalizeOpen5eLookupInput -----

  /** The endpoint that creature paths and lookup URLs go through. */
  const CreaturesEndpoint: string := "/v2/creatures/"

  /** A creature path as typed in the lookup box, compared case-insensitively. */
  const CreaturesPrefix: string := "v2/creatures/"

  /**
   * What the lookup box resolves to: nothing, a URL (handed to the URL
   * parser, whose outcome is not part of this model), a slug with the
   * creature URL built from it, or a free-text query.
   */
  datatype Lookup = NoLookup | UrlInput(text: string) | SlugLookup(slug: string, url: string) | QueryLookup(query: string)

  /** A character `encodeURIComponent` leaves as it is. */
  predicate Unreserved(c: char)
  {
    IsLetter(c) || IsDigit(c) || c == '-' || c == '_' || c == '.' || c == '!' || c == '~' || c == '*'
    || c == '\'' || c == '(' || c == ')'
  }

  function HexDigit(d: nat): (c: char)
    requires d < 16
    ensures IsDigit(c) || 'A' <= c <= 'F'
  {
    if d < 10 then ('0' as int + d) as char else ('A' as int + d - 10) as char
  }

  /** The UTF-8 bytes of a character. */
  function Utf8(c: char): (r: seq<nat>)
    ensures 1 <= |r| <= 4 && forall i :: 0 <= i < |r| ==> r[i] < 256
  {
    var n := c as int;
    if n < 0x80 then [n]
    else if n < 0x800 then [0xC0 + n / 0x40, 0x80 + n % 0x40]
    else if n < 0x10000 then [0xE0 + n / 0x1000, 0x80 + n / 0x40 % 0x40, 0x80 + n % 0x40]
    else [0xF0 + n / 0x40000, 0x80 + n / 0x1000 % 0x40, 0x80 + n / 0x40 % 0x40, 0x80 + n % 0x40]
  }

  /** "%XY" for each byte, upper-case hexadecimal. */
  function PercentBytes(bytes: seq<nat>): (r: string)
    requires forall i :: 0 <= i < |bytes| ==> bytes[i] < 256
    ensures forall i :: 0 <= i < |r| ==> r[i] == '%' || IsDigit(r[i]) || 'A' <= r[i] <= 'F'
  {
    if bytes == [] then []
    else ['%', HexDigit(bytes[0] / 16), HexDigit(bytes[0] % 16)] + PercentBytes(bytes[1..])
  }

  /** `encodeURIComponent(s)`. */
  function EncodeComponent(s: string): (r: string)
    ensures forall i :: 0 <= i < |r| ==> Unreserved(r[i]) || r[i] == '%'
  {
    if s == [] then []
    else (if Unreserved(s[0]) then [s[0]] else PercentBytes(Utf8(s[0]))) + EncodeComponent(s[1..])
  }

  /** Text of unreserved characters is encoded as itself. */
  lemma {:induction false} EncodeUnreserved(s: string)
    requires forall i :: 0 <= i < |s| ==> Unreserved(s[i])
    ensures EncodeComponent(s) == s
  {
    if s != [] {
      EncodeUnreserved(s[1..]);
      assert [s[0]] + s[1..] == s;
    }
  }

  /** `replace(/^\/+|\/+$/g, '')`: the text without its leading and trailing slashes. */
  function StripSlashes(s: string): (r: string)
  {
    DropTrailingSlashes(s[SkipWhileFrom(s, 0, IsSlash)..])
  }

  predicate IsSlash(c: char) { c == '/' }

  /** A character of a path slug: `[^/?#]`. */
  predicate SlugChar(c: char) { c != '/' && c != '?' && c != '#' }

  /** `/^v2\/creatures\/(?<slug>[^/?#]+)/i`: the slug after the prefix, when there is at least one character of it. */
  function CreatureSlug(path: string): (r: Option<string>)
    ensures r.Some? ==> r.value != [] && forall i :: 0 <= i < |r.value| ==> SlugChar(r.value[i])
  {
    var n := |CreaturesPrefix|;
    if !StartsWithCI(path, CreaturesPrefix) then None
    else
      var end := SkipWhileFrom(path, n, SlugChar);
      if end == n then None else Some(path[n..end])
  }

  /** `/^\w(?:[ \w-]*)$/i` without a space: a word character, then word characters and hyphens. */
  predicate SlugToken(t: string)
  {
    t != [] && IsWord(t[0]) && forall i :: 0 <= i < |t| ==> IsWord(t[i]) || t[i] == '-'
  }

  /**
   * `normalizeOpen5eLookupInput(value)` against the API root `root`:
   * nothing for anything but non-blank text; text naming a web address goes
   * to the URL parser; a `v2/creatures/<slug>` path (slashes at either end
   * ignored) gives its slug; a single token gives itself lower-cased; any
   * other text is a query.
   */
  function NormalizeLookupInput(v: Value, root: string): (r: Lookup)
    ensures r.SlugLookup? ==> r.slug != [] && r.url == root + CreaturesEndpoint + EncodeComponent(r.slug) + "/"
    ensures r.SlugLookup? ==> forall i :: 0 <= i < |r.slug| ==> SlugChar(r.slug[i])
    ensures r.QueryLookup? ==> v.Str? && r.query == Trim(v.s) && r.query != []
  {
    if !v.Str? || Trim(v.s) == [] then NoLookup else LookupOfText(Trim(v.s), root)
  }

  /** The lookup for non-blank trimmed text. */
  function LookupOfText(trimmed: string, root: string): (r: Lookup)
    ensures r != NoLookup
    ensures r.SlugLookup? ==> r.slug != [] && r.url == root + CreaturesEndpoint + EncodeComponent(r.slug) + "/"
    ensures r.SlugLookup? ==> forall i :: 0 <= i < |r.slug| ==> SlugChar(r.slug[i])
    ensures r.QueryLookup? ==> r.query == trimmed
  {
    if Contains(trimmed, "http://") || Contains(trimmed, "https://") then UrlInput(trimmed)
    else
      match CreatureSlug(StripSlashes(trimmed))
      case Some(slug) => SlugLookup(slug, root + CreaturesEndpoint + EncodeComponent(slug) + "/")
      case None =>
        if SlugToken(trimmed) then
          var slug := Lower(trimmed);
          assert forall i :: 0 <= i < |slug| ==> SlugChar(slug[i]) by {
            assert forall i :: 0 <= i < |slug| ==> slug[i] == LowerChar(trimmed[i]);
          }
          SlugLookup(slug, root + CreaturesEndpoint + EncodeComponent(slug) + "/")
        else QueryLookup(trimmed)
  }

  /** Empty and blank text, and anything that is not text, look nothing up; everything else looks something up. */
  lemma LookupOfNothing(v: Value, root: string)
    ensures NormalizeLookupInput(v, root) == NoLookup <==> !v.Str? || Trim(v.s) == []
  {
  }

  /** A single token is looked up as its lower-cased self, which needs no encoding. */
  lemma LookupOfToken(s: string, root: string)
    requires SlugToken(s)
    ensures NormalizeLookupInput(Str(s), root) == SlugLookup(Lower(s), root + CreaturesEndpoint + Lower(s) + "/")
  {
    assert Trim(s) == s by {
      assert !IsSpace(s[0]) && !IsSpace(s[|s| - 1]);
      Formatter.TrimTight(s);
    }
    assert !Contains(s, "http://") && !Contains(s, "https://") by {
      assert ':' !in s by {
        assert !IsWord(':');
      }
      NotInPath(s, "http://");
      NotInPath(s, "https://");
    }
    assert CreatureSlug(StripSlashes(s)).None? by {
      TokenNotPath(s);
    }
    var slug := Lower(s);
    assert forall i :: 0 <= i < |slug| ==> Unreserved(slug[i]) by {
      assert forall i :: 0 <= i < |slug| ==> slug[i] == LowerChar(s[i]);
    }
    EncodeUnreserved(slug);
    assert NormalizeLookupInput(Str(s), root) == LookupOfText(s, root);
    assert LookupOfText(s, root) == SlugLookup(slug, root + CreaturesEndpoint + EncodeComponent(slug) + "/");
  }

  /** A token has no slash, so it is no creature path. */
  lemma TokenNotPath(s: string)
    requires SlugToken(s)
    ensures CreatureSlug(StripSlashes(s)).None?
  {
    assert StripSlashes(s) == s by {
      assert SkipWhileFrom(s, 0, IsSlash) == 0;
      assert s[0..] == s;
    }
    assert !StartsWithCI(s, CreaturesPrefix) by {
      if |s| >= |CreaturesPrefix| {
        assert Lower(s)[..|CreaturesPrefix|][2] == Lower(s)[2] == LowerChar(s[2]);
        assert IsWord(s[2]) || s[2] == '-';
        assert CreaturesPrefix[2] == '/';
      }
    }
  }

  /** A creature path gives the slug after "v2/creatures/", whatever slashes surround it. */
  lemma LookupOfCreaturePath(slug: string, root: string)
    requires slug != [] && forall i :: 0 <= i < |slug| ==> IsWord(slug[i])
    ensures NormalizeLookupInput(Str("/" + CreaturesPrefix + slug + "/"), root)
      == SlugLookup(slug, root + CreaturesEndpoint + slug + "/")
  {
    var inner := CreaturesPrefix + slug;
    var s := "/" + CreaturesPrefix + slug + "/";
    assert Trim(s) == s by {
      assert s[0] == '/' && s[|s| - 1] == '/';
      Formatter.TrimTight(s);
    }
    assert !Contains(s, "http://") && !Contains(s, "https://") by {
      assert ':' !in s by {
        assert forall i :: 0 <= i < |slug| ==> slug[i] != ':';
        assert forall i :: 0 <= i < |s| ==> s[i] == '/' || s[i] in CreaturesPrefix || s[i] in slug;
      }
      NotInPath(s, "http://");
      NotInPath(s, "https://");
    }
    assert StripSlashes(s) == inner by {
      PathStripped(slug);
    }
    assert CreatureSlug(inner) == Some(slug) by {
      PathSlug(slug);
    }
    assert forall i :: 0 <= i < |slug| ==> Unreserved(slug[i]);
    EncodeUnreserved(slug);
    assert NormalizeLookupInput(Str(s), root) == LookupOfText(s, root);
    assert LookupOfText(s, root) == SlugLookup(slug, root + CreaturesEndpoint + EncodeComponent(slug) + "/");
  }

  lemma PathStripped(slug: string)
    requires slug != [] && forall i :: 0 <= i < |slug| ==> IsWord(slug[i])
    ensures StripSlashes("/" + CreaturesPrefix + slug + "/") == CreaturesPrefix + slug
  {
    var s := "/" + CreaturesPrefix + slug + "/";
    var inner := CreaturesPrefix + slug;
    assert s[0] == '/' && s[1] == 'v';
    assert SkipWhileFrom(s, 0, IsSlash) == 1 by {
      assert SkipWhileFrom(s, 1, IsSlash) == 1;
    }
    assert s[1..] == inner + "/";
    assert inner[|inner| - 1] == slug[|slug| - 1];
    assert DropTrailingSlashes(inner + "/") == DropTrailingSlashes(inner) by {
      assert (inner + "/")[..|inner|] == inner;
    }
  }

  lemma PathSlug(slug: string)
    requires slug != [] && forall i :: 0 <= i < |slug| ==> IsWord(slug[i])
    ensures CreatureSlug(CreaturesPrefix + slug) == Some(slug)
  {
    var p := CreaturesPrefix;
    var inner := p + slug;
    var n := |p|;
    assert StartsWithCI(inner, p) by {
      assert Lower(inner)[..n] == Lower(p) by {
        assert forall i :: 0 <= i < n ==> Lower(inner)[i] == LowerChar(p[i]);
      }
      assert Lower(p) == p;
    }
    assert SkipWhileFrom(inner, n, SlugChar) == |inner| by {
      assert forall i :: n <= i < |inner| ==> inner[i] == slug[i - n];
    }
    assert inner[n..|inner|] == slug;
  }

  /** "http://" and "https://" do not occur in a path without ":". */
  lemma NotInPath(s: string, scheme: string)
    requires ':' !in s
    requires ':' in scheme
    ensures !Contains(s, scheme)
  {
  }

  // ----- buildManualMonsterPayload -----

  /** The size codes a manual monster can have. */
  predicate SizeCode(s: string)
  {
    s == "tiny" || s == "sm" || s == "med" || s == "lg" || s == "huge" || s == "grg"
  }

  /** The own entries of the size alias table. */
  function SizeAlias(raw: string): (r: Option<string>)
    ensures r.Some? ==> SizeCode(r.value)
  {
    match raw
    case "tiny" => Some("tiny")
    case "small" => Some("sm")
    case "medium" => Some("med")
    case "large" => Some("lg")
    case "huge" => Some("huge")
    case "gargantuan" => Some("grg")
    case "sm" => Some("sm")
    case "med" => Some("med")
    case "lg" => Some("lg")
    case "grg" => Some("grg")
    case _ => None
  }

  /**
   * What `aliases[rawSize] || 'med'` reads on the object literal: its own
   * entries, and for the lower-case names the object inherits from
   * `Object.prototype` (`constructor`, `__proto__`) a truthy non-text value.
   */
  datatype SizeRead = SizeText(code: string) | Inherited(property: string)

  function SizeAsWritten(raw: string): (r: SizeRead)
  {
    match SizeAlias(raw)
    case Some(code) => SizeText(code)
    case None => if raw == "constructor" || raw == "__proto__" then Inherited(raw) else SizeText("med")
  }

  /** A size of "Constructor" reads the inherited `constructor` function instead of falling back to "med". */
  lemma ConstructorSizeInherited()
    ensures SizeAsWritten(Lower(SafeString(Str("Constructor"), "med"))) == Inherited("constructor")
  {
    var raw := SafeString(Str("Constructor"), "med");
    assert raw == "Constructor" by { SafeStringOfConstructor(); }
    assert Lower(raw) == "constructor" by { LowerOfConstructor(); }
    assert SizeAlias("constructor").None? by { NoConstructorAlias(); }
  }

  lemma SafeStringOfConstructor()
    ensures SafeString(Str("Constructor"), "med") == "Constructor"
  {
  }

  lemma LowerOfConstructor()
    ensures Lower("Constructor") == "constructor"
  {
  }

  lemma NoConstructorAlias()
    ensures SizeAlias("constructor").None?
  {
  }

  /** The size as intended: an own alias, "med" for anything else. */
  function NormalizedSize(raw: string): (r: string)
    ensures SizeCode(r)
    ensures SizeCode(raw) ==> r == raw
    ensures SizeAlias(raw).None? ==> r == "med"
  {
    match SizeAlias(raw)
    case Some(code) => code
    case None => "med"
  }

  /** Apart from the two inherited names, the lookup as written is the intended one. */
  lemma SizeAsWrittenAgrees(raw: string)
    ensures raw != "constructor" && raw != "__proto__" ==> SizeAsWritten(raw) == SizeText(NormalizedSize(raw))
    ensures raw == "constructor" || raw == "__proto__" ==> SizeAsWritten(raw) == Inherited(raw)
  {
    NoConstructorAlias();
  }

  /** The payload of the manual form; its empty action lists and its fixed `document` record are left out. */
  datatype ManualPayload = ManualPayload(
    name: string, img: string, creatureType: string, size: SizeRead, alignment: string,
    ac: Num, hp: int, walk: int, crDecimal: real, crText: string,
    abilities: seq<int>, desc: string)

  /** The six ability fields of the form, in payload order. */
  const AbilityFields: seq<string> := ["str", "dex", "con", "int", "wis", "cha"]

  /**
   * `buildManualMonsterPayload(formData)`: the challenge read with fallback 0
   * (0 when not finite), walking speed and hit points as safe integers,
   * the size looked up on the alias object as written (so "constructor" and
   * "__proto__" read inherited members), and the text fields through
   * `safeString` with their defaults.
   */
  function ManualMonsterPayload(form: Value): (r: ManualPayload)
    ensures |r.abilities| == 6
    ensures var raw := Lower(SafeString(Get(form, "size"), "med"));
      raw != "constructor" && raw != "__proto__" ==> r.size == SizeText(NormalizedSize(raw))
    ensures var raw := Lower(SafeString(Get(form, "size"), "med"));
      raw == "constructor" || raw == "__proto__" ==> r.size == Inherited(raw)
  {
    var raw := ParseChallengeRating(Get(form, "challenge"), Finite(0.0));
    var challenge := if raw.Finite? then raw.q else 0.0;
    var size := Lower(SafeString(Get(form, "size"), "med"));
    SizeAsWrittenAgrees(size);
    ManualPayload(
      SafeString(Get(form, "name"), "New Monster"),
      SafeString(Get(form, "img"), "icons/svg/mystery-man.svg"),
      SafeString(Get(form, "type"), "humanoid"),
      SizeAsWritten(size),
      SafeString(Get(form, "alignment"), "unaligned"),
      SafeNumber(Get(form, "ac"), Finite(10.0)),
      SafeInt(Get(form, "hp"), 10),
      SafeInt(Get(form, "speed"), 30),
      challenge,
      NumToString(Finite(challenge)),
      seq(6, i requires 0 <= i < 6 => SafeInt(Get(form, AbilityFields[i]), 10)),
      SafeString(Get(form, "notes"), ""))
  }

  /**
   * Whatever the form holds, the payload is well formed: named, typed and
   * aligned with non-empty trimmed text, a known size code unless an inherited
   * name was read, a finite armor
   * class, hit points, speed and six scores of at least 1, and a challenge
   * text that is `String` of the challenge number.
   */
  lemma ManualPayloadWellFormed(form: Value)
    ensures var p := ManualMonsterPayload(form);
      p.name != [] && p.img != [] && p.creatureType != [] && p.alignment != []
      && (p.size.SizeText? ==> SizeCode(p.size.code))
      && (p.size.Inherited? ==> p.size.property == "constructor" || p.size.property == "__proto__")
      && p.ac.Finite?
      && p.hp >= 1 && p.walk >= 1 && (forall i :: 0 <= i < 6 ==> p.abilities[i] >= 1)
      && p.crText == NumberText(p.crDecimal)
  {
  }

  /** An empty form gives the defaults. */
  lemma ManualPayloadDefaults()
    ensures var p := ManualMonsterPayload(Obj([]));
      p.name == "New Monster" && p.creatureType == "humanoid" && p.size == SizeText("med")
      && p.alignment == "unaligned" && p.ac == Finite(10.0) && p.hp == 10 && p.walk == 30
      && p.crDecimal == 0.0 && p.crText == "0" && p.abilities == [10, 10, 10, 10, 10, 10] && p.desc == ""
  {
    var p := ManualMonsterPayload(Obj([]));
    assert NumberText(0.0) == "0" by {
      assert IsInteger(0.0);
    }
  }

  /** A challenge typed as a whole number is kept, and its text is its digits. */
  lemma {:induction false} ManualPayloadChallenge(form: Value, n: nat)
    requires Get(form, "challenge") == Str(NatToString(n))
    ensures ManualMonsterPayload(form).crDecimal == n as real
    ensures ManualMonsterPayload(form).crText == NatToString(n)
  {
    ChallengeOfNat(n, Finite(0.0));
    WholeText(n);
  }
}
