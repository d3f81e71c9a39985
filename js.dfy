// JavaScript values as the formatter and the monster creator receive them
// (parsed JSON, actor data, form input), with the language's own `String(v)`
// and `Number(v)` conversions on them. Numbers are held exactly (see
// `Text.Num`); exponent notation and hexadecimal literals are not modelled.
module Js {
  import opened Text

  /** A JavaScript value: the primitives, arrays, and plain objects as their own properties in order. */
  datatype Value = Undefined | Null | Bool(b: bool) | Number(n: Num) | Str(s: string) | Arr(items: seq<Value>) | Obj(props: seq<Prop>)

  datatype Prop = Prop(key: string, val: Value)

  /** The index of the property named `key`: the first one, as a later duplicate cannot exist in a real object. */
  function FindKey(props: seq<Prop>, key: string): (r: Option<nat>)
    ensures r.Some? ==> r.value < |props| && props[r.value].key == key
    ensures r.Some? ==> forall j :: 0 <= j < r.value ==> props[j].key != key
    ensures r.None? ==> forall j :: 0 <= j < |props| ==> props[j].key != key
  {
    if props == [] then None
    else if props[0].key == key then Some(0)
    else match FindKey(props[1..], key)
      case None => None
      case Some(i) => Some(i + 1)
  }

  /** `Object.prototype.hasOwnProperty.call(v, key)` on an object. */
  predicate HasOwn(v: Value, key: string) { v.Obj? && FindKey(v.props, key).Some? }

  /** `v?.[key]`: the property's value, or undefined. */
  function Get(v: Value, key: string): (r: Value)
    ensures !HasOwn(v, key) ==> r == Undefined
    ensures HasOwn(v, key) ==> r == v.props[FindKey(v.props, key).value].val
  {
    if v.Obj? then
      match FindKey(v.props, key)
      case None => Undefined
      case Some(i) => v.props[i].val
    else Undefined
  }

  // ----- numbers to text -----

  function DigitChar(d: nat): (c: char)
    requires d < 10
    ensures IsDigit(c)
  {
    ('0' as int + d) as char
  }

  /** At most `k` decimal digits of a fraction in [0, 1), stopping when nothing is left. */
  function FracDigits(f: real, k: nat): (r: string)
    requires 0.0 <= f < 1.0
    ensures |r| <= k
    decreases k
  {
    if f == 0.0 || k == 0 then ""
    else
      var d := (f * 10.0).Floor;
      [DigitChar(d)] + FracDigits(f * 10.0 - d as real, k - 1)
  }

  predicate IsInteger(q: real) { q.Floor as real == q }

  /**
   * `Number.prototype.toString` for a finite number: an integer as its
   * digits; otherwise the sign, the integer part, "." and the decimal
   * digits of the fraction (exact for fractions of at most twenty digits).
   */
  function NumberText(q: real): (r: string)
    ensures IsInteger(q) ==> r == IntToString(q.Floor)
    ensures !IsInteger(q) ==> '.' in r
  {
    if IsInteger(q) then IntToString(q.Floor)
    else if q < 0.0 then "-" + FractionText(-q)
    else FractionText(q)
  }

  /** A positive number with a fraction: its whole part, ".", and the fraction's digits. */
  function FractionText(a: real): (r: string)
    requires a > 0.0
    ensures '.' in r
  {
    var w := a.Floor;
    assert 0.0 <= a - w as real < 1.0;
    var r := NatToString(w) + "." + FracDigits(a - w as real, 20);
    assert r[|NatToString(w)|] == '.';
    r
  }

  /** `String(n)` of a number. */
  function NumToString(n: Num): (r: string)
  {
    match n
    case NaN => "NaN"
    case Infinite(positive) => if positive then "Infinity" else "-Infinity"
    case Finite(q) => NumberText(q)
  }

  /** `String(v)`; an array joins its items with ",", with null and undefined as empty text. */
  function ToString(v: Value): (r: string)
    ensures v.Str? ==> r == v.s
    ensures v.Number? ==> r == NumToString(v.n)
  {
    match v
    case Undefined => "undefined"
    case Null => "null"
    case Bool(b) => if b then "true" else "false"
    case Number(n) => NumToString(n)
    case Str(s) => s
    case Arr(items) => JoinItems(items)
    case Obj(_) => "[object Object]"
  }

  function JoinItems(items: seq<Value>): string
  {
    if items == [] then ""
    else
      var head := if items[0].Undefined? || items[0].Null? then "" else ToString(items[0]);
      if |items| == 1 then head else head + "," + JoinItems(items[1..])
  }

  // ----- text to numbers -----

  /**
   * A decimal number at `i`: digits with an optional fraction, or a fraction
   * alone (`\d+(?:\.\d+)?|\.\d+`); with `trailingDot`, digits followed by a
   * bare "." also count and the "." is taken, as in a numeric literal. The
   * value and the end of the text taken.
   */
  function DecimalAt(s: string, i: nat, trailingDot: bool): (r: Option<(real, nat)>)
    requires i <= |s|
    ensures r.Some? ==> i < r.value.1 <= |s|
    ensures r.Some? ==> r.value.0 >= 0.0
    ensures r.Some? ==> s[i] == '.' || IsDigit(s[i])
  {
    var w := SkipWhileFrom(s, i, IsDigit);
    assert forall k :: 0 <= k < |s[i..w]| ==> IsDigit(s[i..w][k]);
    var whole := DigitsValue(s[i..w]) as real;
    if w < |s| && s[w] == '.' then
      var f := SkipWhileFrom(s, w + 1, IsDigit);
      var frac := s[w + 1..f];
      assert forall k :: 0 <= k < |frac| ==> IsDigit(frac[k]);
      if f > w + 1 then Some((whole + DigitsValue(frac) as real / Pow10(f - w - 1) as real, f))
      else if w > i then Some((whole, if trailingDot then w + 1 else w))
      else None
    else if w > i then Some((whole, w))
    else None
  }

  /** `[-+]?` followed by a decimal number at `i`. */
  function SignedDecimalAt(s: string, i: nat, trailingDot: bool): (r: Option<(real, nat)>)
    requires i <= |s|
    ensures r.Some? ==> i < r.value.1 <= |s|
    ensures r.Some? ==> s[i] == '-' || s[i] == '+' || s[i] == '.' || IsDigit(s[i])
  {
    if i < |s| && (s[i] == '-' || s[i] == '+') then
      match DecimalAt(s, i + 1, trailingDot)
      case None => None
      case Some(d) => Some((if s[i] == '-' then -d.0 else d.0, d.1))
    else DecimalAt(s, i, trailingDot)
  }

  /**
   * `Number(s)` on text: blank text is 0, "Infinity" with an optional sign
   * an infinity, a whole-text decimal its value, anything else NaN.
   */
  function StringToNumber(s: string): (r: Num)
    ensures Trim(s) == [] ==> r == Finite(0.0)
    ensures r.Finite? && Trim(s) != [] ==> SignedDecimalAt(Trim(s), 0, true).Some?
  {
    var t := Trim(s);
    if t == [] then Finite(0.0)
    else if t == "Infinity" || t == "+Infinity" then Infinite(true)
    else if t == "-Infinity" then Infinite(false)
    else match SignedDecimalAt(t, 0, true)
      case Some(d) => if d.1 == |t| then Finite(d.0) else NaN
      case None => NaN
  }

  /** `Number(v)`. */
  function ToNumber(v: Value): (r: Num)
    ensures v.Number? ==> r == v.n
    ensures v.Undefined? || v.Obj? ==> r == NaN
  {
    match v
    case Undefined => NaN
    case Null => Finite(0.0)
    case Bool(b) => Finite(if b then 1.0 else 0.0)
    case Number(n) => n
    case Str(s) => StringToNumber(s)
    case Arr(_) => StringToNumber(ToString(v))
    case Obj(_) => NaN
  }

  // ----- round trips -----

  /** A run of digits taken whole is read as its value. */
  lemma DigitsAt(t: string)
    requires t != [] && forall k :: 0 <= k < |t| ==> IsDigit(t[k])
    ensures DecimalAt(t, 0, true) == Some((DigitsValue(t) as real, |t|))
    ensures DecimalAt(t, 0, false) == Some((DigitsValue(t) as real, |t|))
  {
    assert SkipWhileFrom(t, 0, IsDigit) == |t|;
    assert t[0..|t|] == t;
  }

  /** The text of a whole number reads back as that number. */
  lemma StringToNumberOfNat(n: nat)
    ensures StringToNumber(NatToString(n)) == Finite(n as real)
  {
    var t := NatToString(n);
    assert TrimStart(t) == t;
    assert TrimEnd(t) == t;
    DigitsAt(t);
    DigitsValueOfNatToString(n);
  }

  /** `Number(String(n))` is `n` for every integer. */
  lemma IntegerRoundTrip(n: int)
    ensures ToNumber(Str(NumToString(Finite(n as real)))) == Finite(n as real)
  {
    assert IsInteger(n as real) && (n as real).Floor == n;
    if n >= 0 {
      StringToNumberOfNat(n);
    } else {
      assert NumToString(Finite(n as real)) == "-" + NatToString(-n);
      StringToNumberOfNegative(-n);
    }
  }

  /** The text of a negative whole number reads back as that number. */
  lemma StringToNumberOfNegative(m: nat)
    requires m > 0
    ensures StringToNumber("-" + NatToString(m)) == Finite(-(m as real))
  {
    var t := NatToString(m);
    var s := "-" + t;
    assert TrimStart(s) == s;
    assert TrimEnd(s) == s;
    NegativeDecimalAt(m);
  }

  lemma NegativeDecimalAt(m: nat)
    ensures var s := "-" + NatToString(m); DecimalAt(s, 1, true) == Some((m as real, |s|))
  {
    var t := NatToString(m);
    var s := "-" + t;
    DigitsAt(t);
    DigitsValueOfNatToString(m);
    assert SkipWhileFrom(s, 1, IsDigit) == |s| by {
      assert forall k :: 1 <= k < |s| ==> s[k] == t[k - 1];
    }
    assert s[1..|s|] == t;
  }

  /** A whole number prints as its digits. */
  lemma WholeText(n: nat)
    ensures NumberText(n as real) == NatToString(n)
  {
    assert IsInteger(n as real) && (n as real).Floor == n;
  }

  /** A whole number and a half prints with ".5". */
  lemma HalfText(n: nat)
    ensures NumberText(n as real + 0.5) == NatToString(n) + ".5"
  {
    var q := n as real + 0.5;
    assert q.Floor == n && !IsInteger(q) && q - n as real == 0.5;
    assert NumberText(q) == FractionText(q);
    HalfDigits();
    var w := NatToString(n);
    assert FractionText(q) == w + "." + "5";
    assert w + "." + "5" == w + ".5";
  }

  lemma HalfDigits()
    ensures FracDigits(0.5, 20) == "5"
  {
    assert FracDigits(0.0, 19) == "";
    assert DigitChar(5) == '5';
  }
}
