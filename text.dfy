// Character classes and string helpers shared by the statblock importer model.
// Characters are UTF-16 code units, as in JavaScript; only ASCII case mapping
// and JavaScript's whitespace set are modelled.
module Text {

  datatype Option<T> = None | Some(value: T)

  predicate IsUpper(c: char) { 'A' <= c <= 'Z' }
  predicate IsLower(c: char) { 'a' <= c <= 'z' }
  predicate IsLetter(c: char) { IsUpper(c) || IsLower(c) }
  predicate IsDigit(c: char) { '0' <= c <= '9' }
  /** JavaScript's `\w`: ASCII letters, digits and underscore. */
  predicate IsWord(c: char) { IsLetter(c) || IsDigit(c) || c == '_' }
  /**
   * JavaScript's `\s` and the whitespace `trim` removes: the ASCII spaces and
   * line breaks, the no-break spaces, the Unicode space separators, the line
   * and paragraph separators and the byte-order mark.
   */
  predicate IsSpace(c: char)
  {
    c == ' ' || c == '\t' || c == '\n' || c == '\r' || c == '\U{000B}' || c == '\U{000C}' || ('\U{00A0}' <= c && IsWideSpace(c))
  }

  /** The whitespace characters beyond ASCII. */
  predicate IsWideSpace(c: char)
  {
    || c == '\U{00A0}' || c == '\U{1680}' || '\U{2000}' <= c <= '\U{200A}' || c == '\U{2028}' || c == '\U{2029}'
    || c == '\U{202F}' || c == '\U{205F}' || c == '\U{3000}' || c == '\U{FEFF}'
  }

  function LowerChar(c: char): (r: char)
    ensures IsUpper(c) ==> IsLower(r)
    ensures !IsUpper(c) ==> r == c
  {
    if IsUpper(c) then (c as int + 32) as char else c
  }

  function UpperChar(c: char): (r: char)
    ensures IsLower(c) ==> IsUpper(r)
    ensures !IsLower(c) ==> r == c
  {
    if IsLower(c) then (c as int - 32) as char else c
  }

  /** `String.prototype.toLowerCase` on ASCII letters. */
  function Lower(s: string): (r: string)
    ensures |r| == |s|
    ensures forall i :: 0 <= i < |s| ==> r[i] == LowerChar(s[i])
  {
    seq(|s|, i requires 0 <= i < |s| => LowerChar(s[i]))
  }

  /** `String.prototype.toUpperCase` on ASCII letters. */
  function Upper(s: string): (r: string)
    ensures |r| == |s|
    ensures forall i :: 0 <= i < |s| ==> r[i] == UpperChar(s[i])
  {
    seq(|s|, i requires 0 <= i < |s| => UpperChar(s[i]))
  }

  predicate StartsWith(s: string, p: string) { |p| <= |s| && s[..|p|] == p }

  /** Case-insensitive prefix test; `p` is given in lower case. */
  predicate StartsWithCI(s: string, p: string) { StartsWith(Lower(s), p) }

  predicate EqualsCI(s: string, p: string) { Lower(s) == p }

  predicate OccursAt(s: string, t: string, i: int)
  {
    0 <= i && i + |t| <= |s| && s[i..i + |t|] == t
  }

  /** `String.prototype.includes`. */
  predicate Contains(s: string, t: string)
  {
    IndexOf(s, t, 0).Some?
  }

  /** Index of the first occurrence of `t` in `s` at or after `from`. */
  function IndexOf(s: string, t: string, from: nat): (r: Option<nat>)
    decreases |s| - from
    ensures r.Some? ==> from <= r.value && OccursAt(s, t, r.value)
    ensures r.Some? ==> forall i :: from <= i < r.value ==> !OccursAt(s, t, i)
    ensures r.None? ==> forall i :: from <= i ==> !OccursAt(s, t, i)
  {
    if from + |t| > |s| then None
    else if s[from..from + |t|] == t then Some(from)
    else IndexOf(s, t, from + 1)
  }

  /** Number of leading characters of `s[from..]` that satisfy `p`. */
  function SkipWhileFrom(s: string, from: nat, p: char -> bool): (r: nat)
    requires from <= |s|
    decreases |s| - from
    ensures from <= r <= |s|
    ensures forall i :: from <= i < r ==> p(s[i])
    ensures r < |s| ==> !p(s[r])
  {
    if from == |s| || !p(s[from]) then from else SkipWhileFrom(s, from + 1, p)
  }

  function TrimStart(s: string): (r: string)
    ensures |r| <= |s| && (r != [] ==> !IsSpace(r[0]))
  {
    if s != [] && IsSpace(s[0]) then TrimStart(s[1..]) else s
  }

  function TrimEnd(s: string): (r: string)
    ensures |r| <= |s| && (r != [] ==> !IsSpace(r[|r| - 1]))
  {
    if s != [] && IsSpace(s[|s| - 1]) then TrimEnd(s[..|s| - 1]) else s
  }

  /** `String.prototype.trim`. */
  function Trim(s: string): (r: string)
    ensures r == [] || (!IsSpace(r[0]) && !IsSpace(r[|r| - 1]))
  {
    TrimEndIsPrefix(TrimStart(s));
    TrimEnd(TrimStart(s))
  }

  /** An ideographic space before the text and a byte-order mark after it are trimmed like ASCII spaces. */
  lemma TrimWideSpaces()
    ensures Trim("\U{3000}ab\U{FEFF}") == "ab"
  {
    var s := "\U{3000}ab\U{FEFF}";
    assert IsSpace(s[0]) && !IsSpace(s[1]);
    assert TrimStart(s[1..]) == s[1..];
    assert IsSpace(s[3]) && !IsSpace(s[2]);
    assert s[1..][..2] == "ab";
    assert TrimEnd("ab") == "ab";
  }

  lemma TrimEndIsPrefix(s: string)
    ensures TrimEnd(s) == s[..|TrimEnd(s)|]
  {
    if s != [] && IsSpace(s[|s| - 1]) {
      TrimEndIsPrefix(s[..|s| - 1]);
    }
  }

  lemma {:induction false} TrimStartIsSuffix(s: string)
    ensures TrimStart(s) == s[|s| - |TrimStart(s)|..]
  {
    if s != [] && IsSpace(s[0]) {
      TrimStartIsSuffix(s[1..]);
      assert s[1..][|s| - 1 - |TrimStart(s[1..])|..] == s[|s| - |TrimStart(s)|..];
    }
  }

  /** Trimmed text is a slice of the text. */
  lemma TrimSlice(s: string) returns (a: nat, b: nat)
    ensures a <= b <= |s| && Trim(s) == s[a..b]
  {
    var t := TrimStart(s);
    TrimStartIsSuffix(s);
    TrimEndIsPrefix(t);
    a := |s| - |t|;
    b := a + |TrimEnd(t)|;
    assert Trim(s) == t[..|TrimEnd(t)|];
  }

  /** `Array.prototype.join`. */
  function Join(parts: seq<string>, sep: string): (r: string)
  {
    if parts == [] then []
    else if |parts| == 1 then parts[0]
    else parts[0] + sep + Join(parts[1..], sep)
  }

  lemma JoinFirst(first: string, rest: seq<string>, sep: string)
    requires rest != []
    ensures Join([first] + rest, sep) == first + sep + Join(rest, sep)
  {
    assert ([first] + rest)[1..] == rest;
  }

  /** A joined list starts with whatever its first part starts with. */
  lemma JoinStartsWith(first: string, rest: seq<string>, sep: string, p: string)
    requires StartsWith(first, p) && rest != []
    ensures StartsWith(Join([first] + rest, sep), p)
  {
    JoinFirst(first, rest, sep);
    StartsWithExtend(first, p, sep + Join(rest, sep));
    assert first + sep + Join(rest, sep) == first + (sep + Join(rest, sep));
  }

  /** `String.prototype.split` on a single separator character. */
  function Split(s: string, sep: char): (r: seq<string>)
    ensures |r| >= 1
    ensures forall k :: 0 <= k < |r| ==> sep !in r[k]
    ensures Join(r, [sep]) == s
  {
    if s == [] then [[]]
    else
      var rest := Split(s[1..], sep);
      if s[0] == sep then [[]] + rest
      else
        assert s == [s[0]] + s[1..];
        [[s[0]] + rest[0]] + rest[1..]
  }

  /** `replace(/,/g, '')`. */
  function DropCommas(s: string): (r: string)
    ensures |r| <= |s| && forall i :: 0 <= i < |r| ==> r[i] != ','
  {
    if s == [] then [] else (if s[0] == ',' then [] else [s[0]]) + DropCommas(s[1..])
  }

  /** Replaces the first occurrence of `t` in `s` by `u` (`String.prototype.replace` with a string pattern). */
  function ReplaceFirst(s: string, t: string, u: string): (r: string)
  {
    match IndexOf(s, t, 0)
    case None => s
    case Some(i) => s[..i] + u + s[i + |t|..]
  }

  function DigitValue(c: char): (d: nat)
    requires IsDigit(c)
    ensures d < 10
  {
    c as int - '0' as int
  }

  /** The value of a non-empty run of decimal digits. */
  function DigitsValue(s: string): (n: nat)
    requires forall i :: 0 <= i < |s| ==> IsDigit(s[i])
  {
    if s == [] then 0 else 10 * DigitsValue(s[..|s| - 1]) + DigitValue(s[|s| - 1])
  }

  /** `String(n)` for a non-negative integer. */
  function NatToString(n: nat): (r: string)
    ensures r != [] && forall i :: 0 <= i < |r| ==> IsDigit(r[i])
  {
    if n < 10 then [('0' as int + n) as char]
    else NatToString(n / 10) + [('0' as int + n % 10) as char]
  }

  /** `String(n)` for an integer. */
  function IntToString(n: int): (r: string)
  {
    if n < 0 then "-" + NatToString(-n) else NatToString(n)
  }

  /** `parseInt(s, 10)` restricted to its integer prefix: optional leading space and sign, then digits. */
  function ParseIntPrefix(s: string): (r: Option<int>)
  {
    var t := TrimStart(s);
    var neg := t != [] && t[0] == '-';
    var signed := t != [] && (t[0] == '-' || t[0] == '+');
    var body := if signed then t[1..] else t;
    var k := SkipWhileFrom(body, 0, IsDigit);
    if k == 0 then None
    else
      var v := DigitsValue(body[..k]);
      var n: int := if neg then 0 - v as int else v;
      Some(n)
  }

  /** `parseInt(s, 10)` as a number: NaN when no digit follows the optional space and sign. */
  function ParseInt(s: string): (r: Num)
    ensures r.NaN? <==> ParseIntPrefix(s).None?
    ensures r.Finite? ==> r.q == ParseIntPrefix(s).value as real && r.q.Floor as real == r.q
  {
    match ParseIntPrefix(s)
    case None => NaN
    case Some(n) => Finite(n as real)
  }

  /** `String(n)` reads back as `n`. */
  lemma {:induction false} DigitsValueOfNatToString(n: nat)
    ensures DigitsValue(NatToString(n)) == n
  {
    if n >= 10 {
      var t := NatToString(n);
      DigitsValueOfNatToString(n / 10);
      assert t[..|t| - 1] == NatToString(n / 10);
    }
  }

  /** `parseInt(String(n))` is `n`. */
  lemma ParseNatToString(n: nat)
    ensures ParseIntPrefix(NatToString(n)) == Some(n)
  {
    var t := NatToString(n);
    assert TrimStart(t) == t;
    var k := SkipWhileFrom(t, 0, IsDigit);
    assert k == |t|;
    assert t[..k] == t;
    DigitsValueOfNatToString(n);
  }

  lemma {:induction false} SplitNoSep(x: string, sep: char)
    requires sep !in x
    ensures Split(x, sep) == [x]
  {
    if x != [] {
      SplitNoSep(x[1..], sep);
      assert [x[0]] + x[1..] == x;
    }
  }

  /** A run of digits is skipped whole. */
  lemma AllDigitsSkipped(d: string)
    requires forall i :: 0 <= i < |d| ==> IsDigit(d[i])
    ensures SkipWhileFrom(d, 0, IsDigit) == |d|
  {
  }

  lemma StartsWithAppend(p: string, rest: string)
    ensures StartsWith(p + rest, p)
  {
    assert (p + rest)[..|p|] == p;
  }

  /** A prefix stays a prefix when text is added at the end. */
  lemma StartsWithExtend(s: string, p: string, t: string)
    requires StartsWith(s, p)
    ensures StartsWith(s + t, p)
  {
    assert (s + t)[..|p|] == s[..|p|];
  }

  /** A prefix stays a prefix after the same text is put in front of both. */
  lemma PrefixAfter(c: string, x: string, p: string)
    requires StartsWith(x, p)
    ensures StartsWith(c + x, c + p)
  {
    assert (c + x)[..|c + p|] == c + x[..|p|];
  }

  /** The first occurrence of a character is found where it first appears. */
  lemma FirstCharFound(s: string, c: char, n: nat)
    requires n < |s| && s[n] == c && forall j :: 0 <= j < n ==> s[j] != c
    ensures IndexOf(s, [c], 0) == Some(n)
  {
    assert OccursAt(s, [c], n) by {
      assert s[n..n + 1] == [c];
    }
    var r := IndexOf(s, [c], 0);
    if r.Some? {
      OccursCharAt(s, c, r.value);
    }
  }

  lemma OccursCharAt(s: string, c: char, v: nat)
    requires OccursAt(s, [c], v)
    ensures s[v] == c
  {
    assert s[v..v + 1][0] == s[v];
  }

  /** Splitting at the first separator. */
  lemma {:induction false} SplitAtFirst(x: string, sep: char, y: string)
    requires sep !in x
    ensures Split(x + [sep] + y, sep) == [x] + Split(y, sep)
  {
    if x == [] {
      assert x + [sep] + y == [sep] + y;
      assert ([sep] + y)[1..] == y;
    } else {
      var s := x + [sep] + y;
      assert s[0] == x[0] && s[1..] == x[1..] + [sep] + y;
      SplitAtFirst(x[1..], sep, y);
      assert [x[0]] + x[1..] == x;
    }
  }

  // ----- JavaScript numbers -----

  /** A JavaScript number: a finite value (held exactly), NaN or an infinity. */
  datatype Num = Finite(q: real) | NaN | Infinite(positive: bool)

  predicate IsFinite(n: Num) { n.Finite? }

  /** `Math.trunc` on a finite value. */
  function Trunc(q: real): (r: int)
    ensures q >= 0.0 ==> r as real <= q < r as real + 1.0
    ensures q < 0.0 ==> r as real - 1.0 < q <= r as real
  {
    if q >= 0.0 then q.Floor else -((-q).Floor)
  }

  /** An integral value is its own truncation. */
  lemma TruncIntegral(q: real)
    ensures q.Floor as real == q ==> Trunc(q) as real == q
  {
    if q.Floor as real == q && q < 0.0 {
      var n := q.Floor;
      assert -q == (-n) as real;
      assert (-q).Floor == -n;
    }
  }

  function Pow10(k: nat): (r: nat)
    ensures r >= 1
  {
    if k == 0 then 1 else 10 * Pow10(k - 1)
  }

  /** JavaScript's `/` on numbers. */
  function Divide(a: Num, b: Num): (r: Num)
    ensures a.Finite? && b.Finite? && b.q != 0.0 ==> r == Finite(a.q / b.q)
    ensures a.NaN? || b.NaN? ==> r.NaN?
  {
    match (a, b)
    case (NaN, _) => NaN
    case (_, NaN) => NaN
    case (Finite(x), Finite(y)) =>
      if y != 0.0 then Finite(x / y) else if x == 0.0 then NaN else Infinite(x > 0.0)
    case (Finite(x), Infinite(_)) => Finite(0.0)
    case (Infinite(p), Finite(y)) => Infinite(if y < 0.0 then !p else p)
    case (Infinite(_), Infinite(_)) => NaN
  }

  /** The longest prefix of decimal digits. */
  function LeadingDigits(s: string): (r: string)
    ensures |r| <= |s| && r == s[..|r|]
    ensures forall i :: 0 <= i < |r| ==> IsDigit(r[i])
    ensures |r| < |s| ==> !IsDigit(s[|r|])
  {
    s[..SkipWhileFrom(s, 0, IsDigit)]
  }

  /** A run of digits followed by a non-digit (or nothing) is the leading digit run. */
  lemma LeadingDigitsOf(d: string, rest: string)
    requires forall i :: 0 <= i < |d| ==> IsDigit(d[i])
    requires rest == [] || !IsDigit(rest[0])
    ensures LeadingDigits(d + rest) == d
  {
    var s := d + rest;
    var r := LeadingDigits(s);
    assert forall i :: 0 <= i < |d| ==> s[i] == d[i];
    assert |r| >= |d|;
    if rest != [] {
      assert s[|d|] == rest[0];
      assert forall i :: 0 <= i < |r| ==> IsDigit(s[i]);
    }
    assert |r| == |d|;
    assert r == s[..|d|] == d;
  }

  /** Unsigned decimal text: digits with an optional fraction, at least one digit in all. */
  function UnsignedDecimal(body: string): (r: Option<real>)
  {
    var whole := LeadingDigits(body);
    var frac := if |whole| < |body| && body[|whole|] == '.' then LeadingDigits(body[|whole| + 1..]) else [];
    if whole == [] && frac == [] then None
    else Some(DigitsValue(whole) as real + DigitsValue(frac) as real / Pow10(|frac|) as real)
  }

  /**
   * `parseFloat` on decimal text: leading whitespace, an optional sign, digits
   * and an optional fraction; NaN when no digit starts the text.
   */
  function ParseFloat(s: string): (r: Num)
    ensures r.NaN? || r.Finite?
  {
    var t := TrimStart(s);
    var neg := t != [] && t[0] == '-';
    var signed := t != [] && (t[0] == '-' || t[0] == '+');
    match UnsignedDecimal(if signed then t[1..] else t)
    case None => NaN
    case Some(v) => Finite(if neg then -v else v)
  }

  lemma UnsignedDecimalOfDigits(t: string)
    requires t != [] && forall i :: 0 <= i < |t| ==> IsDigit(t[i])
    ensures UnsignedDecimal(t) == Some(DigitsValue(t) as real)
  {
    LeadingDigitsAll(t);
    var empty: string := [];
    assert DigitsValue(empty) == 0 && Pow10(0) == 1;
  }

  lemma LeadingDigitsAll(t: string)
    requires forall i :: 0 <= i < |t| ==> IsDigit(t[i])
    ensures LeadingDigits(t) == t
  {
  }

  /** `parseFloat(String(n))` is `n`. */
  lemma ParseFloatNatToString(n: nat)
    ensures ParseFloat(NatToString(n)) == Finite(n as real)
  {
    var t := NatToString(n);
    assert TrimStart(t) == t;
    UnsignedDecimalOfDigits(t);
    DigitsValueOfNatToString(n);
  }
}
