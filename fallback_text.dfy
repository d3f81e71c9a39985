// The text helpers of the fallback statblock parser
// (scripts/monster-creator-statblock-parser.js): `safeString`,
// `combineToString`, `splitSentences`, `makeSlug`, `formatForDisplay`, the
// challenge reader, the two entry-title patterns and the sentence-based
// `getBlockDatas`.
module FallbackText {
  import opened Text
  import SbiRegex

  // ----- safeString -----

  /**
   * `safeString(value, fallback)` on a string or a missing value: the trimmed
   * text, or the fallback when the value is missing or blank.
   */
  function SafeString(value: Option<string>, fallback: Option<string>): (r: Option<string>)
    ensures r != fallback ==> value.Some? && r == Some(Trim(value.value)) && r.value != []
    ensures value.Some? && Trim(value.value) != [] ==> r == Some(Trim(value.value))
  {
    if value.None? || Trim(value.value) == [] then fallback else Some(Trim(value.value))
  }

  // ----- combineToString -----

  /** `filter(Boolean)` on strings: the non-empty ones, in order. */
  function NonEmpty(lines: seq<string>): (r: seq<string>)
    ensures |r| <= |lines|
    ensures forall k :: 0 <= k < |r| ==> r[k] != []
    ensures forall x :: x in r <==> x in lines && x != []
  {
    if lines == [] then []
    else
      assert lines == [lines[0]] + lines[1..];
      (if lines[0] == [] then [] else [lines[0]]) + NonEmpty(lines[1..])
  }

  /**
   * `replace(/  /g, ' ')`: the pairs of spaces found left to right, without
   * overlap, each become one space. A run of spaces is halved (rounding up),
   * not collapsed: three spaces become two.
   */
  function HalveSpaces(s: string): (r: string)
    ensures |r| <= |s|
    ensures s != [] ==> r != [] && r[0] == s[0]
  {
    if |s| >= 2 && s[0] == ' ' && s[1] == ' ' then " " + HalveSpaces(s[2..])
    else if s == [] then []
    else [s[0]] + HalveSpaces(s[1..])
  }

  /**
   * `combineToString(lines)`: the non-empty lines joined with single spaces,
   * pairs of spaces halved, and the first "- " turned into "-".
   */
  function CombineToString(lines: seq<string>): (r: string)
  {
    ReplaceFirst(HalveSpaces(Join(NonEmpty(lines), " ")), "- ", "-")
  }

  predicate DoubleSpaceAt(s: string, i: nat) { i + 1 < |s| && s[i] == ' ' && s[i + 1] == ' ' }

  predicate NoDoubleSpace(s: string) { forall i :: 0 <= i < |s| ==> !DoubleSpaceAt(s, i) }

  predicate TripleSpaceAt(s: string, i: nat) { i + 2 < |s| && s[i] == ' ' && s[i + 1] == ' ' && s[i + 2] == ' ' }

  predicate NoTripleSpace(s: string) { forall i :: 0 <= i < |s| ==> !TripleSpaceAt(s, i) }

  /** Text without a pair of spaces is left as it is. */
  lemma {:induction false} HalveSpacesKeeps(s: string)
    requires NoDoubleSpace(s)
    ensures HalveSpaces(s) == s
  {
    if s != [] {
      assert !DoubleSpaceAt(s, 0);
      assert NoDoubleSpace(s[1..]) by {
        forall i | 0 <= i < |s[1..]| ensures !DoubleSpaceAt(s[1..], i) {
          assert !DoubleSpaceAt(s, i + 1);
        }
      }
      HalveSpacesKeeps(s[1..]);
      assert [s[0]] + s[1..] == s;
    }
  }

  /** Without a run of three spaces, halving leaves no pair of spaces behind. */
  lemma {:induction false} HalveSpacesLeavesNoPair(s: string)
    requires NoTripleSpace(s)
    ensures NoDoubleSpace(HalveSpaces(s))
  {
    if |s| >= 2 && s[0] == ' ' && s[1] == ' ' {
      assert NoTripleSpace(s[2..]) by {
        forall i | 0 <= i < |s[2..]| ensures !TripleSpaceAt(s[2..], i) {
          assert !TripleSpaceAt(s, i + 2);
        }
      }
      HalveSpacesLeavesNoPair(s[2..]);
      var t := HalveSpaces(s[2..]);
      assert !TripleSpaceAt(s, 0);
      assert t != [] ==> t[0] != ' ';
      forall i | 0 <= i < |" " + t| ensures !DoubleSpaceAt(" " + t, i) {
        if i > 0 { assert !DoubleSpaceAt(t, i - 1); }
      }
    } else if s != [] {
      assert NoTripleSpace(s[1..]) by {
        forall i | 0 <= i < |s[1..]| ensures !TripleSpaceAt(s[1..], i) {
          assert !TripleSpaceAt(s, i + 1);
        }
      }
      HalveSpacesLeavesNoPair(s[1..]);
      var t := HalveSpaces(s[1..]);
      forall i | 0 <= i < |[s[0]] + t| ensures !DoubleSpaceAt([s[0]] + t, i) {
        if i > 0 { assert !DoubleSpaceAt(t, i - 1); }
      }
    }
  }

  /** Three spaces become two: the single pass does not collapse longer runs. */
  lemma ThreeSpacesBecomeTwo()
    ensures HalveSpaces("a   b") == "a  b"
  {
    assert HalveSpaces("b") == "b";
    assert HalveSpaces(" b") == " b";
    assert HalveSpaces("   b") == "  b";
  }

  // ----- splitSentences -----

  /** `[.!]`: the characters `splitSentences` cuts at. */
  predicate IsStop(c: char) { c == '.' || c == '!' }

  /** Number of stop characters in a string. */
  function StopCount(s: string): nat
  {
    if s == [] then 0 else (if IsStop(s[0]) then 1 else 0) + StopCount(s[1..])
  }

  /** `split(/[.!]/)`: the pieces between stop characters, one more piece than there are stops. */
  function SplitStops(s: string): (r: seq<string>)
    ensures |r| == StopCount(s) + 1
    ensures forall k, i :: 0 <= k < |r| && 0 <= i < |r[k]| ==> !IsStop(r[k][i])
  {
    if s == [] then [[]]
    else
      var rest := SplitStops(s[1..]);
      if IsStop(s[0]) then [[]] + rest
      else
        assert forall i :: 1 <= i < |[s[0]] + rest[0]| ==> ([s[0]] + rest[0])[i] == rest[0][i - 1];
        [[s[0]] + rest[0]] + rest[1..]
  }

  /** A piece turned into a sentence: trimmed, with a "." added. */
  function Sentence(piece: string): (r: string)
    ensures r != [] && r[|r| - 1] == '.'
  {
    Trim(piece) + "."
  }

  /**
   * `splitSentences(lines)`: the combined text cut at every "." and "!", the
   * empty pieces dropped, and each remaining piece trimmed and ended with ".".
   */
  function SplitSentences(lines: seq<string>): (r: seq<string>)
    ensures forall k :: 0 <= k < |r| ==> r[k] != [] && r[k][|r[k]| - 1] == '.'
  {
    var pieces := NonEmpty(SplitStops(CombineToString(lines)));
    seq(|pieces|, k requires 0 <= k < |pieces| => Sentence(pieces[k]))
  }

  /** A sentence holds one stop character, the "." at its end; its text before it is the trimmed piece. */
  lemma SentenceShape(piece: string)
    requires forall i :: 0 <= i < |piece| ==> !IsStop(piece[i])
    ensures var r := Sentence(piece);
      r[..|r| - 1] == Trim(piece) && forall i :: 0 <= i < |r| - 1 ==> !IsStop(r[i])
  {
    var a, b := TrimSlice(piece);
    var r := Sentence(piece);
    assert r[..|r| - 1] == piece[a..b];
    forall i | 0 <= i < |r| - 1 ensures !IsStop(r[i]) {
      assert r[i] == piece[a + i];
    }
  }

  /** Every sentence `splitSentences` yields ends in "." and holds no other stop character. */
  lemma SentencesEndOnce(lines: seq<string>, k: nat)
    requires k < |SplitSentences(lines)|
    ensures var r := SplitSentences(lines)[k];
      r[|r| - 1] == '.' && forall i :: 0 <= i < |r| - 1 ==> !IsStop(r[i])
  {
    var all := SplitStops(CombineToString(lines));
    var pieces := NonEmpty(all);
    assert pieces[k] in all;
    var j :| 0 <= j < |all| && all[j] == pieces[k];
    SentenceShape(pieces[k]);
  }

  /** A piece of blank text between two stops still yields a sentence: a lone ".". */
  lemma {:induction false} BlankPieceIsDot(piece: string)
    requires forall i :: 0 <= i < |piece| ==> IsSpace(piece[i])
    ensures Trim(piece) == [] && Sentence(piece) == "."
  {
    if piece != [] {
      BlankPieceIsDot(piece[1..]);
    }
  }

  /** A replacement whose pattern's first character does not occur changes nothing. */
  lemma ReplaceFirstAbsent(s: string, t: string, u: string)
    requires t != [] && t[0] !in s
    ensures ReplaceFirst(s, t, u) == s
  {
  }

  // ----- makeSlug -----

  /** `[\u0300-\u036f]`: the combining diacritical marks. */
  predicate IsCombiningMark(c: char) { '\U{0300}' <= c <= '\U{036F}' }

  /** `replace(/[\u0300-\u036f]/g, '')`. */
  function DropMarks(s: string): (r: string)
    ensures |r| <= |s|
    ensures forall i :: 0 <= i < |r| ==> !IsCombiningMark(r[i])
  {
    if s == [] then []
    else (if IsCombiningMark(s[0]) then [] else [s[0]]) + DropMarks(s[1..])
  }

  /** `[a-z0-9]`: the characters a slug keeps. */
  predicate IsSlugChar(c: char) { IsLower(c) || IsDigit(c) }

  predicate IsOtherChar(c: char) { !IsSlugChar(c) }

  predicate SlugAlphabet(s: string) { forall i :: 0 <= i < |s| ==> IsSlugChar(s[i]) || s[i] == '-' }

  predicate NoDoubleHyphen(s: string) { forall i :: 0 <= i < |s| - 1 ==> !(s[i] == '-' && s[i + 1] == '-') }

  /** `replace(/[^a-z0-9]+/g, '-')`: every maximal run of other characters becomes one hyphen. */
  function Hyphenate(s: string): (r: string)
    decreases |s|
    ensures SlugAlphabet(r) && NoDoubleHyphen(r)
    ensures s != [] ==> r != [] && (r[0] == '-' <==> !IsSlugChar(s[0]))
  {
    if s == [] then []
    else if IsSlugChar(s[0]) then
      var t := Hyphenate(s[1..]);
      assert forall i :: 1 <= i < |[s[0]] + t| ==> ([s[0]] + t)[i] == t[i - 1];
      [s[0]] + t
    else
      var e := SkipWhileFrom(s, 0, IsOtherChar);
      var t := Hyphenate(s[e..]);
      assert forall i :: 1 <= i < |"-" + t| ==> ("-" + t)[i] == t[i - 1];
      "-" + t
  }

  /** `replace(/(^-|-$)/g, '')`: a leading and a trailing hyphen removed. */
  function StripEdgeHyphens(s: string): (r: string)
    requires NoDoubleHyphen(s)
    ensures r == [] || (r[0] != '-' && r[|r| - 1] != '-')
    ensures SlugAlphabet(s) ==> SlugAlphabet(r)
    ensures NoDoubleHyphen(r) && |r| <= |s|
  {
    var a := if s != [] && s[0] == '-' then s[1..] else s;
    assert forall i :: 0 <= i < |a| ==> a[i] == s[i + |s| - |a|];
    if a != [] && a[|a| - 1] == '-' then a[..|a| - 1] else a
  }

  /** `slice(0, 90)`. */
  function Take90(s: string): (r: string)
    ensures |r| <= 90 && |r| <= |s| && r == s[..|r|] && (|s| <= 90 ==> r == s)
  {
    if |s| <= 90 then s else s[..90]
  }

  /** The lower-cased name, or "monster" when it is blank, with its marks dropped and its other characters hyphenated. */
  function SlugBase(value: string): (r: string)
    ensures SlugAlphabet(r) && NoDoubleHyphen(r)
  {
    Hyphenate(DropMarks(Lower(SafeString(Some(value), Some("monster")).value)))
  }

  /**
   * `makeSlug(value)` as written: the edge hyphens are removed before the
   * slug is cut to 90 characters, so a cut that falls just after a hyphen
   * leaves a trailing one.
   */
  function MakeSlugAsWritten(value: string): (r: string)
    ensures |r| <= 90 && SlugAlphabet(r)
    ensures r == [] || r[0] != '-'
  {
    var s := StripEdgeHyphens(SlugBase(value));
    assert Take90(s) == s[..|Take90(s)|];
    Take90(s)
  }

  /**
   * `makeSlug(value)` with the edge hyphens removed after the cut: at most 90
   * characters of [a-z0-9-], beginning and ending with a letter or digit.
   */
  function MakeSlug(value: string): (r: string)
    ensures |r| <= 90 && SlugAlphabet(r)
    ensures r == [] || (r[0] != '-' && r[|r| - 1] != '-')
  {
    var s := Take90(SlugBase(value));
    assert s == SlugBase(value)[..|s|];
    StripEdgeHyphens(s)
  }

  predicate AllLower(w: string) { forall i :: 0 <= i < |w| ==> IsLower(w[i]) }

  /** Letters and digits pass through hyphenation unchanged. */
  lemma {:induction false} HyphenateKeeps(w: string, rest: string)
    requires AllLower(w)
    ensures Hyphenate(w + rest) == w + Hyphenate(rest)
  {
    if w != [] {
      assert (w + rest)[0] == w[0] && (w + rest)[1..] == w[1..] + rest;
      HyphenateKeeps(w[1..], rest);
      assert [w[0]] + w[1..] == w;
    } else {
      assert w + rest == rest;
    }
  }

  /** Text with no whitespace at its ends is its own trim. */
  lemma TrimKeeps(v: string)
    requires v != [] && !IsSpace(v[0]) && !IsSpace(v[|v| - 1])
    ensures Trim(v) == v
  {
    assert TrimStart(v) == v;
  }

  /** Text with no capital letter is its own lower case. */
  lemma LowerKeeps(v: string)
    requires forall i :: 0 <= i < |v| ==> !IsUpper(v[i])
    ensures Lower(v) == v
  {
  }

  /** The base of a slug for lower-case letters, a space and a letter: the space becomes a hyphen. */
  lemma SlugBaseOfTwoWords(w: string, c: char)
    requires w != [] && AllLower(w) && IsLower(c)
    ensures SlugBase(w + " " + [c]) == w + "-" + [c]
  {
    var v := w + " " + [c];
    var tail := " " + [c];
    assert v == w + tail;
    calc {
      SlugBase(v);
    == { TrimKeeps(v); LowerKeeps(v); }
      Hyphenate(DropMarks(v));
    == { DropMarksKeeps(w, tail); assert DropMarks([c]) == [c]; }
      Hyphenate(w + tail);
    == { HyphenateKeeps(w, tail); }
      w + Hyphenate(tail);
    == { assert SkipWhileFrom(tail, 0, IsOtherChar) == 1 && tail[1..] == [c] && Hyphenate([c]) == [c]; }
      w + "-" + [c];
    }
  }

  /**
   * A name of 89 lower-case letters, a space and one more letter: its slug
   * as written is cut just after the hyphen and ends with it, while the
   * corrected slug drops it.
   */
  lemma SlugCutAtHyphen(w: string, c: char)
    requires |w| == 89 && AllLower(w) && IsLower(c)
    ensures MakeSlugAsWritten(w + " " + [c]) == w + "-"
    ensures MakeSlug(w + " " + [c]) == w
  {
    SlugBaseOfTwoWords(w, c);
    var b := w + "-" + [c];
    assert Take90(b) == w + "-" by {
      assert b[..90] == w + "-";
    }
    assert MakeSlugAsWritten(w + " " + [c]) == w + "-" by {
      assert StripEdgeHyphens(b) == b;
    }
    assert MakeSlug(w + " " + [c]) == w by {
      assert (w + "-")[..|w + "-"| - 1] == w;
    }
  }

  lemma {:induction false} DropMarksKeeps(w: string, rest: string)
    requires AllLower(w)
    ensures DropMarks(w + rest) == w + DropMarks(rest)
  {
    if w != [] {
      assert (w + rest)[0] == w[0] && (w + rest)[1..] == w[1..] + rest;
      DropMarksKeeps(w[1..], rest);
      assert [w[0]] + w[1..] == w;
    } else {
      assert w + rest == rest;
    }
  }

  // ----- formatForDisplay -----

  /** `replaceAll('•', '\n•')`: a line break before every bullet. */
  function BreakBullets(s: string): (r: string)
  {
    if s == [] then [] else (if s[0] == '\U{2022}' then "\n\U{2022}" else [s[0]]) + BreakBullets(s[1..])
  }

  /**
   * `formatForDisplay(text)`: "" for empty text; otherwise the text cut into
   * lines at its line breaks and before its bullets, each line wrapped in a
   * paragraph when there is more than one.
   */
  function FormatForDisplay(text: string): (r: string)
  {
    if text == [] then []
    else
      var parts := Split(BreakBullets(text), '\n');
      if |parts| > 1 then "<p>" + Join(parts, "</p><p>") + "</p>" else Join(parts, "")
  }

  lemma {:induction false} BreakBulletsKeeps(s: string)
    requires '\U{2022}' !in s
    ensures BreakBullets(s) == s
  {
    if s != [] {
      assert s[0] != '\U{2022}';
      BreakBulletsKeeps(s[1..]);
      assert [s[0]] + s[1..] == s;
    }
  }

  lemma {:induction false} BreakBulletsBreaks(s: string)
    requires '\U{2022}' in s
    ensures '\n' in BreakBullets(s)
  {
    if s[0] == '\U{2022}' {
      assert BreakBullets(s)[0] == '\n';
    } else {
      assert s == [s[0]] + s[1..];
      BreakBulletsBreaks(s[1..]);
      var t := BreakBullets(s[1..]);
      var i :| 0 <= i < |t| && t[i] == '\n';
      assert BreakBullets(s)[i + 1] == t[i];
    }
  }

  /** Text with no bullet and no line break is shown as it is. */
  lemma DisplayPlainText(text: string)
    requires '\U{2022}' !in text && '\n' !in text
    ensures FormatForDisplay(text) == text
  {
    if text != [] {
      BreakBulletsKeeps(text);
      SplitNoSep(text, '\n');
    }
  }

  /** Text with a bullet is shown as paragraphs. */
  lemma DisplayBullets(text: string)
    requires '\U{2022}' in text
    ensures StartsWith(FormatForDisplay(text), "<p>")
  {
    BreakBulletsBreaks(text);
    var b := BreakBullets(text);
    var parts := Split(b, '\n');
    StartsWithAppend("<p>", Join(parts, "</p><p>") + "</p>");
    assert "<p>" + Join(parts, "</p><p>") + "</p>" == "<p>" + (Join(parts, "</p><p>") + "</p>");
  }

  // ----- the two entry-title patterns -----

  /** `[\w –\-\/]`: the characters of a title's parenthetical. */
  predicate IsParenChar(c: char) { IsWord(c) || c == ' ' || c == '\U{2013}' || c == '-' || c == '/' }

  /** Index of the first "." or "!" at or after `from`. */
  function FirstStop(s: string, from: nat): (r: Option<nat>)
    requires from <= |s|
    decreases |s| - from
    ensures r.Some? ==> from <= r.value < |s| && IsStop(s[r.value])
    ensures r.Some? ==> forall i :: from <= i < r.value ==> !IsStop(s[i])
    ensures r.None? ==> forall i :: from <= i < |s| ==> !IsStop(s[i])
  {
    if from == |s| then None else if IsStop(s[from]) then Some(from) else FirstStop(s, from + 1)
  }

  /** Index of the last "(" before position `n`. */
  function LastOpen(s: string, n: nat): (r: Option<nat>)
    requires n <= |s|
    ensures r.Some? ==> r.value < n && s[r.value] == '('
    ensures r.Some? ==> forall i :: r.value < i < n ==> s[i] != '('
    ensures r.None? ==> forall i :: 0 <= i < n ==> s[i] != '('
  {
    if n == 0 then None else if s[n - 1] == '(' then Some(n - 1) else LastOpen(s, n - 1)
  }

  predicate IsNonSpace(c: char) { !IsSpace(c) }

  /** The word after the first whitespace character, or "" when there is none. */
  function SecondWord(h: string): string
  {
    var i1 := SkipWhileFrom(h, 0, IsNonSpace);
    if i1 < |h| then h[i1 + 1..SkipWhileFrom(h, i1 + 1, IsNonSpace)] else []
  }

  /**
   * The head of an entry title,
   * `[A-Z][\w\d\-+,;'’]+[\s-]?((of|and|…|into)\s)?([\w\d\-+,;'’]+\s?){0,3}`,
   * resolved by hand: a capital letter and a title character, then title
   * characters and single whitespace characters. A run of title characters may
   * be split over several repetitions, so only the words count: the
   * whitespace characters followed by more text separate at most three further
   * words, or four when the second word is the preposition.
   */
  predicate TitleHead(h: string)
  {
    |h| >= 2 && IsUpper(h[0]) && SbiRegex.IsTitleChar(h[1])
    && (forall i :: 0 <= i < |h| ==> SbiRegex.IsTitleChar(h[i]) || IsSpace(h[i]))
    && (forall i :: 0 <= i < |h| - 1 ==> !(IsSpace(h[i]) && IsSpace(h[i + 1])))
    && var words := SbiRegex.Spaces(h) - (if IsSpace(h[|h| - 1]) then 1 else 0);
       words <= 3 || (words == 4 && SbiRegex.IsPreposition(SecondWord(h)))
  }

  /**
   * `blockTitle` (case-sensitive) tested on a line or a sentence: the text
   * before the first "." or "!" is a title head, followed by an optional
   * parenthetical of `[\w –\-\/]` characters. No character of the pattern
   * before its terminator can be a stop, so the terminator is the first stop.
   */
  predicate FallbackTitle(s: string)
    ensures FallbackTitle(s) ==> |s| >= 2 && IsUpper(s[0])
  {
    match FirstStop(s, 0)
    case None => false
    case Some(t) =>
      if t > 0 && s[t - 1] == ')' then
        match LastOpen(s, t - 1)
        case None => false
        case Some(o) =>
          o + 1 < t - 1 && (forall i :: o + 1 <= i < t - 1 ==> IsParenChar(s[i])) && TitleHead(s[..o])
      else TitleHead(s[..t])
  }

  /** The characters JavaScript's `.` does not match. */
  predicate IsLineTerminator(c: char) { c == '\n' || c == '\r' || c == '\U{2028}' || c == '\U{2029}' }

  /** `blockTitleLegacy`, `^([A-Za-z].*[.!?])$`: a letter, then anything on one line, then ".", "!" or "?". */
  predicate LegacyTitle(s: string)
  {
    |s| >= 2 && IsLetter(s[0]) && (s[|s| - 1] == '.' || s[|s| - 1] == '!' || s[|s| - 1] == '?')
    && forall i :: 1 <= i < |s| - 1 ==> !IsLineTerminator(s[i])
  }

  /** The title test `getBlockDatas` applies to each sentence: either pattern. */
  predicate IsTitleSentence(s: string) { FallbackTitle(s) || LegacyTitle(s) }

  /**
   * On a sentence ending in "." with no line break, the two patterns together
   * accept exactly the sentences that begin with a letter.
   */
  lemma TitleSentenceIffLetter(s: string)
    requires s != [] && s[|s| - 1] == '.'
    requires forall i :: 0 <= i < |s| ==> !IsLineTerminator(s[i])
    ensures IsTitleSentence(s) <==> IsLetter(s[0])
  {
  }

  // ----- parseChallenge -----

  /** `[\d/½]`: the characters of a rating. */
  predicate IsCrChar(c: char) { IsDigit(c) || c == '/' || c == '\U{00BD}' }

  /** `[\d,]`: the characters of an experience-point figure. */
  predicate IsXpChar(c: char) { IsDigit(c) || c == ',' }

  /** `\s*` then the first character of `[\d/½]+` from `i`: where the rating starts. */
  function RatingAfter(l: string, i: nat): (r: Option<nat>)
    requires i <= |l|
    ensures r.Some? ==> i <= r.value < |l| && IsCrChar(l[r.value])
  {
    var j := SkipWhileFrom(l, i, IsSpace);
    if j < |l| && IsCrChar(l[j]) then Some(j) else None
  }

  /**
   * `(Challenge|\bcr\b|challenge rating)\s*[\d/½]+` (case-insensitive) tried
   * at position `i` of the lower-cased text, the alternatives in order: where
   * the rating starts.
   */
  function ChallengeAt(l: string, i: nat): (r: Option<nat>)
    requires i <= |l|
    ensures r.Some? ==> i < r.value < |l| && IsCrChar(l[r.value])
  {
    if SbiRegex.TextAt(l, i, "challenge") && RatingAfter(l, i + 9).Some? then RatingAfter(l, i + 9)
    else if SbiRegex.TextAt(l, i, "cr") && (i == 0 || !IsWord(l[i - 1])) && SbiRegex.WordEndsAt(l, i + 2)
      && RatingAfter(l, i + 2).Some? then RatingAfter(l, i + 2)
    else if SbiRegex.TextAt(l, i, "challenge rating") && RatingAfter(l, i + 16).Some? then RatingAfter(l, i + 16)
    else None
  }

  /** The leftmost match of the challenge pattern at or after `i`: where its rating starts. */
  function FirstChallenge(l: string, i: nat): (r: Option<nat>)
    requires i <= |l|
    decreases |l| - i
    ensures r.Some? ==> i < r.value < |l| && IsCrChar(l[r.value])
  {
    match ChallengeAt(l, i)
    case Some(c) => Some(c)
    case None => if i == |l| then None else FirstChallenge(l, i + 1)
  }

  /** `\s*(\((?<xp>[\d,]+)\s*xp\))?` after the rating that ends at `c`: the `xp` group when it is there. */
  function XpAfter(l: string, c: nat): (r: Option<string>)
    requires c <= |l|
    ensures r.Some? ==> r.value != [] && forall i :: 0 <= i < |r.value| ==> IsXpChar(r.value[i])
  {
    var j := SkipWhileFrom(l, c, IsSpace);
    if j < |l| && l[j] == '(' then
      var d := SkipWhileFrom(l, j + 1, IsXpChar);
      var k := SkipWhileFrom(l, d, IsSpace);
      if d > j + 1 && SbiRegex.TextAt(l, k, "xp)") then Some(l[j + 1..d]) else None
    else None
  }

  /** The `cr` and `xp` groups of a match of the challenge pattern. */
  datatype ChallengeGroups = ChallengeGroups(cr: string, xp: Option<string>)

  /** `sbiRegex.challenge.exec(line)`: the groups of the leftmost match, the rating taken whole. */
  function ChallengeMatch(line: string): (r: Option<ChallengeGroups>)
    ensures r.Some? ==> r.value.cr != [] && forall i :: 0 <= i < |r.value.cr| ==> IsCrChar(r.value.cr[i])
  {
    var l := Lower(line);
    match FirstChallenge(l, 0)
    case None => None
    case Some(c) =>
      var e := SkipWhileFrom(l, c, IsCrChar);
      Some(ChallengeGroups(l[c..e], XpAfter(l, e)))
  }

  predicate AllDigits(s: string) { forall i :: 0 <= i < |s| ==> IsDigit(s[i]) }

  /**
   * `safeNumber(text, 0)` on text made of rating or figure characters:
   * `Number` reads "" as 0 and a run of digits as its value; anything else is
   * NaN, which gives the fallback 0.
   */
  function NumberOr0(s: string): (r: nat)
    ensures AllDigits(s) ==> r == DigitsValue(s)
    ensures !AllDigits(s) ==> r == 0
  {
    if AllDigits(s) then DigitsValue(s) else 0
  }

  /** A separator that occurs cuts the text into at least two pieces. */
  lemma SplitSeveral(s: string, c: char)
    requires c in s
    ensures |Split(s, c)| >= 2
  {
  }

  /** A rating: the challenge as an exact rational and its experience points. */
  datatype ChallengeRating = ChallengeRating(cr: real, xp: nat)

  /**
   * What `parseChallenge` makes of the groups: "½" is 0.5; "a/b" with both
   * parts non-zero is a/b; both with no experience points. Anything else is
   * read as a number (0 when it is not one) with the figure's commas removed.
   */
  function ReadChallenge(g: ChallengeGroups): (r: ChallengeRating)
    ensures r.cr >= 0.0
  {
    var value := SafeString(Some(g.cr), Some("0")).value;
    if value == "\U{00BD}" then ChallengeRating(0.5, 0)
    else
      var left := if '/' in value then (SplitSeveral(value, '/'); NumberOr0(Split(value, '/')[0])) else 0;
      var right := if '/' in value then (SplitSeveral(value, '/'); NumberOr0(Split(value, '/')[1])) else 0;
      if '/' in value && left != 0 && right != 0 then ChallengeRating(left as real / right as real, 0)
      else ChallengeRating(NumberOr0(value) as real, NumberOr0(DropCommas(if g.xp.Some? then g.xp.value else "")))
  }

  /** `parseChallenge(line)`: None when the challenge pattern does not match. */
  function ParseChallenge(line: string): (r: Option<ChallengeRating>)
    ensures r.None? <==> ChallengeMatch(line).None?
    ensures r.Some? ==> r.value == ReadChallenge(ChallengeMatch(line).value)
  {
    match ChallengeMatch(line)
    case None => None
    case Some(g) => Some(ReadChallenge(g))
  }

  /** "½" is 0.5 with no experience points. */
  lemma ReadHalf(xp: Option<string>)
    ensures ReadChallenge(ChallengeGroups("\U{00BD}", xp)) == ChallengeRating(0.5, 0)
  {
    TrimKeeps("\U{00BD}");
  }

  /** "a/b" with both parts non-zero is a/b, and the experience points are dropped. */
  lemma ReadFraction(a: string, b: string, xp: Option<string>)
    requires AllDigits(a) && AllDigits(b) && DigitsValue(a) != 0 && DigitsValue(b) != 0
    ensures ReadChallenge(ChallengeGroups(a + "/" + b, xp)) == ChallengeRating(DigitsValue(a) as real / DigitsValue(b) as real, 0)
  {
    var v := a + "/" + b;
    assert a != [] && b != [];
    TrimKeeps(v);
    assert v[|a|] == '/';
    assert '/' !in a && '/' !in b;
    SplitAtFirst(a, '/', b);
    SplitNoSep(b, '/');
    assert Split(v, '/') == [a, b];
  }

  /** A run of digits is its value, with the experience points read from the figure without its commas. */
  lemma ReadWhole(d: string, xp: string)
    requires d != [] && AllDigits(d)
    ensures ReadChallenge(ChallengeGroups(d, Some(xp))) == ChallengeRating(DigitsValue(d) as real, NumberOr0(DropCommas(xp)))
  {
    TrimKeeps(d);
    assert '/' !in d;
    assert d[0] != '\U{00BD}';
  }

  /** A fraction with a zero part is not a number: the rating falls back to 0 and keeps the experience points. */
  lemma ReadZeroFraction(a: string, b: string, xp: string)
    requires AllDigits(a) && AllDigits(b) && (DigitsValue(a) == 0 || DigitsValue(b) == 0)
    ensures ReadChallenge(ChallengeGroups(a + "/" + b, Some(xp))) == ChallengeRating(0.0, NumberOr0(DropCommas(xp)))
  {
    var v := a + "/" + b;
    assert v[|a|] == '/';
    assert !AllDigits(v);
    if v[0] != ' ' && v[|v| - 1] != ' ' {
      TrimKeeps(v);
    }
    assert '/' !in a && '/' !in b;
    SplitAtFirst(a, '/', b);
    SplitNoSep(b, '/');
    assert Split(v, '/') == [a, b];
  }

  // ----- getBlockDatas -----

  /** A named entry: its name and its text. */
  datatype Entry = Entry(name: string, value: string)

  /** `sentence.replace(/[.!]$/, '')`. */
  function DropFinalStop(s: string): (r: string)
  {
    if s != [] && IsStop(s[|s| - 1]) then s[..|s| - 1] else s
  }

  /**
   * One iteration of the `getBlockDatas` loop: a title sentence starts an
   * entry named by it; other text joins the current entry (the last one),
   * after a space when it already has text; before any entry it starts a
   * "Description" entry.
   */
  function AddSentence(title: string -> bool, entries: seq<Entry>, s: string): (r: seq<Entry>)
    ensures r != []
    ensures title(s) ==> r == entries + [Entry(DropFinalStop(s), "")]
    ensures !title(s) && entries != [] ==>
      |r| == |entries| && r[..|r| - 1] == entries[..|entries| - 1] && r[|r| - 1].name == entries[|entries| - 1].name
    ensures !title(s) && entries == [] ==> r == [Entry("Description", s)]
  {
    if title(s) then entries + [Entry(DropFinalStop(s), "")]
    else if entries != [] then
      var active := entries[|entries| - 1];
      entries[..|entries| - 1] + [Entry(active.name, if active.value != [] then active.value + " " + s else s)]
    else [Entry("Description", s)]
  }

  /** The entries after the loop has taken the sentences in order. */
  function Grouped(title: string -> bool, sentences: seq<string>): (r: seq<Entry>)
    ensures r == [] <==> sentences == []
  {
    if sentences == [] then []
    else AddSentence(title, Grouped(title, sentences[..|sentences| - 1]), sentences[|sentences| - 1])
  }

  function Names(entries: seq<Entry>): (r: seq<string>)
    ensures |r| == |entries| && forall k :: 0 <= k < |r| ==> r[k] == entries[k].name
  {
    seq(|entries|, k requires 0 <= k < |entries| => entries[k].name)
  }

  /** The names the title sentences give, in order. */
  function TitleNames(title: string -> bool, sentences: seq<string>): seq<string>
  {
    if sentences == [] then []
    else
      var last := sentences[|sentences| - 1];
      TitleNames(title, sentences[..|sentences| - 1]) + (if title(last) then [DropFinalStop(last)] else [])
  }

  /** "Description" when text comes before the first title. */
  function Lead(title: string -> bool, sentences: seq<string>): seq<string>
  {
    if sentences != [] && !title(sentences[0]) then ["Description"] else []
  }

  /**
   * The entries are named, in order, "Description" when text comes before the
   * first title, then one entry for each title sentence: no sentence is lost
   * and each title starts exactly one entry.
   */
  lemma {:induction false} GroupedNames(title: string -> bool, sentences: seq<string>)
    ensures Names(Grouped(title, sentences)) == Lead(title, sentences) + TitleNames(title, sentences)
  {
    if sentences != [] {
      var init := sentences[..|sentences| - 1];
      var last := sentences[|sentences| - 1];
      GroupedNames(title, init);
      var g := Grouped(title, init);
      GroupedStep(title, g, last);
      var lead := Lead(title, sentences);
      var extra := if title(last) then [DropFinalStop(last)] else [];
      assert Grouped(title, sentences) == AddSentence(title, g, last);
      assert TitleNames(title, sentences) == TitleNames(title, init) + extra;
      if init == [] {
        assert sentences == [last];
        assert TitleNames(title, init) == [] && g == [];
      } else {
        assert init[0] == sentences[0];
        assert lead == Lead(title, init) && g != [];
        Regroup(lead, TitleNames(title, init), extra);
      }
    }
  }

  /** Concatenation regroups. */
  lemma Regroup(a: seq<string>, b: seq<string>, c: seq<string>)
    ensures a + b + c == a + (b + c)
  {
  }

  /** How one sentence changes the names. */
  lemma GroupedStep(title: string -> bool, g: seq<Entry>, s: string)
    ensures title(s) ==> Names(AddSentence(title, g, s)) == Names(g) + [DropFinalStop(s)]
    ensures !title(s) && g != [] ==> Names(AddSentence(title, g, s)) == Names(g)
    ensures !title(s) && g == [] ==> Names(AddSentence(title, g, s)) == ["Description"]
  {
    var r := AddSentence(title, g, s);
    if !title(s) && g != [] {
      forall k | 0 <= k < |r| ensures Names(r)[k] == Names(g)[k] {
        if k < |r| - 1 { assert r[k] == r[..|r| - 1][k]; assert g[k] == g[..|g| - 1][k]; }
      }
    }
  }

  predicate LetterSentences(sentences: seq<string>)
  {
    forall k :: 0 <= k < |sentences| ==>
      sentences[k] != [] && sentences[k][|sentences[k]| - 1] == '.' && IsLetter(sentences[k][0])
      && forall i :: 0 <= i < |sentences[k]| ==> !IsLineTerminator(sentences[k][i])
  }

  /** One entry with no text for each sentence, named by it. */
  function TitleEntries(sentences: seq<string>): (r: seq<Entry>)
    ensures |r| == |sentences|
    ensures forall k :: 0 <= k < |r| ==> r[k] == Entry(DropFinalStop(sentences[k]), "")
  {
    seq(|sentences|, k requires 0 <= k < |sentences| => Entry(DropFinalStop(sentences[k]), ""))
  }

  /** When every sentence is a title, each becomes an entry of its own with no text. */
  lemma {:induction false} AllTitlesStandAlone(title: string -> bool, sentences: seq<string>)
    requires forall k :: 0 <= k < |sentences| ==> title(sentences[k])
    ensures Grouped(title, sentences) == TitleEntries(sentences)
  {
    if sentences != [] {
      var n := |sentences| - 1;
      var init := sentences[..n];
      assert forall k :: 0 <= k < |init| ==> init[k] == sentences[k];
      AllTitlesStandAlone(title, init);
      assert title(sentences[n]);
      assert Grouped(title, sentences) == TitleEntries(init) + [Entry(DropFinalStop(sentences[n]), "")];
      assert TitleEntries(sentences) == TitleEntries(init) + [Entry(DropFinalStop(sentences[n]), "")];
    }
  }

  /**
   * Every sentence that begins with a letter is a title to `getBlockDatas`:
   * when all do, each sentence becomes an entry of its own with no text.
   */
  lemma LetterSentencesStandAlone(sentences: seq<string>)
    requires LetterSentences(sentences)
    ensures Grouped(IsTitleSentence, sentences) == TitleEntries(sentences)
  {
    forall k | 0 <= k < |sentences| ensures IsTitleSentence(sentences[k]) {
      TitleSentenceIffLetter(sentences[k]);
    }
    AllTitlesStandAlone(IsTitleSentence, sentences);
  }

  /** The entries shown: each text passed through `formatForDisplay`. */
  function Displayed(entries: seq<Entry>): (r: seq<Entry>)
    ensures |r| == |entries| && forall k :: 0 <= k < |r| ==> r[k].name == entries[k].name
  {
    seq(|entries|, k requires 0 <= k < |entries| => Entry(entries[k].name, FormatForDisplay(entries[k].value)))
  }

  /** The `getBlockDatas` loop over the sentences, with its title test. */
  method GroupSentences(title: string -> bool, sentences: seq<string>) returns (result: seq<Entry>)
    ensures result == Grouped(title, sentences)
  {
    result := [];
    var i := 0;
    while i < |sentences|
      invariant i <= |sentences|
      invariant result == Grouped(title, sentences[..i])
    {
      var sentence := sentences[i];
      assert sentences[..i + 1][..i] == sentences[..i];
      if title(sentence) {
        result := result + [Entry(DropFinalStop(sentence), "")];
      } else if result != [] {
        var active := result[|result| - 1];
        var value := if active.value != [] then active.value + " " + sentence else sentence;
        result := result[..|result| - 1] + [Entry(active.name, value)];
      } else {
        result := [Entry("Description", sentence)];
      }
      i := i + 1;
    }
    assert sentences[..i] == sentences;
  }

  /**
   * The entries of a block: none when no line has text; otherwise the
   * sentences of the non-empty lines grouped under the entry titles, each
   * text formatted for display.
   */
  function BlockDatas(lines: seq<string>): seq<Entry>
  {
    if NonEmpty(lines) == [] then [] else Displayed(Grouped(IsTitleSentence, SplitSentences(NonEmpty(lines))))
  }

  /** `getBlockDatas(lines)`. */
  method GetBlockDatas(lines: seq<string>) returns (r: seq<Entry>)
    ensures r == BlockDatas(lines)
  {
    var validLines := NonEmpty(lines);
    if validLines == [] {
      return [];
    }
    var result := GroupSentences(IsTitleSentence, SplitSentences(validLines));
    r := seq(|result|, k requires 0 <= k < |result| => Entry(result[k].name, FormatForDisplay(result[k].value)));
  }
}
