// The renderer's text clean-up (scripts/statblock-formatter.js): the chain of
// regular-expression replacements behind `normalizeText` and
// `normalizeDescriptionText`, sentence endings, title case and size names.
// Each replacement is a global one over a single character class, written out
// as a function over the text.
module FormatterText {
  import opened Text
  import opened Js
  import Formatter
  import SbiActor

  predicate IsNewline(c: char) { c == '\n' }
  predicate IsUnderscore(c: char) { c == '_' }
  predicate NotSpace(c: char) { !IsSpace(c) }

  // ----- run replacement -----

  /**
   * `s.replace(/[p]{m,}/g, repl)`: every maximal run of characters
   * satisfying `p` that is at least `m` long becomes `repl`; shorter runs stay.
   */
  function ReplaceRuns(s: string, p: char -> bool, m: nat, repl: string): (r: string)
    decreases |s|
  {
    if s == [] then []
    else if !p(s[0]) then [s[0]] + ReplaceRuns(s[1..], p, m, repl)
    else
      var j := SkipWhileFrom(s, 0, p);
      (if j >= m then repl else s[..j]) + ReplaceRuns(s[j..], p, m, repl)
  }

  /** A character that is neither in the text nor in the replacement is not in the result. */
  lemma {:induction false} ReplaceRunsAvoids(s: string, p: char -> bool, m: nat, repl: string, c: char)
    requires c !in s && c !in repl
    ensures c !in ReplaceRuns(s, p, m, repl)
    decreases |s|
  {
    if s != [] {
      if !p(s[0]) {
        ReplaceRunsAvoids(s[1..], p, m, repl, c);
      } else {
        var j := SkipWhileFrom(s, 0, p);
        assert c !in s[..j];
        ReplaceRunsAvoids(s[j..], p, m, repl, c);
      }
    }
  }

  /** Replacing every run (`m` at most 1) by text outside the class leaves no character of the class. */
  lemma {:induction false} ReplaceRunsClears(s: string, p: char -> bool, m: nat, repl: string)
    requires m <= 1
    requires forall i :: 0 <= i < |repl| ==> !p(repl[i])
    ensures forall i :: 0 <= i < |ReplaceRuns(s, p, m, repl)| ==> !p(ReplaceRuns(s, p, m, repl)[i])
    decreases |s|
  {
    if s != [] {
      if !p(s[0]) {
        ReplaceRunsClears(s[1..], p, m, repl);
      } else {
        ReplaceRunsClears(s[SkipWhileFrom(s, 0, p)..], p, m, repl);
      }
    }
  }

  /** Text starting outside the class starts with the same character after the replacement. */
  lemma ReplaceRunsHead(s: string, p: char -> bool, m: nat, repl: string)
    requires s != [] && !p(s[0])
    ensures ReplaceRuns(s, p, m, repl) != [] && ReplaceRuns(s, p, m, repl)[0] == s[0]
  {
  }

  /** No two whitespace characters are adjacent. */
  predicate NoDoubleSpace(s: string)
  {
    forall i :: 0 <= i < |s| - 1 ==> !(IsSpace(s[i]) && IsSpace(s[i + 1]))
  }

  /** After `/\s{2,}/g` → " " no two whitespace characters are adjacent. */
  lemma {:induction false} SingleSpaced(s: string)
    ensures NoDoubleSpace(ReplaceRuns(s, IsSpace, 2, " "))
    decreases |s|
  {
    if s != [] {
      var r := ReplaceRuns(s, IsSpace, 2, " ");
      if !IsSpace(s[0]) {
        SingleSpaced(s[1..]);
        var rest := ReplaceRuns(s[1..], IsSpace, 2, " ");
        assert r == [s[0]] + rest;
        forall i | 0 <= i < |r| - 1 ensures !(IsSpace(r[i]) && IsSpace(r[i + 1])) {
          if i > 0 {
            assert r[i] == rest[i - 1] && r[i + 1] == rest[i];
            assert 0 <= i - 1 < |rest| - 1;
            assert !(IsSpace(rest[i - 1]) && IsSpace(rest[i]));
          } else {
            assert r[0] == s[0];
            assert !IsSpace(r[0]);
          }
        }
      } else {
        var j := SkipWhileFrom(s, 0, IsSpace);
        SingleSpaced(s[j..]);
        var rest := ReplaceRuns(s[j..], IsSpace, 2, " ");
        if j < |s| {
          ReplaceRunsHead(s[j..], IsSpace, 2, " ");
        }
        var head := if j >= 2 then " " else s[..j];
        assert |head| == 1;
        assert r == head + rest;
        assert forall i :: 1 <= i < |r| ==> r[i] == rest[i - 1];
      }
    }
  }

  // ----- normalizeText -----

  /** `/\r\n/g` → "\n". */
  function CrlfToLf(s: string): (r: string)
    decreases |s|
  {
    if |s| >= 2 && s[0] == '\r' && s[1] == '\n' then "\n" + CrlfToLf(s[2..])
    else if s == [] then []
    else [s[0]] + CrlfToLf(s[1..])
  }

  lemma {:induction false} CrlfToLfAvoids(s: string, c: char)
    requires c !in s && c != '\n'
    ensures c !in CrlfToLf(s)
    decreases |s|
  {
    if |s| >= 2 && s[0] == '\r' && s[1] == '\n' {
      CrlfToLfAvoids(s[2..], c);
    } else if s != [] {
      CrlfToLfAvoids(s[1..], c);
    }
  }

  /** The last newline in `s[i..j]`. */
  function LastNewlineIn(s: string, i: nat, j: nat): (r: Option<nat>)
    requires i <= j <= |s|
    decreases j - i
    ensures r.Some? ==> i <= r.value < j && s[r.value] == '\n'
    ensures r.None? ==> forall k :: i <= k < j ==> s[k] != '\n'
  {
    if j == i then None else if s[j - 1] == '\n' then Some(j - 1) else LastNewlineIn(s, i, j - 1)
  }

  /**
   * `/\s+\n/g` → "\n": at a whitespace character, the greedy match runs to
   * the last newline of the whitespace run that starts there, provided that
   * newline is not the character itself.
   */
  function SpaceBeforeNewline(s: string): (r: string)
    decreases |s|
  {
    if s == [] then []
    else if !IsSpace(s[0]) then [s[0]] + SpaceBeforeNewline(s[1..])
    else
      var j := SkipWhileFrom(s, 0, IsSpace);
      match LastNewlineIn(s, 1, j)
      case Some(k) => "\n" + SpaceBeforeNewline(s[k + 1..])
      case None => [s[0]] + SpaceBeforeNewline(s[1..])
  }

  lemma {:induction false} SpaceBeforeNewlineAvoids(s: string, c: char)
    requires c !in s && c != '\n'
    ensures c !in SpaceBeforeNewline(s)
    decreases |s|
  {
    if s != [] {
      if !IsSpace(s[0]) {
        SpaceBeforeNewlineAvoids(s[1..], c);
      } else {
        var j := SkipWhileFrom(s, 0, IsSpace);
        match LastNewlineIn(s, 1, j)
        case Some(k) => SpaceBeforeNewlineAvoids(s[k + 1..], c);
        case None => SpaceBeforeNewlineAvoids(s[1..], c);
      }
    }
  }

  lemma TrimAvoids(s: string, c: char)
    requires c !in s
    ensures c !in Trim(s)
  {
    var a, b := TrimSlice(s);
  }

  lemma TrimSingleSpaced(s: string)
    requires NoDoubleSpace(s)
    ensures NoDoubleSpace(Trim(s))
  {
    var a, b := TrimSlice(s);
    assert forall i :: 0 <= i < |Trim(s)| ==> Trim(s)[i] == s[a + i];
  }

  lemma NoNewline(s: string)
    requires forall i :: 0 <= i < |s| ==> !IsNewline(s[i])
    ensures '\n' !in s
  {
    forall i | 0 <= i < |s| ensures s[i] != '\n' {
      assert !IsNewline(s[i]);
    }
  }

  /** "•" → " ". */
  function Unbullet(s: string): (r: string)
    ensures '\U{2022}' !in r
  {
    seq(|s|, i requires 0 <= i < |s| => if s[i] == '\U{2022}' then ' ' else s[i])
  }

  /**
   * `normalizeText`: "" for null and undefined; otherwise the value's text
   * with bullets made spaces, underscores removed, CRLF made LF, whitespace
   * before a newline dropped, three or more newlines made two, and trimmed.
   */
  function NormalizeText(v: Value): (r: string)
    ensures Formatter.Nullish(v) ==> r == []
    ensures r == [] || (!IsSpace(r[0]) && !IsSpace(r[|r| - 1]))
    ensures '_' !in r && '\U{2022}' !in r
  {
    if Formatter.Nullish(v) then []
    else
      var bullets := Unbullet(Formatter.SafeString(v, ""));
      var bare := ReplaceRuns(bullets, IsUnderscore, 1, "");
      var lf := CrlfToLf(bare);
      var tight := SpaceBeforeNewline(lf);
      var collapsed := ReplaceRuns(tight, IsNewline, 3, "\n\n");
      ReplaceRunsClears(bullets, IsUnderscore, 1, "");
      ReplaceRunsAvoids(bullets, IsUnderscore, 1, "", '\U{2022}');
      CrlfToLfAvoids(bare, '_');
      CrlfToLfAvoids(bare, '\U{2022}');
      SpaceBeforeNewlineAvoids(lf, '_');
      SpaceBeforeNewlineAvoids(lf, '\U{2022}');
      ReplaceRunsAvoids(tight, IsNewline, 3, "\n\n", '_');
      ReplaceRunsAvoids(tight, IsNewline, 3, "\n\n", '\U{2022}');
      TrimAvoids(collapsed, '_');
      TrimAvoids(collapsed, '\U{2022}');
      Trim(collapsed)
  }

  /**
   * `normalizeDescriptionText`: the normalized text on one line, every run
   * of newlines a space, every run of two or more whitespace characters one
   * space, trimmed.
   */
  function DescriptionText(v: Value): (r: string)
    ensures '\n' !in r && '_' !in r
    ensures NoDoubleSpace(r)
    ensures r == [] || (!IsSpace(r[0]) && !IsSpace(r[|r| - 1]))
  {
    var normalized := NormalizeText(v);
    var spaced := ReplaceRuns(normalized, IsNewline, 1, " ");
    var single := ReplaceRuns(spaced, IsSpace, 2, " ");
    ReplaceRunsClears(normalized, IsNewline, 1, " ");
    NoNewline(spaced);
    ReplaceRunsAvoids(spaced, IsSpace, 2, " ", '\n');
    ReplaceRunsAvoids(normalized, IsNewline, 1, " ", '_');
    ReplaceRunsAvoids(spaced, IsSpace, 2, " ", '_');
    SingleSpaced(spaced);
    TrimSingleSpaced(single);
    TrimAvoids(single, '\n');
    TrimAvoids(single, '_');
    Trim(single)
  }

  predicate IsSentenceEnd(c: char) { c == '.' || c == '!' || c == '?' }

  /** `ensureSentence`: the description text, with "." added unless it already ends in ".", "!" or "?"; empty stays empty. */
  function EnsureSentence(v: Value): (r: string)
    ensures DescriptionText(v) == [] <==> r == []
    ensures r != [] ==> IsSentenceEnd(r[|r| - 1])
    ensures var d := DescriptionText(v); |d| <= |r| <= |d| + 1 && r[..|d|] == d
  {
    var normalized := DescriptionText(v);
    if normalized == [] then []
    else if IsSentenceEnd(normalized[|normalized| - 1]) then normalized
    else normalized + "."
  }

  // ----- title case -----

  /** A word: non-empty, no whitespace. */
  predicate IsWordText(w: string)
  {
    w != [] && forall i :: 0 <= i < |w| ==> !IsSpace(w[i])
  }

  /** `trim().split(/\s+/).filter(Boolean)`: the maximal runs of non-whitespace. */
  function Words(s: string): (r: seq<string>)
    decreases |s|
    ensures forall k :: 0 <= k < |r| ==> IsWordText(r[k])
    ensures forall k :: 0 <= k < |r| ==> forall c :: c in r[k] ==> c in s
  {
    if s == [] then []
    else if IsSpace(s[0]) then Words(s[1..])
    else
      var j := SkipWhileFrom(s, 0, NotSpace);
      [s[..j]] + Words(s[j..])
  }

  /** A word followed by whitespace or nothing is the first word. */
  lemma WordsAfterWord(w: string, rest: string)
    requires IsWordText(w) && (rest == [] || IsSpace(rest[0]))
    ensures Words(w + rest) == [w] + Words(rest)
  {
    var s := w + rest;
    var j := SkipWhileFrom(s, 0, NotSpace);
    assert forall i :: 0 <= i < |w| ==> s[i] == w[i] && NotSpace(s[i]);
    assert |w| < |s| ==> !NotSpace(s[|w|]);
    assert j == |w|;
    assert s[..j] == w && s[j..] == rest;
  }

  /** Words joined by single spaces split back into the same words. */
  lemma {:induction false} WordsOfJoin(ws: seq<string>)
    requires forall k :: 0 <= k < |ws| ==> IsWordText(ws[k])
    ensures Words(Join(ws, " ")) == ws
    decreases |ws|
  {
    if |ws| == 1 {
      WordsAfterWord(ws[0], []);
      assert ws[0] + [] == ws[0];
    } else if |ws| > 1 {
      var rest := Join(ws[1..], " ");
      WordsOfJoin(ws[1..]);
      assert Words(" " + rest) == Words(rest) by {
        assert (" " + rest)[1..] == rest;
      }
      WordsAfterWord(ws[0], " " + rest);
      assert Join(ws, " ") == ws[0] + (" " + rest);
    }
  }

  /** Upper-case first character, lower-case rest. */
  function Capitalize(w: string): (r: string)
    requires w != []
    ensures |r| == |w|
  {
    [UpperChar(w[0])] + Lower(w[1..])
  }

  function CapitalizeEach(ws: seq<string>): (r: seq<string>)
    requires forall k :: 0 <= k < |ws| ==> ws[k] != []
    ensures |r| == |ws|
    ensures forall k :: 0 <= k < |ws| ==> r[k] == Capitalize(ws[k])
  {
    if ws == [] then [] else [Capitalize(ws[0])] + CapitalizeEach(ws[1..])
  }

  /** "_" → " ". */
  function Unscore(s: string): (r: string)
    ensures '_' !in r
  {
    seq(|s|, i requires 0 <= i < |s| => if s[i] == '_' then ' ' else s[i])
  }

  /**
   * `toTitleCase`: underscores made spaces, then each whitespace-separated
   * word with its first letter upper-cased and the rest lower-cased, joined
   * by single spaces.
   */
  function TitleCase(s: string): (r: string)
  {
    var ws := Words(Unscore(s));
    Join(CapitalizeEach(ws), " ")
  }

  lemma CapitalizeKeepsWord(w: string)
    requires IsWordText(w) && '_' !in w
    ensures IsWordText(Capitalize(w)) && '_' !in Capitalize(w)
    ensures Capitalize(Capitalize(w)) == Capitalize(w)
  {
    var c := Capitalize(w);
    forall i | 0 <= i < |c| ensures !IsSpace(c[i]) && c[i] != '_' {
      if i > 0 {
        assert c[i] == LowerChar(w[i]);
      }
    }
    assert Lower(c[1..]) == c[1..];
  }

  /** Title case is idempotent: title-cased text comes back unchanged. */
  lemma TitleCaseIdempotent(s: string)
    ensures TitleCase(TitleCase(s)) == TitleCase(s)
  {
    var ws := Words(Unscore(s));
    var cs := CapitalizeEach(ws);
    var t := Join(cs, " ");
    forall k | 0 <= k < |ws| ensures IsWordText(cs[k]) && '_' !in cs[k] && Capitalize(cs[k]) == cs[k] {
      assert '_' !in ws[k];
      CapitalizeKeepsWord(ws[k]);
    }
    assert Unscore(t) == t by {
      assert '_' !in t by {
        JoinAvoids(cs, " ", '_');
      }
    }
    WordsOfJoin(cs);
    assert CapitalizeEach(cs) == cs;
  }

  lemma {:induction false} JoinAvoids(parts: seq<string>, sep: string, c: char)
    requires c !in sep && forall k :: 0 <= k < |parts| ==> c !in parts[k]
    ensures c !in Join(parts, sep)
    decreases |parts|
  {
    if |parts| > 1 {
      JoinAvoids(parts[1..], sep, c);
    }
  }

  // ----- sizes -----

  /** The text of `Object`, which `constructor` reads from a plain object's prototype. */
  const ObjectFunctionText := "function Object() { [native code] }"

  /**
   * `normalizeMonsterSizeForWotc`: the importer's size codes as size names;
   * anything else in title case. The lookup is into a plain object, so
   * "constructor" and "__proto__" find what the prototype holds there: the
   * `Object` function and the prototype itself, shown as their text.
   */
  function SizeText(v: Value): (r: string)
  {
    var size := Lower(Formatter.SafeString(v, ""));
    if size == "tiny" then "Tiny"
    else if size == "sm" then "Small"
    else if size == "med" then "Medium"
    else if size == "lg" then "Large"
    else if size == "huge" then "Huge"
    else if size == "grg" || size == "gigantic" then "Gargantuan"
    else if size == "constructor" then ObjectFunctionText
    else if size == "__proto__" then "[object Object]"
    else TitleCase(ToString(v))
  }

  /** Sizes named like the prototype's own members show what the prototype holds, not the size. */
  lemma SizeTextInherited()
    ensures SizeText(Str("constructor")) == ObjectFunctionText
    ensures SizeText(Str("__proto__")) == "[object Object]"
  {
    assert Formatter.SafeString(Str("constructor"), "") == "constructor";
    assert Lower("constructor") == "constructor";
    assert Formatter.SafeString(Str("__proto__"), "") == "__proto__";
    assert Lower("__proto__") == "__proto__";
  }

  /** The size codes the importer writes are shown as the size names they came from. */
  lemma SizeTextOfImporterCodes()
    ensures SizeText(Str(SbiActor.SizeCode("tiny"))) == "Tiny"
    ensures SizeText(Str(SbiActor.SizeCode("small"))) == "Small"
    ensures SizeText(Str(SbiActor.SizeCode("medium"))) == "Medium"
    ensures SizeText(Str(SbiActor.SizeCode("large"))) == "Large"
    ensures SizeText(Str(SbiActor.SizeCode("huge"))) == "Huge"
    ensures SizeText(Str(SbiActor.SizeCode("gargantuan"))) == "Gargantuan"
  {
    SbiActor.SizeCodes();
    SizeTextOfLowerCode("tiny", "Tiny");
    SizeTextOfLowerCode("sm", "Small");
    SizeTextOfLowerCode("med", "Medium");
    SizeTextOfLowerCode("lg", "Large");
    SizeTextOfLowerCode("huge", "Huge");
    SizeTextOfLowerCode("grg", "Gargantuan");
  }

  lemma SizeTextOfLowerCode(code: string, name: string)
    requires (code, name) == ("tiny", "Tiny") || (code, name) == ("sm", "Small") || (code, name) == ("med", "Medium")
      || (code, name) == ("lg", "Large") || (code, name) == ("huge", "Huge") || (code, name) == ("grg", "Gargantuan")
    ensures SizeText(Str(code)) == name
  {
    assert Formatter.SafeString(Str(code), "") == code;
    assert Lower(code) == code;
  }
}
