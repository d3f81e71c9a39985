// The importer's line segmenter: `sbiParser.parseInput` and `getFirstMatch`
// (scripts/sbi-importer/sbiParser.js). One forward pass over the lines sorts
// each line into the buffer of the block it belongs to.
module SbiSegmenter {
  import opened Text
  import opened SbiData
  import opened SbiRegex

  /** A user hint: a line of text the user tagged with a block. */
  datatype Hint = Hint(text: string, blockId: BlockId)

  /** A buffered line: its index among the lines after the name, its trimmed text and the hint that placed it. */
  datatype Line = Line(number: nat, text: string, hint: Option<BlockId>)

  // ----- hints and the first-match search -----

  /** The position of the first hint whose trimmed text is the line. */
  function HintIndex(hints: seq<Hint>, line: string, k: nat): (r: Option<nat>)
    requires k <= |hints|
    decreases |hints| - k
    ensures r.Some? ==> k <= r.value < |hints| && Trim(hints[r.value].text) == line
    ensures r.Some? ==> forall j :: k <= j < r.value ==> Trim(hints[j].text) != line
    ensures r.None? ==> forall j :: k <= j < |hints| ==> Trim(hints[j].text) != line
  {
    if k == |hints| then None
    else if Trim(hints[k].text) == line then Some(k)
    else HintIndex(hints, line, k + 1)
  }

  /** `hints.find(h => h.text.trim() === line)`, reduced to the hint's block. */
  function FindHint(hints: seq<Hint>, line: string): (r: Option<BlockId>)
    ensures r.None? <==> forall k :: 0 <= k < |hints| ==> Trim(hints[k].text) != line
  {
    match HintIndex(hints, line, 0)
    case None => None
    case Some(k) => Some(hints[k].blockId)
  }

  /**
   * What the segmenter consults about blocks and lines: the registry's key
   * order, each block's `top` flag, the recognizer of each block, the
   * entry-title test and the `otherBlock` test. The segmenter's properties
   * hold for any such table; `SbiPatterns` is the importer's own.
   */
  datatype Patterns = Patterns(
    order: seq<BlockId>,
    top: BlockId -> bool,
    recognizes: (BlockId, string) -> bool,
    title: string -> bool,
    otherBlock: string -> bool)

  /**
   * The importer's table: the `Blocks` key order and `top` flags,
   * `sbiRegex[b]`, `getBlockTitle(cleanLines)` at the start of a single line,
   * and `otherBlock`.
   */
  const SbiPatterns: Patterns := Patterns(BlockOrder, IsTop, (b, l) => Recognizes(b, l), l => TitleEnd(l).Some?, OtherBlockLine)

  /** A block `getFirstMatch` may return for the line: searched, recognised and not excluded. */
  predicate Candidate(pats: Patterns, b: BlockId, line: string, excluded: set<BlockId>)
  {
    b != Name && b != Features && b != OtherBlock && b !in excluded && pats.recognizes(b, line)
  }

  /** The registry position of the first candidate at or after position `k`. */
  function FirstCandidate(pats: Patterns, line: string, excluded: set<BlockId>, k: nat): (r: Option<nat>)
    requires k <= |pats.order|
    decreases |pats.order| - k
    ensures r.Some? ==> k <= r.value < |pats.order| && Candidate(pats, pats.order[r.value], line, excluded)
    ensures r.Some? ==> forall j :: k <= j < r.value ==> !Candidate(pats, pats.order[j], line, excluded)
    ensures r.None? ==> forall j :: k <= j < |pats.order| ==> !Candidate(pats, pats.order[j], line, excluded)
  {
    if k == |pats.order| then None
    else if Candidate(pats, pats.order[k], line, excluded) then Some(k)
    else FirstCandidate(pats, line, excluded, k + 1)
  }

  /** `getFirstMatch(line, excludeIds)`. */
  function FirstMatch(pats: Patterns, line: string, excluded: set<BlockId>): (r: Option<BlockId>)
    ensures r.Some? ==> Candidate(pats, r.value, line, excluded)
  {
    match FirstCandidate(pats, line, excluded, 0)
    case None => None
    case Some(k) => Some(pats.order[k])
  }

  /**
   * With the `Blocks` key order, the first match is the candidate that comes
   * first in that order, and there is one exactly when some block is a
   * candidate.
   */
  lemma FirstMatchIsFirst(pats: Patterns, line: string, excluded: set<BlockId>, b: BlockId)
    requires pats.order == BlockOrder
    ensures FirstMatch(pats, line, excluded).None? ==> !Candidate(pats, b, line, excluded)
    ensures Candidate(pats, b, line, excluded) ==>
      FirstMatch(pats, line, excluded).Some? && Rank(FirstMatch(pats, line, excluded).value) <= Rank(b)
  {
    RankInOrder(b);
    assert pats.order[Rank(b)] == b;
    var r := FirstCandidate(pats, line, excluded, 0);
    if r.Some? {
      OrderHasRank(r.value);
      assert FirstMatch(pats, line, excluded) == Some(BlockAt(r.value));
    }
  }

  // ----- the segmenter's state and one step -----

  /**
   * The loop's state: the `statBlocks` map (its keys in insertion order kept
   * beside it, as a JavaScript Map keeps them), `lastBlockId`,
   * `foundTopBlock` and `foundAbilityLine`.
   */
  datatype SegState = SegState(
    blocks: map<BlockId, seq<Line>>,
    order: seq<BlockId>,
    last: Option<BlockId>,
    foundTop: bool,
    foundAbility: bool)

  /** The state before the first line: no buffers, in the top region, no ability run. */
  const Start: SegState := SegState(map[], [], None, true, false)

  /** `statBlocks.set(b, [])`: an empty buffer; a new key goes to the end of the key order. */
  function Open(st: SegState, b: BlockId): (r: SegState)
    ensures r.blocks.Keys == st.blocks.Keys + {b} && r.blocks[b] == []
    ensures forall c :: c in st.blocks && c != b ==> r.blocks[c] == st.blocks[c]
    ensures r.order == if b in st.blocks then st.order else st.order + [b]
    ensures r.last == st.last && r.foundTop == st.foundTop && r.foundAbility == st.foundAbility
  {
    st.(blocks := st.blocks[b := []], order := if b in st.blocks then st.order else st.order + [b])
  }

  /** Whether the line is skipped: empty after trimming, or starting with "*". */
  predicate Skipped(line: string) { line == [] || line[0] == '*' }

  /** The ids `getFirstMatch` must not return: every key already in the map, and `abilities` outside the top region. */
  function Excluded(st: SegState): (r: set<BlockId>)
    ensures forall b :: b in st.blocks ==> b in r
    ensures Abilities in r <==> Abilities in st.blocks || !st.foundTop
  {
    if st.foundTop then st.blocks.Keys else st.blocks.Keys + {Abilities}
  }

  /** The block the line is matched to: the hint's block, or the first match. */
  function MatchOf(pats: Patterns, st: SegState, line: string, hints: seq<Hint>): (r: Option<BlockId>)
    ensures FindHint(hints, line).Some? ==> r == FindHint(hints, line)
    ensures FindHint(hints, line).None? ==> r == FirstMatch(pats, line, Excluded(st))
  {
    var hint := FindHint(hints, line);
    if hint.Some? then hint else FirstMatch(pats, line, Excluded(st))
  }

  /** How the implicit `features` buffer is opened: as the code is written, or as evidently intended. */
  datatype Variant = AsWritten | Corrected

  /**
   * The implicit `features` block: an unmatched line in the top region that
   * begins with an entry title leaves the top region and makes `features` the
   * current block. As written the buffer is always replaced by a new empty
   * one; corrected, an existing `features` buffer is kept (as the
   * `otherBlock` fallback and the fallback parser do). On a single line
   * both title patterns reduce to a title at the start of the line.
   */
  function FeaturesFallback(pats: Patterns, v: Variant, st: SegState, line: string, m: Option<BlockId>): (r: SegState)
    ensures r.foundAbility == st.foundAbility
  {
    if m.None? && st.foundTop && pats.title(line) then
      var s := st.(foundTop := false, last := Some(Features));
      if v == Corrected && Features in s.blocks then s else Open(s, Features)
    else st
  }

  /** The `otherBlock` fallback: an unmatched section-title line outside an ability run. */
  function OtherBlockFallback(pats: Patterns, st: SegState, line: string, m: Option<BlockId>): (r: SegState)
    ensures r.foundAbility == st.foundAbility
  {
    if m.None? && !st.foundAbility && pats.otherBlock(line) then
      var s := st.(foundTop := false, last := Some(OtherBlock));
      if OtherBlock in s.blocks then s else Open(s, OtherBlock)
    else st
  }

  /** A match sets the top-region flag from the block's `top` flag and ends an ability run unless it is `abilities`. */
  function AfterMatch(pats: Patterns, st: SegState, m: Option<BlockId>): (r: SegState)
  {
    if m.None? then st
    else st.(foundTop := pats.top(m.value), foundAbility := st.foundAbility && m.value == Abilities)
  }

  /** A match outside an ability run makes its block current; the buffer is renewed unless a hint sends the line to an existing block. */
  function OpenMatch(st: SegState, m: Option<BlockId>, hinted: bool): (r: SegState)
  {
    if m.Some? && !st.foundAbility then
      var s := st.(last := m);
      var s' := if !hinted || m.value !in s.blocks then Open(s, m.value) else s;
      s'.(foundAbility := m.value == Abilities)
    else st
  }

  /** The line goes to the current block's buffer, if there is one. */
  function Push(st: SegState, l: Line): (r: SegState)
  {
    if st.last.Some? && st.last.value in st.blocks then
      st.(blocks := st.blocks[st.last.value := st.blocks[st.last.value] + [l]])
    else st
  }

  /** The decisions `parseInput` takes for a line matched to `m`, before the line is buffered. */
  function DecideWith(pats: Patterns, v: Variant, st: SegState, line: string, m: Option<BlockId>, hinted: bool): SegState
  {
    var s1 := FeaturesFallback(pats, v, st, line, m);
    var s2 := OtherBlockFallback(pats, s1, line, m);
    OpenMatch(AfterMatch(pats, s2, m), m, hinted)
  }

  /** One iteration of the loop on a trimmed line that is not skipped. */
  function Take(pats: Patterns, v: Variant, st: SegState, i: nat, line: string, hints: seq<Hint>): SegState
  {
    var hint := FindHint(hints, line);
    Push(DecideWith(pats, v, st, line, MatchOf(pats, st, line, hints), hint.Some?), Line(i, line, hint))
  }

  /** One iteration of the `parseInput` loop on line `i`. */
  function Step(pats: Patterns, v: Variant, st: SegState, i: nat, raw: string, hints: seq<Hint>): SegState
  {
    var line := Trim(raw);
    if Skipped(line) then st else Take(pats, v, st, i, line, hints)
  }

  /** The state after the first `n` lines. */
  function Run(pats: Patterns, v: Variant, lines: seq<string>, hints: seq<Hint>, n: nat): SegState
    requires n <= |lines|
  {
    if n == 0 then Start else Step(pats, v, Run(pats, v, lines, hints, n - 1), n - 1, lines[n - 1], hints)
  }

  // ----- properties of one step -----

  /** Empty lines and lines starting with "*" change nothing. */
  lemma SkippedLineChangesNothing(pats: Patterns, v: Variant, st: SegState, i: nat, raw: string, hints: seq<Hint>)
    requires Skipped(Trim(raw))
    ensures Step(pats, v, st, i, raw, hints) == st
  {
  }

  /** A match outside an ability run: the block becomes current, its buffer renewed unless hinted and present. */
  lemma DecideMatched(pats: Patterns, v: Variant, st: SegState, line: string, b: BlockId, hinted: bool)
    requires !st.foundAbility || b != Abilities
    ensures var d := DecideWith(pats, v, st, line, Some(b), hinted);
      d.last == Some(b) && b in d.blocks && d.foundTop == pats.top(b) && d.foundAbility == (b == Abilities)
      && d.blocks == (if hinted && b in st.blocks then st.blocks else st.blocks[b := []])
      && d.order == (if b in st.blocks then st.order else st.order + [b])
  {
  }

  /** A hinted line goes to the hint's block without any pattern being tried, unless an ability run absorbs it. */
  lemma HintWins(pats: Patterns, v: Variant, st: SegState, i: nat, line: string, hints: seq<Hint>, b: BlockId)
    requires FindHint(hints, line) == Some(b)
    requires !st.foundAbility || b != Abilities
    ensures var r := Take(pats, v, st, i, line, hints);
      r.last == Some(b) && b in r.blocks
      && r.blocks[b] == (if b in st.blocks then st.blocks[b] else []) + [Line(i, line, Some(b))]
  {
    DecideMatched(pats, v, st, line, b, true);
  }

  /** The first unhinted candidate is a block not open yet, and the abilities block only once the top region is left. */
  lemma UnhintedCandidate(pats: Patterns, st: SegState, line: string, hints: seq<Hint>, b: BlockId)
    requires FindHint(hints, line).None?
    requires FirstMatch(pats, line, Excluded(st)) == Some(b)
    requires st.foundAbility ==> Abilities in st.blocks
    ensures b !in st.blocks && (b == Abilities ==> st.foundTop)
    ensures MatchOf(pats, st, line, hints) == Some(b)
  {
    assert Candidate(pats, b, line, Excluded(st));
  }

  /** An unhinted line goes to the first candidate block in registry order, which was not open before. */
  lemma UnhintedFirstMatch(pats: Patterns, v: Variant, st: SegState, i: nat, line: string, hints: seq<Hint>, b: BlockId)
    requires FindHint(hints, line).None?
    requires FirstMatch(pats, line, Excluded(st)) == Some(b)
    requires st.foundAbility ==> Abilities in st.blocks
    ensures b !in st.blocks && (b == Abilities ==> st.foundTop)
    ensures var r := Take(pats, v, st, i, line, hints);
      r.last == Some(b) && r.blocks == st.blocks[b := [Line(i, line, None)]]
      && r.order == st.order + [b] && r.foundTop == pats.top(b) && r.foundAbility == (b == Abilities)
  {
    UnhintedCandidate(pats, st, line, hints, b);
    var d := DecideWith(pats, v, st, line, Some(b), false);
    var l := Line(i, line, None);
    DecideMatched(pats, v, st, line, b, false);
    PushOpened(d, l, b, st.blocks);
    assert Take(pats, v, st, i, line, hints) == Push(d, l);
  }

  /** Buffering a line into a block just opened empty leaves that line alone in it. */
  lemma PushOpened(d: SegState, l: Line, b: BlockId, blocks: map<BlockId, seq<Line>>)
    requires d.last == Some(b) && d.blocks == blocks[b := []]
    ensures Push(d, l) == d.(blocks := blocks[b := [l]])
  {
    assert d.blocks[b] + [l] == [l];
  }

  /** Within an ability run, a further `abilities` match adds the line to the open buffer instead of opening a new one. */
  lemma AbilityRunGroups(pats: Patterns, v: Variant, st: SegState, i: nat, line: string, hints: seq<Hint>)
    requires st.foundAbility && st.last == Some(Abilities) && Abilities in st.blocks
    requires MatchOf(pats, st, line, hints) == Some(Abilities)
    ensures var r := Take(pats, v, st, i, line, hints);
      r.blocks == st.blocks[Abilities := st.blocks[Abilities] + [Line(i, line, FindHint(hints, line))]]
      && r.order == st.order && r.foundAbility && r.foundTop == pats.top(Abilities)
  {
  }

  /** Any other match ends the ability run and makes its block current. */
  lemma OtherMatchEndsAbilityRun(pats: Patterns, v: Variant, st: SegState, i: nat, line: string, hints: seq<Hint>, b: BlockId)
    requires MatchOf(pats, st, line, hints) == Some(b) && b != Abilities
    ensures !Take(pats, v, st, i, line, hints).foundAbility
    ensures Take(pats, v, st, i, line, hints).last == Some(b)
  {
    DecideMatched(pats, v, st, line, b, FindHint(hints, line).Some?);
  }

  /** In the top region, an unmatched line that begins with an entry title opens `features` and leaves the top region. */
  lemma TitleOpensFeatures(pats: Patterns, v: Variant, st: SegState, i: nat, line: string, hints: seq<Hint>)
    requires MatchOf(pats, st, line, hints).None?
    requires st.foundTop && pats.title(line)
    requires st.foundAbility || !pats.otherBlock(line)
    ensures var r := Take(pats, v, st, i, line, hints);
      !r.foundTop && r.last == Some(Features) && Features in r.blocks
      && r.blocks[Features][|r.blocks[Features]| - 1] == Line(i, line, None)
  {
  }

  /** The `otherBlock` fallback never fires inside an ability run, and it never empties an existing buffer. */
  lemma OtherBlockFallbackOnce(pats: Patterns, st: SegState, line: string, m: Option<BlockId>)
    ensures st.foundAbility ==> OtherBlockFallback(pats, st, line, m) == st
    ensures OtherBlock in st.blocks ==> OtherBlockFallback(pats, st, line, m).blocks == st.blocks
  {
  }

  // ----- the whole pass -----

  /** Buffer `b` holds only lines numbered below `n`, in increasing order, each the trimmed, non-skipped text of its line. */
  predicate BufferOk(buf: seq<Line>, lines: seq<string>, n: nat)
  {
    (forall k :: 0 <= k < |buf| ==>
       buf[k].number < n && buf[k].number < |lines| && buf[k].text == Trim(lines[buf[k].number]) && !Skipped(buf[k].text))
    && forall k, j :: 0 <= k < j < |buf| ==> buf[k].number < buf[j].number
  }

  /** The line numbers a buffer holds. */
  function Numbers(buf: seq<Line>): (r: set<nat>)
    ensures forall k :: 0 <= k < |buf| ==> buf[k].number in r
    ensures forall x :: x in r ==> exists k :: 0 <= k < |buf| && buf[k].number == x
  {
    set k | 0 <= k < |buf| :: buf[k].number
  }

  /** The key order lists each key of the map exactly once. */
  predicate OrderOk(st: SegState)
  {
    (forall b :: b in st.blocks <==> b in st.order)
    && (forall k, j :: 0 <= k < j < |st.order| ==> st.order[k] != st.order[j])
  }

  /** No line sits in two buffers. */
  predicate Disjoint(blocks: map<BlockId, seq<Line>>)
  {
    forall b, c :: b in blocks && c in blocks && b != c ==> Numbers(blocks[b]) !! Numbers(blocks[c])
  }

  /**
   * The invariant of the pass after `n` lines: each buffer is well formed, no
   * line sits in two buffers, and the key order lists each key once.
   */
  predicate Valid(st: SegState, lines: seq<string>, n: nat)
  {
    (forall b :: b in st.blocks ==> BufferOk(st.blocks[b], lines, n))
    && Disjoint(st.blocks)
    && OrderOk(st)
  }

  /** Before the line is buffered, each buffer either stays as it was or is emptied, and none disappears. */
  predicate KeptOrEmptied(st: SegState, r: SegState)
  {
    st.blocks.Keys <= r.blocks.Keys
    && forall b :: b in r.blocks ==> r.blocks[b] == [] || (b in st.blocks && r.blocks[b] == st.blocks[b])
  }

  lemma OpenKeeps(st: SegState, b: BlockId)
    ensures KeptOrEmptied(st, Open(st, b))
    ensures OrderOk(st) ==> OrderOk(Open(st, b))
  {
  }

  lemma FeaturesKeeps(pats: Patterns, v: Variant, st: SegState, line: string, m: Option<BlockId>)
    ensures KeptOrEmptied(st, FeaturesFallback(pats, v, st, line, m))
    ensures OrderOk(st) ==> OrderOk(FeaturesFallback(pats, v, st, line, m))
  {
    if m.None? && st.foundTop && pats.title(line) {
      OpenKeeps(st.(foundTop := false, last := Some(Features)), Features);
    }
  }

  lemma OtherBlockKeeps(pats: Patterns, st: SegState, line: string, m: Option<BlockId>)
    ensures KeptOrEmptied(st, OtherBlockFallback(pats, st, line, m))
    ensures OrderOk(st) ==> OrderOk(OtherBlockFallback(pats, st, line, m))
  {
    if m.None? && !st.foundAbility && pats.otherBlock(line) {
      OpenKeeps(st.(foundTop := false, last := Some(OtherBlock)), OtherBlock);
    }
  }

  lemma AfterMatchKeeps(pats: Patterns, st: SegState, m: Option<BlockId>)
    ensures AfterMatch(pats, st, m).blocks == st.blocks && AfterMatch(pats, st, m).order == st.order
  {
  }

  lemma OpenMatchKeeps(st: SegState, m: Option<BlockId>, hinted: bool)
    ensures KeptOrEmptied(st, OpenMatch(st, m, hinted))
    ensures OrderOk(st) ==> OrderOk(OpenMatch(st, m, hinted))
  {
    if m.Some? && !st.foundAbility {
      OpenKeeps(st.(last := m), m.value);
    }
  }

  lemma DecideKeeps(pats: Patterns, v: Variant, st: SegState, line: string, m: Option<BlockId>, hinted: bool)
    ensures KeptOrEmptied(st, DecideWith(pats, v, st, line, m, hinted))
    ensures OrderOk(st) ==> OrderOk(DecideWith(pats, v, st, line, m, hinted))
  {
    var s1 := FeaturesFallback(pats, v, st, line, m);
    var s2 := OtherBlockFallback(pats, s1, line, m);
    var s3 := AfterMatch(pats, s2, m);
    FeaturesKeeps(pats, v, st, line, m);
    OtherBlockKeeps(pats, s1, line, m);
    AfterMatchKeeps(pats, s2, m);
    OpenMatchKeeps(s3, m, hinted);
  }

  /** Emptying or keeping buffers keeps the invariant. */
  lemma KeptValid(st: SegState, d: SegState, lines: seq<string>, n: nat)
    requires Valid(st, lines, n) && KeptOrEmptied(st, d) && OrderOk(d)
    ensures Valid(d, lines, n)
  {
    forall b | b in d.blocks ensures BufferOk(d.blocks[b], lines, n) {
      if d.blocks[b] != [] { assert BufferOk(st.blocks[b], lines, n); }
    }
    forall b, c | b in d.blocks && c in d.blocks && b != c ensures Numbers(d.blocks[b]) !! Numbers(d.blocks[c]) {
      if d.blocks[b] != [] && d.blocks[c] != [] {
        assert Numbers(st.blocks[b]) !! Numbers(st.blocks[c]);
      } else {
        assert Numbers([]) == {};
      }
    }
  }

  lemma BufferOkLater(buf: seq<Line>, lines: seq<string>, n: nat)
    requires BufferOk(buf, lines, n)
    ensures BufferOk(buf, lines, n + 1) && n !in Numbers(buf)
  {
  }

  lemma BufferOkAppend(buf: seq<Line>, lines: seq<string>, n: nat, hint: Option<BlockId>)
    requires n < |lines| && !Skipped(Trim(lines[n])) && BufferOk(buf, lines, n)
    ensures BufferOk(buf + [Line(n, Trim(lines[n]), hint)], lines, n + 1)
  {
    var buf' := buf + [Line(n, Trim(lines[n]), hint)];
    assert forall k :: 0 <= k < |buf| ==> buf'[k] == buf[k];
  }

  lemma NumbersAppend(buf: seq<Line>, l: Line)
    ensures Numbers(buf + [l]) == Numbers(buf) + {l.number}
  {
    var buf' := buf + [l];
    forall x | x in Numbers(buf') ensures x in Numbers(buf) + {l.number} {
      var k :| 0 <= k < |buf'| && buf'[k].number == x;
      if k < |buf| { assert buf'[k] == buf[k]; }
    }
    forall x | x in Numbers(buf) ensures x in Numbers(buf') {
      var k :| 0 <= k < |buf| && buf[k].number == x;
      assert buf'[k] == buf[k];
    }
    assert buf'[|buf|] == l;
  }

  /** Appending a line whose number no buffer holds keeps the buffers disjoint. */
  lemma AppendDisjoint(blocks: map<BlockId, seq<Line>>, b: BlockId, l: Line)
    requires b in blocks && Disjoint(blocks)
    requires forall c :: c in blocks ==> l.number !in Numbers(blocks[c])
    ensures Disjoint(blocks[b := blocks[b] + [l]])
  {
    NumbersAppend(blocks[b], l);
  }

  /** Buffering line `n` after the first `n` lines keeps the invariant, one line further. */
  lemma PushValid(d: SegState, lines: seq<string>, n: nat, hint: Option<BlockId>)
    requires n < |lines| && !Skipped(Trim(lines[n])) && Valid(d, lines, n)
    ensures Valid(Push(d, Line(n, Trim(lines[n]), hint)), lines, n + 1)
  {
    var l := Line(n, Trim(lines[n]), hint);
    var r := Push(d, l);
    if d.last.Some? && d.last.value in d.blocks {
      var b := d.last.value;
      assert r.blocks == d.blocks[b := d.blocks[b] + [l]];
      BufferOkAppend(d.blocks[b], lines, n, hint);
      forall c | c in r.blocks && c != b ensures BufferOk(r.blocks[c], lines, n + 1) {
        BufferOkLater(d.blocks[c], lines, n);
      }
      forall c | c in d.blocks ensures n !in Numbers(d.blocks[c]) { BufferOkLater(d.blocks[c], lines, n); }
      AppendDisjoint(d.blocks, b, l);
    } else {
      forall c | c in r.blocks ensures BufferOk(r.blocks[c], lines, n + 1) { BufferOkLater(d.blocks[c], lines, n); }
    }
  }

  /** Each step keeps the invariant: the new line lands in at most one buffer, after every earlier line. */
  lemma StepValid(pats: Patterns, v: Variant, st: SegState, lines: seq<string>, n: nat, hints: seq<Hint>)
    requires n < |lines| && Valid(st, lines, n)
    ensures Valid(Step(pats, v, st, n, lines[n], hints), lines, n + 1)
  {
    var line := Trim(lines[n]);
    if Skipped(line) {
      forall c | c in st.blocks ensures BufferOk(st.blocks[c], lines, n + 1) {
        assert BufferOk(st.blocks[c], lines, n);
      }
    } else {
      var hint := FindHint(hints, line);
      var d := DecideWith(pats, v, st, line, MatchOf(pats, st, line, hints), hint.Some?);
      DecideKeeps(pats, v, st, line, MatchOf(pats, st, line, hints), hint.Some?);
      KeptValid(st, d, lines, n);
      PushValid(d, lines, n, hint);
    }
  }

  lemma StartValid(lines: seq<string>)
    ensures Valid(Start, lines, 0)
  {
  }

  /** The invariant holds after every prefix of the lines. */
  lemma {:induction false} RunValid(pats: Patterns, v: Variant, lines: seq<string>, hints: seq<Hint>, n: nat)
    requires n <= |lines|
    ensures Valid(Run(pats, v, lines, hints, n), lines, n)
  {
    if n == 0 {
      StartValid(lines);
    } else {
      RunValid(pats, v, lines, hints, n - 1);
      StepValid(pats, v, Run(pats, v, lines, hints, n - 1), lines, n - 1, hints);
    }
  }

  // ----- the features-reset finding -----

  /**
   * As written, the implicit `features` fallback replaces an existing
   * `features` buffer: once a top block has reopened the top region, a later
   * entry title drops every `features` line gathered before. Corrected, the
   * buffer is kept.
   */
  lemma FeaturesResetDropsLines(pats: Patterns, st: SegState, i: nat, line: string, hints: seq<Hint>)
    requires MatchOf(pats, st, line, hints).None? && st.foundTop && pats.title(line)
    requires st.foundAbility || !pats.otherBlock(line)
    requires Features in st.blocks && st.blocks[Features] != []
    ensures Take(pats, AsWritten, st, i, line, hints).blocks[Features] == [Line(i, line, None)]
    ensures Take(pats, Corrected, st, i, line, hints).blocks[Features] == st.blocks[Features] + [Line(i, line, None)]
  {
    assert FindHint(hints, line).None?;
    var s := st.(foundTop := false, last := Some(Features));
    assert FeaturesFallback(pats, AsWritten, st, line, None) == Open(s, Features);
    assert [] + [Line(i, line, None)] == [Line(i, line, None)];
  }

  /** Every buffer of `a` is still there in `b`, with its lines as a prefix of `b`'s. */
  predicate KeepsLines(a: SegState, b: SegState)
  {
    forall c :: c in a.blocks ==> c in b.blocks && a.blocks[c] <= b.blocks[c]
  }

  /**
   * Corrected, one iteration never drops a buffered line: every buffer
   * survives and only grows. (As written, `FeaturesResetDropsLines` shows the
   * `features` buffer replaced.)
   */
  lemma CorrectedKeepsLines(pats: Patterns, st: SegState, i: nat, line: string, hints: seq<Hint>)
    ensures KeepsLines(st, Take(pats, Corrected, st, i, line, hints))
  {
    var hint := FindHint(hints, line);
    var m := MatchOf(pats, st, line, hints);
    var s1 := FeaturesFallback(pats, Corrected, st, line, m);
    var s2 := OtherBlockFallback(pats, s1, line, m);
    var s3 := AfterMatch(pats, s2, m);
    CorrectedFeaturesKeepsLines(pats, st, line, m);
    OtherBlockKeepsLines(pats, s1, line, m);
    KeepsTrans(st, s1, s2);
    assert s3.blocks == s2.blocks;
    if m.Some? && hint.None? {
      assert Candidate(pats, m.value, line, Excluded(st));
    }
    var d := OpenMatch(s3, m, hint.Some?);
    OpenMatchKeepsLines(s3, m, hint.Some?);
    KeepsTrans(st, s3, d);
    PushKeepsLines(d, Line(i, line, hint));
    KeepsTrans(st, d, Push(d, Line(i, line, hint)));
  }

  lemma CorrectedFeaturesKeepsLines(pats: Patterns, st: SegState, line: string, m: Option<BlockId>)
    ensures var r := FeaturesFallback(pats, Corrected, st, line, m);
      KeepsLines(st, r) && (forall c :: c in r.blocks && c !in st.blocks ==> c == Features)
  {
  }

  lemma OtherBlockKeepsLines(pats: Patterns, st: SegState, line: string, m: Option<BlockId>)
    ensures var r := OtherBlockFallback(pats, st, line, m);
      KeepsLines(st, r) && (forall c :: c in r.blocks && c !in st.blocks ==> c == OtherBlock)
  {
  }

  lemma OpenMatchKeepsLines(st: SegState, m: Option<BlockId>, hinted: bool)
    requires m.Some? && !hinted ==> m.value !in st.blocks
    ensures KeepsLines(st, OpenMatch(st, m, hinted))
  {
  }

  lemma PushKeepsLines(st: SegState, l: Line)
    ensures KeepsLines(st, Push(st, l))
  {
  }

  lemma KeepsTrans(a: SegState, b: SegState, c: SegState)
    requires KeepsLines(a, b) && KeepsLines(b, c)
    ensures KeepsLines(a, c)
  {
    forall x | x in a.blocks
      ensures x in c.blocks && a.blocks[x] <= c.blocks[x]
    {
      PrefixTrans(a.blocks[x], b.blocks[x], c.blocks[x]);
    }
  }

  lemma PrefixTrans(a: seq<Line>, b: seq<Line>, c: seq<Line>)
    requires a <= b && b <= c
    ensures a <= c
  {
  }

  /** Corrected, the pass never drops a buffered line: the buffers after `n` lines survive, grown, after any later line. */
  lemma {:induction false} CorrectedRunKeepsLines(pats: Patterns, lines: seq<string>, hints: seq<Hint>, n: nat, k: nat)
    requires n <= k <= |lines|
    ensures KeepsLines(Run(pats, Corrected, lines, hints, n), Run(pats, Corrected, lines, hints, k))
    decreases k - n
  {
    var a := Run(pats, Corrected, lines, hints, n);
    if n < k {
      var b := Run(pats, Corrected, lines, hints, n + 1);
      var line := Trim(lines[n]);
      if !Skipped(line) {
        CorrectedKeepsLines(pats, a, n, line, hints);
      }
      assert KeepsLines(a, b);
      CorrectedRunKeepsLines(pats, lines, hints, n + 1, k);
      KeepsTrans(a, b, Run(pats, Corrected, lines, hints, k));
    }
  }

  // ----- the parser object -----

  /**
   * `lines.every(l => l[0].toUpperCase() === l[0])`: whether every line
   * begins with a character upper-casing leaves alone. An empty line met
   * before the first line that settles the answer throws a `TypeError`,
   * modelled as `None`.
   */
  function CleanLinesOf(lines: seq<string>): (r: Option<bool>)
    ensures r == Some(true) <==> forall k :: 0 <= k < |lines| ==> lines[k] != [] && UpperChar(lines[k][0]) == lines[k][0]
    ensures r.None? ==> exists k :: 0 <= k < |lines| && lines[k] == []
  {
    if lines == [] then Some(true)
    else if lines[0] == [] then None
    else if UpperChar(lines[0][0]) != lines[0][0] then Some(false)
    else CleanLinesOf(lines[1..])
  }

  /** Every buffered line's text: `foundLines`. */
  function FoundTexts(blocks: map<BlockId, seq<Line>>): (r: set<string>)
    ensures forall b, k :: b in blocks && 0 <= k < |blocks[b]| ==> blocks[b][k].text in r
  {
    set b, k | b in blocks && 0 <= k < |blocks[b]| :: blocks[b][k].text
  }

  /** `lines.filter(item => !foundLines.includes(item))`, in order. */
  function UnknownLines(lines: seq<string>, found: set<string>): (r: seq<string>)
    ensures |r| <= |lines|
    ensures forall x :: x in r <==> x in lines && x !in found
  {
    if lines == [] then []
    else (if lines[0] in found then [] else [lines[0]]) + UnknownLines(lines[1..], found)
  }

  /** What `parseInput` returns: the actor's name, the buffers, the lines nobody claimed and the lines after the name. */
  datatype Parsed = Parsed(name: string, blocks: map<BlockId, seq<Line>>, order: seq<BlockId>, unknownLines: seq<string>, lines: seq<string>)

  /** The outcome of `parseInput`: its result, or the `TypeError` the `cleanLines` test throws. */
  datatype Outcome = Success(value: Parsed) | TypeError

  /**
   * The static state of `sbiParser` that `parseInput` rewrites: the buffer
   * map (with its key order), the `cleanLines` flag and the actor's name.
   */
  class Parser {
    var statBlocks: map<BlockId, seq<Line>>
    var blockOrder: seq<BlockId>
    var cleanLines: bool
    var actorName: Option<string>

    constructor()
      ensures statBlocks == map[] && blockOrder == [] && !cleanLines && actorName.None?
    {
      statBlocks := map[];
      blockOrder := [];
      cleanLines := false;
      actorName := None;
    }

    /**
     * One iteration of the `parseInput` loop: line `i` with the loop's local
     * state, matched with the patterns `pats`; `v` chooses the `features`
     * fallback as written or as corrected.
     */
    method ParseLine(pats: Patterns, v: Variant, i: nat, raw: string, hints: seq<Hint>, last: Option<BlockId>, foundTop: bool, foundAbility: bool)
      returns (lastBlockId: Option<BlockId>, foundTopBlock: bool, foundAbilityLine: bool)
      modifies this
      ensures SegState(statBlocks, blockOrder, lastBlockId, foundTopBlock, foundAbilityLine)
        == Step(pats, v, SegState(old(statBlocks), old(blockOrder), last, foundTop, foundAbility), i, raw, hints)
      ensures cleanLines == old(cleanLines) && actorName == old(actorName)
    {
      lastBlockId, foundTopBlock, foundAbilityLine := last, foundTop, foundAbility;
      var line := Trim(raw);
      if !Skipped(line) {
        var hint := FindHint(hints, line);
        var matched: Option<BlockId>;
        if hint.Some? {
          matched := hint;
        } else {
          var excludeIds := statBlocks.Keys;
          if !foundTopBlock {
            excludeIds := excludeIds + {Abilities};
          }
          matched := FirstMatch(pats, line, excludeIds);
        }
        lastBlockId, foundTopBlock, foundAbilityLine := DecideLine(pats, v, line, matched, hint.Some?, lastBlockId, foundTopBlock, foundAbilityLine);
        if lastBlockId.Some? && lastBlockId.value in statBlocks {
          statBlocks := statBlocks[lastBlockId.value := statBlocks[lastBlockId.value] + [Line(i, line, hint)]];
        }
      }
    }

    /** The fallbacks and the opening of the matched block, before the line is buffered. */
    method DecideLine(pats: Patterns, v: Variant, line: string, matched: Option<BlockId>, hinted: bool,
                      last: Option<BlockId>, foundTop: bool, foundAbility: bool)
      returns (lastBlockId: Option<BlockId>, foundTopBlock: bool, foundAbilityLine: bool)
      modifies this
      ensures SegState(statBlocks, blockOrder, lastBlockId, foundTopBlock, foundAbilityLine)
        == DecideWith(pats, v, SegState(old(statBlocks), old(blockOrder), last, foundTop, foundAbility), line, matched, hinted)
      ensures cleanLines == old(cleanLines) && actorName == old(actorName)
    {
      lastBlockId, foundTopBlock, foundAbilityLine := last, foundTop, foundAbility;
      if matched.None? && foundTopBlock && pats.title(line) {
        foundTopBlock := false;
        lastBlockId := Some(Features);
        if v == AsWritten || Features !in statBlocks {
          if Features !in statBlocks {
            blockOrder := blockOrder + [Features];
          }
          statBlocks := statBlocks[Features := []];
        }
      }
      if matched.None? && !foundAbilityLine && pats.otherBlock(line) {
        foundTopBlock := false;
        lastBlockId := Some(OtherBlock);
        if OtherBlock !in statBlocks {
          blockOrder := blockOrder + [OtherBlock];
          statBlocks := statBlocks[OtherBlock := []];
        }
      }
      if matched.Some? {
        foundTopBlock := pats.top(matched.value);
      }
      if matched.Some? && foundAbilityLine && matched.value != Abilities {
        foundAbilityLine := false;
      }
      if matched.Some? && !foundAbilityLine {
        lastBlockId := matched;
        if !hinted || matched.value !in statBlocks {
          if matched.value !in statBlocks {
            blockOrder := blockOrder + [matched.value];
          }
          statBlocks := statBlocks[matched.value := []];
        }
        foundAbilityLine := matched.value == Abilities;
      }
    }

    /**
     * `parseInput` on the cleaned text: the lines after `fixNewLines`, the
     * first of them the name, every other line sorted by the pass `Run`, and
     * the lines no buffer claims. With `v == AsWritten` this is the code as
     * written (the `features` buffer reset); with `Corrected`, the intended one.
     */
    method ParseInput(v: Variant, text: string, hints: seq<Hint>) returns (r: Outcome)
      modifies this
      ensures var all := FixNewLines(Split(text, '\n'));
        CleanLinesOf(all).None? ==> r == TypeError && unchanged(this)
      ensures var all := FixNewLines(Split(text, '\n'));
        CleanLinesOf(all).Some? ==>
          var st := Run(SbiPatterns, v, all[1..], hints, |all| - 1);
          statBlocks == st.blocks && blockOrder == st.order
          && cleanLines == CleanLinesOf(all).value && actorName == Some(Trim(all[0]))
          && r == Success(Parsed(Trim(all[0]), st.blocks, st.order, UnknownLines(all[1..], FoundTexts(st.blocks)), all[1..]))
    {
      var all := FixNewLines(Split(text, '\n'));
      var clean := CleanLinesOf(all);
      if clean.None? {
        return TypeError;
      }
      cleanLines := clean.value;
      actorName := Some(Trim(all[0]));
      var lines := all[1..];
      Segment(SbiPatterns, v, lines, hints);
      r := Success(Parsed(Trim(all[0]), statBlocks, blockOrder, UnknownLines(lines, FoundTexts(statBlocks)), lines));
    }
    /** The `parseInput` loop: every line in turn, from empty buffers, in the top region. */
    method Segment(pats: Patterns, v: Variant, lines: seq<string>, hints: seq<Hint>)
      modifies this
      ensures var st := Run(pats, v, lines, hints, |lines|);
        statBlocks == st.blocks && blockOrder == st.order
      ensures cleanLines == old(cleanLines) && actorName == old(actorName)
    {
      statBlocks := map[];
      blockOrder := [];
      var lastBlockId: Option<BlockId> := None;
      var foundAbilityLine := false;
      var foundTopBlock := true;
      var i := 0;
      while i < |lines|
        invariant i <= |lines|
        invariant SegState(statBlocks, blockOrder, lastBlockId, foundTopBlock, foundAbilityLine)
          == Run(pats, v, lines, hints, i)
        invariant cleanLines == old(cleanLines) && actorName == old(actorName)
      {
        lastBlockId, foundTopBlock, foundAbilityLine := ParseLine(pats, v, i, lines[i], hints, lastBlockId, foundTopBlock, foundAbilityLine);
        i := i + 1;
      }
    }
  }
}
