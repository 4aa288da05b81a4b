/** How wide the lines of `wrapWithPrefix` (authoring_preview.js lines 123-165) can be.
    Nothing is known of the canvas metrics, so the bounds are proved for any width
    function that adds up over concatenation and is never negative. */
module WrapWidth {
  import opened JsText
  import opened Wrapper

  /** The width of two strings side by side is the sum of their widths. */
  ghost predicate Additive(measure: Measure) {
    forall a: string, b: string :: measure(a + b) == measure(a) + measure(b)
  }

  ghost predicate NonNegative(measure: Measure) {
    forall s: string :: measure(s) >= 0
  }

  /** How far a continuation line may run past `wrapWidth`: with the source's piece
      width, by as much as the continuation prefix is wider than the first prefix;
      with the intended piece width, not at all. */
  function Slack(budget: SplitBudget, firstPrefix: string, continuationPrefix: string, measure: Measure): (r: int)
    ensures r >= 0
  {
    match budget
    case CurrentPrefixWidth =>
      if measure(continuationPrefix) > measure(firstPrefix) then measure(continuationPrefix) - measure(firstPrefix) else 0
    case WidestPrefixWidth => 0
  }

  /** A line within `wrapWidth + slack`, or no more than its prefix and one character. */
  predicate LineWithin(line: string, prefix: string, wrapWidth: int, slack: int, measure: Measure) {
    measure(line) <= wrapWidth + slack || |line| <= |prefix| + 1
  }

  function PrefixAt(i: nat, firstPrefix: string, continuationPrefix: string): string {
    if i == 0 then firstPrefix else continuationPrefix
  }

  function SlackAt(i: nat, slack: int): int {
    if i == 0 then 0 else slack
  }

  /** Line `i` is within the budget: the first line strictly, the later ones up to `slack`. */
  predicate LinesWithin(lines: seq<string>, firstPrefix: string, continuationPrefix: string, wrapWidth: int, slack: int, measure: Measure) {
    forall i :: 0 <= i < |lines| ==>
      LineWithin(lines[i], PrefixAt(i, firstPrefix, continuationPrefix), wrapWidth, SlackAt(i, slack), measure)
  }

  /** The finished lines and the line being filled are all within the budget. */
  predicate StateWithin(st: WrapState, firstPrefix: string, continuationPrefix: string, wrapWidth: int, slack: int, measure: Measure) {
    && LinesWithin(st.lines, firstPrefix, continuationPrefix, wrapWidth, slack, measure)
    && LineWithin(st.current, st.currentPrefix, wrapWidth, SlackAt(|st.lines|, slack), measure)
  }

  // ---------------------------------------------------------------------------
  // Facts about the width function

  lemma MeasureAppend(measure: Measure, a: string, b: string)
    requires Additive(measure)
    ensures measure(a + b) == measure(a) + measure(b)
  {
  }

  /** Dropping leading white space does not widen a line. */
  lemma TrimStartNarrower(measure: Measure, prefix: string, part: string)
    requires Additive(measure) && NonNegative(measure)
    ensures measure(prefix + TrimStart(part)) <= measure(prefix + part)
  {
    var k := LeadingSpace(part);
    assert part == part[..k] + TrimStart(part);
    MeasureAppend(measure, part[..k], TrimStart(part));
    MeasureAppend(measure, prefix, part);
    MeasureAppend(measure, prefix, TrimStart(part));
  }

  /** The piece width leaves room for the prefix of the line a token starts on, and
      a continuation line holding one piece runs past `wrapWidth` by at most the slack. */
  lemma PieceWidthFits(budget: SplitBudget, prefix: string, firstPrefix: string, continuationPrefix: string, wrapWidth: int, measure: Measure)
    requires prefix == firstPrefix || prefix == continuationPrefix
    ensures measure(prefix) + PieceWidth(budget, prefix, continuationPrefix, wrapWidth, measure) <= wrapWidth
    ensures measure(continuationPrefix) + PieceWidth(budget, prefix, continuationPrefix, wrapWidth, measure)
      <= wrapWidth + Slack(budget, firstPrefix, continuationPrefix, measure)
  {
  }

  // ---------------------------------------------------------------------------
  // The loop keeps every line within the budget

  /** Finishing the line being filled and starting a continuation line `next`. */
  lemma PushCurrentWithin(st: WrapState, next: string, firstPrefix: string, continuationPrefix: string,
                          wrapWidth: int, slack: int, measure: Measure)
    requires WrapInvariant(st, firstPrefix, continuationPrefix)
    requires StateWithin(st, firstPrefix, continuationPrefix, wrapWidth, slack, measure)
    requires LineWithin(next, continuationPrefix, wrapWidth, slack, measure)
    ensures StateWithin(WrapState(st.lines + [st.current], continuationPrefix, next), firstPrefix, continuationPrefix, wrapWidth, slack, measure)
  {
    var lines' := st.lines + [st.current];
    forall i | 0 <= i < |lines'|
      ensures LineWithin(lines'[i], PrefixAt(i, firstPrefix, continuationPrefix), wrapWidth, SlackAt(i, slack), measure)
    {
      if i < |st.lines| {
        assert lines'[i] == st.lines[i];
      } else {
        assert lines'[i] == st.current;
      }
    }
  }

  lemma {:induction false} ContinueChunksWithin(st: WrapState, chunks: seq<string>, firstPrefix: string, continuationPrefix: string,
                                                wrapWidth: int, slack: int, measure: Measure)
    requires WrapInvariant(st, firstPrefix, continuationPrefix)
    requires StateWithin(st, firstPrefix, continuationPrefix, wrapWidth, slack, measure)
    requires forall k :: 0 <= k < |chunks| ==> LineWithin(continuationPrefix + chunks[k], continuationPrefix, wrapWidth, slack, measure)
    ensures StateWithin(ContinueChunks(st, chunks, continuationPrefix), firstPrefix, continuationPrefix, wrapWidth, slack, measure)
  {
    if chunks != [] {
      var init := chunks[..|chunks| - 1];
      var before := ContinueChunks(st, init, continuationPrefix);
      assert ContinueChunks(st, chunks, continuationPrefix)
          == WrapState(before.lines + [before.current], continuationPrefix, continuationPrefix + chunks[|chunks| - 1]);
      ContinueChunksWithin(st, init, firstPrefix, continuationPrefix, wrapWidth, slack, measure);
      ContinueChunksInvariant(st, init, firstPrefix, continuationPrefix);
      PushCurrentWithin(before, continuationPrefix + chunks[|chunks| - 1], firstPrefix, continuationPrefix, wrapWidth, slack, measure);
    }
  }

  /** The pieces of a split token, placed on a line holding only its prefix. */
  lemma PlaceChunksWithin(st1: WrapState, chunks: seq<string>, firstPrefix: string, continuationPrefix: string,
                          wrapWidth: int, slack: int, measure: Measure)
    requires WrapInvariant(st1, firstPrefix, continuationPrefix)
    requires LinesWithin(st1.lines, firstPrefix, continuationPrefix, wrapWidth, slack, measure)
    requires st1.current == st1.currentPrefix
    requires chunks != [] ==> LineWithin(st1.current + chunks[0], st1.currentPrefix, wrapWidth, SlackAt(|st1.lines|, slack), measure)
    requires forall k :: 1 <= k < |chunks| ==> LineWithin(continuationPrefix + chunks[k], continuationPrefix, wrapWidth, slack, measure)
    ensures StateWithin(PlaceChunks(st1, chunks, continuationPrefix), firstPrefix, continuationPrefix, wrapWidth, slack, measure)
  {
    if chunks != [] {
      var first := WrapState(st1.lines, st1.currentPrefix, st1.current + chunks[0]);
      assert PlaceChunks(st1, chunks, continuationPrefix) == ContinueChunks(first, chunks[1..], continuationPrefix);
      ExtendCurrent(st1, chunks[0], firstPrefix, continuationPrefix);
      forall k | 0 <= k < |chunks[1..]|
        ensures LineWithin(continuationPrefix + chunks[1..][k], continuationPrefix, wrapWidth, slack, measure)
      {
        assert chunks[1..][k] == chunks[k + 1];
      }
      ContinueChunksWithin(first, chunks[1..], firstPrefix, continuationPrefix, wrapWidth, slack, measure);
    }
  }

  /** A token that does not fit, once the line is broken, keeps every line within the budget. */
  lemma OverflowWithin(st1: WrapState, part: string, firstPrefix: string, continuationPrefix: string,
                       wrapWidth: int, measure: Measure, budget: SplitBudget)
    requires Additive(measure) && NonNegative(measure)
    requires WrapInvariant(st1, firstPrefix, continuationPrefix)
    requires LinesWithin(st1.lines, firstPrefix, continuationPrefix, wrapWidth, Slack(budget, firstPrefix, continuationPrefix, measure), measure)
    requires st1.current == st1.currentPrefix
    ensures StateWithin(Overflow(st1, part, continuationPrefix, wrapWidth, measure, budget), firstPrefix, continuationPrefix,
                        wrapWidth, Slack(budget, firstPrefix, continuationPrefix, measure), measure)
  {
    var slack := Slack(budget, firstPrefix, continuationPrefix, measure);
    var prefix := st1.currentPrefix;
    if measure(st1.current + part) <= wrapWidth {
      TrimStartNarrower(measure, prefix, part);
    } else {
      var maxWidth := PieceWidth(budget, prefix, continuationPrefix, wrapWidth, measure);
      var chunks := SplitChunks(TrimStart(part), maxWidth, measure);
      assert Overflow(st1, part, continuationPrefix, wrapWidth, measure, budget) == PlaceChunks(st1, chunks, continuationPrefix);
      SplitChunksProperties(TrimStart(part), maxWidth, measure);
      PieceWidthFits(budget, prefix, firstPrefix, continuationPrefix, wrapWidth, measure);
      if chunks != [] {
        assert LineWithin(prefix + chunks[0], prefix, wrapWidth, SlackAt(|st1.lines|, slack), measure) by {
          MeasureAppend(measure, prefix, chunks[0]);
        }
      }
      forall k | 1 <= k < |chunks|
        ensures LineWithin(continuationPrefix + chunks[k], continuationPrefix, wrapWidth, slack, measure)
      {
        MeasureAppend(measure, continuationPrefix, chunks[k]);
      }
      PlaceChunksWithin(st1, chunks, firstPrefix, continuationPrefix, wrapWidth, slack, measure);
    }
  }

  /** One token keeps every line within the budget. */
  lemma WrapStepWithin(st: WrapState, part: string, firstPrefix: string, continuationPrefix: string,
                       wrapWidth: int, measure: Measure, budget: SplitBudget)
    requires Additive(measure) && NonNegative(measure)
    requires WrapInvariant(st, firstPrefix, continuationPrefix)
    requires StateWithin(st, firstPrefix, continuationPrefix, wrapWidth, Slack(budget, firstPrefix, continuationPrefix, measure), measure)
    ensures StateWithin(WrapStep(st, part, continuationPrefix, wrapWidth, measure, budget), firstPrefix, continuationPrefix,
                        wrapWidth, Slack(budget, firstPrefix, continuationPrefix, measure), measure)
  {
    var slack := Slack(budget, firstPrefix, continuationPrefix, measure);
    if measure(st.current + part) > wrapWidth {
      var st1 := BreakLine(st, continuationPrefix);
      BreakLineInvariant(st, firstPrefix, continuationPrefix);
      if |st.current| > |st.currentPrefix| {
        PushCurrentWithin(st, continuationPrefix, firstPrefix, continuationPrefix, wrapWidth, slack, measure);
      } else {
        assert st.current == st.current[..|st.currentPrefix|];
      }
      OverflowWithin(st1, part, firstPrefix, continuationPrefix, wrapWidth, measure, budget);
    }
  }

  lemma {:induction false} WrapFoldWithin(st: WrapState, parts: seq<string>, firstPrefix: string, continuationPrefix: string,
                                          wrapWidth: int, measure: Measure, budget: SplitBudget)
    requires Additive(measure) && NonNegative(measure)
    requires WrapInvariant(st, firstPrefix, continuationPrefix)
    requires StateWithin(st, firstPrefix, continuationPrefix, wrapWidth, Slack(budget, firstPrefix, continuationPrefix, measure), measure)
    ensures StateWithin(WrapFold(st, parts, continuationPrefix, wrapWidth, measure, budget), firstPrefix, continuationPrefix,
                        wrapWidth, Slack(budget, firstPrefix, continuationPrefix, measure), measure)
  {
    if parts != [] {
      var init := parts[..|parts| - 1];
      var mid := WrapFold(st, init, continuationPrefix, wrapWidth, measure, budget);
      WrapFoldWithin(st, init, firstPrefix, continuationPrefix, wrapWidth, measure, budget);
      WrapFoldInvariant(st, init, firstPrefix, continuationPrefix, wrapWidth, measure, budget);
      WrapStepWithin(mid, parts[|parts| - 1], firstPrefix, continuationPrefix, wrapWidth, measure, budget);
    }
  }

  lemma FinishLinesWithin(st: WrapState, firstPrefix: string, continuationPrefix: string, wrapWidth: int, slack: int, measure: Measure)
    requires WrapInvariant(st, firstPrefix, continuationPrefix)
    requires StateWithin(st, firstPrefix, continuationPrefix, wrapWidth, slack, measure)
    ensures LinesWithin(FinishLines(st), firstPrefix, continuationPrefix, wrapWidth, slack, measure)
  {
    if |st.current| > 0 {
      var all := st.lines + [st.current];
      forall i | 0 <= i < |all|
        ensures LineWithin(all[i], PrefixAt(i, firstPrefix, continuationPrefix), wrapWidth, SlackAt(i, slack), measure)
      {
        if i < |st.lines| { assert all[i] == st.lines[i]; }
      }
    }
  }

  /** Every line `wrapWithPrefix` returns fits `wrapWidth` plus, on the continuation
      lines, the slack of the piece width in use, unless it holds no more than its
      prefix and one character. */
  lemma WrappedLinesWithin(text: string, firstPrefix: string, continuationPrefix: string, wrapWidth: int, measure: Measure, budget: SplitBudget)
    requires Additive(measure) && NonNegative(measure)
    ensures LinesWithin(Wrapped(text, firstPrefix, continuationPrefix, wrapWidth, measure, budget), firstPrefix, continuationPrefix,
                        wrapWidth, Slack(budget, firstPrefix, continuationPrefix, measure), measure)
  {
    var slack := Slack(budget, firstPrefix, continuationPrefix, measure);
    var init := WrapState([], firstPrefix, firstPrefix);
    WrapFoldWithin(init, Words(text), firstPrefix, continuationPrefix, wrapWidth, measure, budget);
    WrapFoldInvariant(init, Words(text), firstPrefix, continuationPrefix, wrapWidth, measure, budget);
    FinishLinesWithin(WrapFold(init, Words(text), continuationPrefix, wrapWidth, measure, budget),
                      firstPrefix, continuationPrefix, wrapWidth, slack, measure);
  }

  // ---------------------------------------------------------------------------
  // What the source does, and what it is meant to do

  /** As written: the first line fits, and a continuation line runs past `wrapWidth`
      by at most the amount the continuation prefix is wider than the first prefix,
      unless it is its prefix and at most one character. */
  lemma WrappedOverflowBound(text: string, firstPrefix: string, continuationPrefix: string, wrapWidth: int, measure: Measure)
    requires Additive(measure) && NonNegative(measure)
    ensures var lines := Wrapped(text, firstPrefix, continuationPrefix, wrapWidth, measure, CurrentPrefixWidth);
      var excess := if measure(continuationPrefix) > measure(firstPrefix) then measure(continuationPrefix) - measure(firstPrefix) else 0;
      && (measure(lines[0]) <= wrapWidth || |lines[0]| <= |firstPrefix| + 1)
      && (forall i :: 1 <= i < |lines| ==> measure(lines[i]) <= wrapWidth + excess || |lines[i]| <= |continuationPrefix| + 1)
  {
    WrappedShape(text, firstPrefix, continuationPrefix, wrapWidth, measure, CurrentPrefixWidth);
    WrappedLinesWithin(text, firstPrefix, continuationPrefix, wrapWidth, measure, CurrentPrefixWidth);
  }

  /** One unit per character, as a monospaced font measures. */
  function CharCount(s: string): int {
    |s|
  }

  lemma CharCountMeasure()
    ensures Additive(CharCount) && NonNegative(CharCount)
  {
  }

  lemma WordsOfOneToken()
    ensures Words("abcd") == ["abcd"]
    ensures TrimStart("abcd") == "abcd"
  {
    var t := "abcd";
    assert !IsSpace(t[0]) && !IsSpace(t[1]) && !IsSpace(t[2]) && !IsSpace(t[3]);
    assert RunLength(t) == 4;
    assert t[..4] == t && t[4..] == [];
  }

  lemma SplitAbcd()
    ensures SplitChunks("abcd", 2, CharCount) == ["ab", "cd"]
    ensures SplitChunks("abcd", 0, CharCount) == ["a", "b", "c", "d"]
  {
    assert "abcd"[..3] == "abc" && "abc"[..2] == "ab" && "ab"[..1] == "a" && "a"[..0] == "";
    assert ChunkFold("a", 2, CharCount) == ChunkState([], "a");
    assert ChunkFold("ab", 2, CharCount) == ChunkState([], "ab");
    assert ChunkFold("abc", 2, CharCount) == ChunkState(["ab"], "c");
    assert ChunkFold("abcd", 2, CharCount) == ChunkState(["ab"], "cd");
    assert ChunkFold("a", 0, CharCount) == ChunkState([], "a");
    assert ChunkFold("ab", 0, CharCount) == ChunkState(["a"], "b");
    assert ChunkFold("abc", 0, CharCount) == ChunkState(["a", "b"], "c");
    assert ChunkFold("abcd", 0, CharCount) == ChunkState(["a", "b", "c"], "d");
  }

  lemma PlaceAbcd()
    ensures PlaceChunks(WrapState([], "", ""), ["ab", "cd"], "  ") == WrapState(["ab"], "  ", "  cd")
    ensures PlaceChunks(WrapState([], "", ""), ["a", "b", "c", "d"], "  ") == WrapState(["a", "  b", "  c"], "  ", "  d")
  {
    assert "" + "ab" == "ab" && "" + "a" == "a";
    assert ["ab", "cd"][1..] == ["cd"] && ["cd"][..0] == [];
    var first := WrapState([], "", "a");
    assert ["a", "b", "c", "d"][1..] == ["b", "c", "d"];
    assert ["b", "c", "d"][..2] == ["b", "c"] && ["b", "c"][..1] == ["b"] && ["b"][..0] == [];
    assert ContinueChunks(first, ["b"], "  ") == WrapState(["a"], "  ", "  b");
    assert ContinueChunks(first, ["b", "c"], "  ") == WrapState(["a", "  b"], "  ", "  c");
  }

  /** As written, a long word on the first line of a paragraph (prefixes `""` and
      `"  "`) leaves a continuation line wider than the budget that is more than its
      prefix and one character: one unit per character and a budget of 2 wrap
      `"abcd"` to `"ab"` and `"  cd"`, four units wide. */
  lemma WrapOverflowExample()
    ensures var lines := Wrapped("abcd", "", "  ", 2, CharCount, CurrentPrefixWidth);
      && lines == ["ab", "  cd"]
      && CharCount(lines[1]) > 2 && |lines[1]| > |"  "| + 1
  {
    var m: Measure := CharCount;
    var init := WrapState([], "", "");
    var placed := WrapState(["ab"], "  ", "  cd");
    WordsOfOneToken();
    SplitAbcd();
    PlaceAbcd();
    assert Overflow(init, "abcd", "  ", 2, m, CurrentPrefixWidth) == placed by {
      assert "" + "abcd" == "abcd";
      assert PieceWidth(CurrentPrefixWidth, "", "  ", 2, m) == 2;
    }
    assert WrapStep(init, "abcd", "  ", 2, m, CurrentPrefixWidth) == placed by {
      assert "" + "abcd" == "abcd";
      assert BreakLine(init, "  ") == init;
    }
    assert WrapFold(init, ["abcd"], "  ", 2, m, CurrentPrefixWidth) == placed by {
      assert ["abcd"][..0] == [];
    }
    assert FinishLines(placed) == ["ab", "  cd"];
  }

  /** The intended wrapper: every line fits `wrapWidth`, or is its prefix followed by
      at most one character, which is the single unsplittable character the budget
      allows. */
  lemma WrappedWithinBudget(text: string, firstPrefix: string, continuationPrefix: string, wrapWidth: int, measure: Measure)
    requires Additive(measure) && NonNegative(measure)
    ensures var lines := Wrapped(text, firstPrefix, continuationPrefix, wrapWidth, measure, WidestPrefixWidth);
      forall i :: 0 <= i < |lines| ==>
        var prefix := if i == 0 then firstPrefix else continuationPrefix;
        measure(lines[i]) <= wrapWidth || (StartsWith(lines[i], prefix) && |lines[i]| <= |prefix| + 1)
  {
    var lines := Wrapped(text, firstPrefix, continuationPrefix, wrapWidth, measure, WidestPrefixWidth);
    WrappedShape(text, firstPrefix, continuationPrefix, wrapWidth, measure, WidestPrefixWidth);
    WrappedLinesWithin(text, firstPrefix, continuationPrefix, wrapWidth, measure, WidestPrefixWidth);
    forall i | 0 <= i < |lines|
      ensures var prefix := if i == 0 then firstPrefix else continuationPrefix;
        measure(lines[i]) <= wrapWidth || (StartsWith(lines[i], prefix) && |lines[i]| <= |prefix| + 1)
    {
      assert LineWithin(lines[i], PrefixAt(i, firstPrefix, continuationPrefix), wrapWidth, SlackAt(i, 0), measure);
    }
  }

  /** The intended wrapper on the same input keeps within the budget: one character per line. */
  lemma WrapWithinBudgetExample()
    ensures Wrapped("abcd", "", "  ", 2, CharCount, WidestPrefixWidth) == ["a", "  b", "  c", "  d"]
  {
    var m: Measure := CharCount;
    var init := WrapState([], "", "");
    var placed := WrapState(["a", "  b", "  c"], "  ", "  d");
    WordsOfOneToken();
    SplitAbcd();
    PlaceAbcd();
    assert Overflow(init, "abcd", "  ", 2, m, WidestPrefixWidth) == placed by {
      assert "" + "abcd" == "abcd";
      assert PieceWidth(WidestPrefixWidth, "", "  ", 2, m) == 0;
    }
    assert WrapStep(init, "abcd", "  ", 2, m, WidestPrefixWidth) == placed by {
      assert "" + "abcd" == "abcd";
      assert BreakLine(init, "  ") == init;
    }
    assert WrapFold(init, ["abcd"], "  ", 2, m, WidestPrefixWidth) == placed by {
      assert ["abcd"][..0] == [];
    }
  }
}
