/** The greedy, pixel-budget word wrapper (`splitLongToken` and `wrapWithPrefix`,
    authoring_preview.js lines 105-165). The text width comes from `measure`, a
    parameter standing for the canvas font metrics. */
module Wrapper {
  import opened JsText

  /** Rendered width of a string in the active font. */
  type Measure = string -> int

  // ---------------------------------------------------------------------------
  // Tokens

  /** Length of the longest prefix of `s` whose characters are all white space,
      or all not white space, like `s[0]`. */
  function RunLength(s: string): (n: nat)
    requires s != []
    ensures 1 <= n <= |s|
    ensures forall i :: 0 <= i < n ==> IsSpace(s[i]) == IsSpace(s[0])
    ensures n < |s| ==> IsSpace(s[n]) != IsSpace(s[0])
  {
    if |s| == 1 || IsSpace(s[1]) != IsSpace(s[0]) then 1 else 1 + RunLength(s[1..])
  }

  /** A token of the wrapper: a non-empty run of white space, or of other characters. */
  predicate IsToken(t: string) {
    t != [] && forall i :: 0 <= i < |t| ==> IsSpace(t[i]) == IsSpace(t[0])
  }

  /** `text.split(/(\s+)/).filter(part => part.length > 0)`: the text cut into
      maximal runs, keeping the white-space runs. */
  function Words(text: string): (parts: seq<string>)
    ensures forall i :: 0 <= i < |parts| ==> parts[i] != [] && IsToken(parts[i])
    ensures forall i, j :: 0 <= i < j < |parts| && j == i + 1 ==> IsSpace(parts[i][0]) != IsSpace(parts[j][0])
    decreases |text|
  {
    if text == [] then []
    else
      var n := RunLength(text);
      [text[..n]] + Words(text[n..])
  }

  /** The tokens put back together give the text again. */
  lemma {:induction false} WordsRebuildText(text: string)
    ensures Flatten(Words(text)) == text
    decreases |text|
  {
    if text != [] {
      var n := RunLength(text);
      var rest := Words(text[n..]);
      var words := [text[..n]] + rest;
      assert Words(text) == words;
      assert words[1..] == rest;
      FlattenFirst(words);
      WordsRebuildText(text[n..]);
      assert text[..n] + text[n..] == text;
    }
  }

  // ---------------------------------------------------------------------------
  // splitLongToken

  /** The loop state of `splitLongToken`: the finished chunks and the chunk being grown. */
  datatype ChunkState = ChunkState(chunks: seq<string>, chunk: string)

  /** One turn of the `for (const char of token)` loop. */
  function ChunkStep(st: ChunkState, c: char, maxWidth: int, measure: Measure): ChunkState {
    var candidate := st.chunk + [c];
    if measure(candidate) <= maxWidth || |st.chunk| == 0 then ChunkState(st.chunks, candidate)
    else ChunkState(st.chunks + [st.chunk], [c])
  }

  /** The loop state after the whole of `token` has been read. */
  function ChunkFold(token: string, maxWidth: int, measure: Measure): ChunkState {
    if token == [] then ChunkState([], "")
    else ChunkStep(ChunkFold(token[..|token| - 1], maxWidth, measure), token[|token| - 1], maxWidth, measure)
  }

  /** `splitLongToken(token, maxWidth)`: the token cut into the longest pieces that fit. */
  function SplitChunks(token: string, maxWidth: int, measure: Measure): seq<string> {
    var st := ChunkFold(token, maxWidth, measure);
    if |st.chunk| > 0 then st.chunks + [st.chunk] else st.chunks
  }

  /** A piece is kept whole only when it fits, unless it is a single character. */
  predicate ChunkFits(chunk: string, maxWidth: int, measure: Measure) {
    |chunk| == 1 || measure(chunk) <= maxWidth
  }

  ghost predicate ChunkFoldInvariant(token: string, maxWidth: int, measure: Measure, st: ChunkState) {
    && Flatten(st.chunks) + st.chunk == token
    && (st.chunk == [] <==> token == [])
    && (forall i :: 0 <= i < |st.chunks| ==> st.chunks[i] != [] && ChunkFits(st.chunks[i], maxWidth, measure))
    && (st.chunk == [] || ChunkFits(st.chunk, maxWidth, measure))
    && (forall i :: 0 <= i < |st.chunks| - 1 ==> measure(st.chunks[i] + [st.chunks[i + 1][0]]) > maxWidth)
    && (st.chunks != [] && st.chunk != [] ==> measure(st.chunks[|st.chunks| - 1] + [st.chunk[0]]) > maxWidth)
  }

  /** A character that fits, or that starts an empty chunk, grows the chunk. */
  lemma ChunkGrowKeepsInvariant(prefix: string, c: char, maxWidth: int, measure: Measure, st: ChunkState)
    requires ChunkFoldInvariant(prefix, maxWidth, measure, st)
    requires measure(st.chunk + [c]) <= maxWidth || |st.chunk| == 0
    ensures ChunkFoldInvariant(prefix + [c], maxWidth, measure, ChunkState(st.chunks, st.chunk + [c]))
  {
    AppendAssociates(Flatten(st.chunks), st.chunk, [c]);
    assert (st.chunk + [c])[0] == (if st.chunk == [] then c else st.chunk[0]);
  }

  /** A character that overflows a non-empty chunk closes it and starts the next. */
  lemma ChunkCloseKeepsInvariant(prefix: string, c: char, maxWidth: int, measure: Measure, st: ChunkState)
    requires ChunkFoldInvariant(prefix, maxWidth, measure, st)
    requires measure(st.chunk + [c]) > maxWidth && |st.chunk| > 0
    ensures ChunkFoldInvariant(prefix + [c], maxWidth, measure, ChunkState(st.chunks + [st.chunk], [c]))
  {
    var chunks' := st.chunks + [st.chunk];
    assert chunks'[..|chunks'| - 1] == st.chunks;
    assert Flatten(chunks') == Flatten(st.chunks) + st.chunk;
    forall i | 0 <= i < |chunks'| - 1
      ensures measure(chunks'[i] + [chunks'[i + 1][0]]) > maxWidth
    {
      if i < |st.chunks| - 1 {
        assert chunks'[i] == st.chunks[i] && chunks'[i + 1] == st.chunks[i + 1];
      }
    }
  }

  lemma {:induction false} ChunkFoldKeepsInvariant(token: string, maxWidth: int, measure: Measure)
    ensures ChunkFoldInvariant(token, maxWidth, measure, ChunkFold(token, maxWidth, measure))
  {
    if token != [] {
      var prefix := token[..|token| - 1];
      var c := token[|token| - 1];
      var st := ChunkFold(prefix, maxWidth, measure);
      assert ChunkFold(token, maxWidth, measure) == ChunkStep(st, c, maxWidth, measure);
      assert prefix + [c] == token;
      ChunkFoldKeepsInvariant(prefix, maxWidth, measure);
      if measure(st.chunk + [c]) <= maxWidth || |st.chunk| == 0 {
        ChunkGrowKeepsInvariant(prefix, c, maxWidth, measure, st);
      } else {
        ChunkCloseKeepsInvariant(prefix, c, maxWidth, measure, st);
      }
    }
  }

  /** Every piece of `splitLongToken` is non-empty, the pieces put together give the
      token back, each piece fits unless it is one character, and each piece is as
      long as it can be: adding the next piece's first character would overflow. */
  lemma SplitChunksProperties(token: string, maxWidth: int, measure: Measure)
    ensures var chunks := SplitChunks(token, maxWidth, measure);
      && Flatten(chunks) == token
      && (forall i :: 0 <= i < |chunks| ==> chunks[i] != [] && ChunkFits(chunks[i], maxWidth, measure))
      && (forall i :: 0 <= i < |chunks| - 1 ==> measure(chunks[i] + [chunks[i + 1][0]]) > maxWidth)
  {
    SplitChunksRebuild(token, maxWidth, measure);
    ChunkFoldKeepsInvariant(token, maxWidth, measure);
    var st := ChunkFold(token, maxWidth, measure);
    if |st.chunk| > 0 {
      var chunks := st.chunks + [st.chunk];
      forall i | 0 <= i < |chunks| - 1
        ensures measure(chunks[i] + [chunks[i + 1][0]]) > maxWidth
      {
        if i < |st.chunks| - 1 {
          assert chunks[i] == st.chunks[i] && chunks[i + 1] == st.chunks[i + 1];
        } else {
          assert chunks[i] == st.chunks[|st.chunks| - 1] && chunks[i + 1] == st.chunk;
        }
      }
    }
  }

  lemma SplitChunksRebuild(token: string, maxWidth: int, measure: Measure)
    ensures Flatten(SplitChunks(token, maxWidth, measure)) == token
  {
    ChunkFoldKeepsInvariant(token, maxWidth, measure);
    var st := ChunkFold(token, maxWidth, measure);
    if |st.chunk| > 0 {
      var chunks := st.chunks + [st.chunk];
      assert chunks[..|chunks| - 1] == st.chunks;
      assert Flatten(chunks) == Flatten(st.chunks) + st.chunk;
    }
  }

  /** `splitLongToken`, with the source's loop. */
  method SplitLongToken(token: string, maxWidth: int, measure: Measure) returns (chunks: seq<string>)
    ensures chunks == SplitChunks(token, maxWidth, measure)
    ensures Flatten(chunks) == token
    ensures forall i :: 0 <= i < |chunks| ==> chunks[i] != [] && ChunkFits(chunks[i], maxWidth, measure)
  {
    chunks := [];
    var chunk := "";
    var i := 0;
    while i < |token|
      invariant 0 <= i <= |token|
      invariant ChunkState(chunks, chunk) == ChunkFold(token[..i], maxWidth, measure)
    {
      assert token[..i + 1][..i] == token[..i];
      var candidate := chunk + [token[i]];
      if measure(candidate) <= maxWidth || |chunk| == 0 {
        chunk := candidate;
      } else {
        chunks := chunks + [chunk];
        chunk := [token[i]];
      }
      i := i + 1;
    }
    assert token[..i] == token;
    if |chunk| > 0 {
      chunks := chunks + [chunk];
    }
    SplitChunksProperties(token, maxWidth, measure);
  }

  // ---------------------------------------------------------------------------
  // wrapWithPrefix

  /** The variables `wrapWithPrefix` updates: the finished lines, the prefix of the
      line being filled and that line so far. */
  datatype WrapState = WrapState(lines: seq<string>, currentPrefix: string, current: string)

  /** The later pieces of a split token: each finishes the line so far and starts a
      continuation line holding it. */
  function ContinueChunks(st: WrapState, chunks: seq<string>, continuationPrefix: string): WrapState {
    if chunks == [] then st
    else
      var before := ContinueChunks(st, chunks[..|chunks| - 1], continuationPrefix);
      WrapState(before.lines + [before.current], continuationPrefix, continuationPrefix + chunks[|chunks| - 1])
  }

  /** `chunks.forEach(...)`: the first piece goes on the current line, the others
      each start a continuation line. */
  function PlaceChunks(st: WrapState, chunks: seq<string>, continuationPrefix: string): WrapState {
    if chunks == [] then st
    else ContinueChunks(WrapState(st.lines, st.currentPrefix, st.current + chunks[0]), chunks[1..], continuationPrefix)
  }

  /** The width left for the pieces of a token too long for any line. The source
      (line 150) leaves `wrapWidth - measure(currentPrefix)`, which is too much for
      the later pieces when the token is split on the first line and the
      continuation prefix is the wider one; the intended width leaves room for
      the wider of the two prefixes. */
  datatype SplitBudget = CurrentPrefixWidth | WidestPrefixWidth

  function PieceWidth(budget: SplitBudget, currentPrefix: string, continuationPrefix: string, wrapWidth: int, measure: Measure): int {
    match budget
    case CurrentPrefixWidth => wrapWidth - measure(currentPrefix)
    case WidestPrefixWidth =>
      var a := measure(currentPrefix);
      var b := measure(continuationPrefix);
      wrapWidth - (if a >= b then a else b)
  }

  /** What `wrapWithPrefix` does with one token. */
  function WrapStep(st: WrapState, part: string, continuationPrefix: string, wrapWidth: int, measure: Measure, budget: SplitBudget): WrapState {
    var candidate := st.current + part;
    if measure(candidate) <= wrapWidth then WrapState(st.lines, st.currentPrefix, candidate)
    else Overflow(BreakLine(st, continuationPrefix), part, continuationPrefix, wrapWidth, measure, budget)
  }

  /** A token that did not fit, once the line has been broken (state `st1`): it starts the
      line without its leading white space if that fits, otherwise it is cut into pieces. */
  function Overflow(st1: WrapState, part: string, continuationPrefix: string, wrapWidth: int, measure: Measure, budget: SplitBudget): WrapState {
    if measure(st1.current + part) <= wrapWidth then
      WrapState(st1.lines, st1.currentPrefix, st1.current + TrimStart(part))
    else
      var maxWidth := PieceWidth(budget, st1.currentPrefix, continuationPrefix, wrapWidth, measure);
      PlaceChunks(st1, SplitChunks(TrimStart(part), maxWidth, measure), continuationPrefix)
  }

  /** The state after the tokens `parts`, read from the left. */
  function WrapFold(st: WrapState, parts: seq<string>, continuationPrefix: string, wrapWidth: int, measure: Measure, budget: SplitBudget): WrapState {
    if parts == [] then st
    else WrapStep(WrapFold(st, parts[..|parts| - 1], continuationPrefix, wrapWidth, measure, budget),
                  parts[|parts| - 1], continuationPrefix, wrapWidth, measure, budget)
  }

  /** The lines `wrapWithPrefix` returns once the tokens are used up. */
  function FinishLines(st: WrapState): seq<string> {
    var lines := if |st.current| > 0 then st.lines + [st.current] else st.lines;
    if |lines| > 0 then lines else [""]
  }

  /** `wrapWithPrefix(text, firstPrefix, continuationPrefix, wrapWidth)`: as the source
      is written with `CurrentPrefixWidth`, as intended with `WidestPrefixWidth`. */
  function Wrapped(text: string, firstPrefix: string, continuationPrefix: string, wrapWidth: int, measure: Measure, budget: SplitBudget): seq<string> {
    FinishLines(WrapFold(WrapState([], firstPrefix, firstPrefix), Words(text), continuationPrefix, wrapWidth, measure, budget))
  }

  // ---------------------------------------------------------------------------
  // What the wrapper guarantees

  /** `line` with its first `n` characters (its prefix) taken off. */
  function DropPrefix(line: string, n: nat): string {
    if n <= |line| then line[n..] else []
  }

  /** The text carried by wrapped lines: each line without its prefix, put together. */
  function Body(lines: seq<string>, firstPrefix: string, continuationPrefix: string): string {
    if lines == [] then []
    else
      Body(lines[..|lines| - 1], firstPrefix, continuationPrefix)
      + DropPrefix(lines[|lines| - 1], if |lines| == 1 then |firstPrefix| else |continuationPrefix|)
  }

  /** Lines that begin with the right prefix: the first with `firstPrefix`, every later one with `continuationPrefix`. */
  predicate PrefixedLines(lines: seq<string>, firstPrefix: string, continuationPrefix: string) {
    && (lines != [] ==> StartsWith(lines[0], firstPrefix))
    && (forall i :: 1 <= i < |lines| ==> StartsWith(lines[i], continuationPrefix))
  }

  /** What holds of the wrapper's variables between tokens. */
  predicate WrapInvariant(st: WrapState, firstPrefix: string, continuationPrefix: string) {
    && st.currentPrefix == (if st.lines == [] then firstPrefix else continuationPrefix)
    && StartsWith(st.current, st.currentPrefix)
    && PrefixedLines(st.lines, firstPrefix, continuationPrefix)
  }

  /** The text held by the finished lines and the line being filled. */
  function StateBody(st: WrapState, firstPrefix: string, continuationPrefix: string): string {
    Body(st.lines + [st.current], firstPrefix, continuationPrefix)
  }

  lemma BodySnoc(lines: seq<string>, x: string, firstPrefix: string, continuationPrefix: string)
    ensures Body(lines + [x], firstPrefix, continuationPrefix)
         == Body(lines, firstPrefix, continuationPrefix) + DropPrefix(x, if lines == [] then |firstPrefix| else |continuationPrefix|)
  {
    assert (lines + [x])[..|lines + [x]| - 1] == lines;
  }

  lemma DropPrefixAppend(line: string, n: nat, tail: string)
    requires n <= |line|
    ensures DropPrefix(line + tail, n) == DropPrefix(line, n) + tail
  {
  }

  /** Extending the line being filled extends the body by the same text. */
  lemma {:induction false} ExtendCurrent(st: WrapState, tail: string, firstPrefix: string, continuationPrefix: string)
    requires WrapInvariant(st, firstPrefix, continuationPrefix)
    ensures WrapInvariant(WrapState(st.lines, st.currentPrefix, st.current + tail), firstPrefix, continuationPrefix)
    ensures StateBody(WrapState(st.lines, st.currentPrefix, st.current + tail), firstPrefix, continuationPrefix)
         == StateBody(st, firstPrefix, continuationPrefix) + tail
  {
    var n := if st.lines == [] then |firstPrefix| else |continuationPrefix|;
    var body := Body(st.lines, firstPrefix, continuationPrefix);
    BodySnoc(st.lines, st.current, firstPrefix, continuationPrefix);
    BodySnoc(st.lines, st.current + tail, firstPrefix, continuationPrefix);
    DropPrefixAppend(st.current, n, tail);
    AppendAssociates(body, DropPrefix(st.current, n), tail);
    assert (st.current + tail)[..|st.currentPrefix|] == st.current[..|st.currentPrefix|];
  }

  /** Finishing the line being filled and starting a continuation line (holding `tail`). */
  lemma {:induction false} StartContinuation(st: WrapState, tail: string, firstPrefix: string, continuationPrefix: string)
    requires WrapInvariant(st, firstPrefix, continuationPrefix)
    ensures var st' := WrapState(st.lines + [st.current], continuationPrefix, continuationPrefix + tail);
      && WrapInvariant(st', firstPrefix, continuationPrefix)
      && StateBody(st', firstPrefix, continuationPrefix) == StateBody(st, firstPrefix, continuationPrefix) + tail
  {
    var lines' := st.lines + [st.current];
    BodySnoc(lines', continuationPrefix + tail, firstPrefix, continuationPrefix);
    assert (continuationPrefix + tail)[..|continuationPrefix|] == continuationPrefix;
    assert DropPrefix(continuationPrefix + tail, |continuationPrefix|) == tail;
    forall i | 1 <= i < |lines'| ensures StartsWith(lines'[i], continuationPrefix) {
      if i < |st.lines| { assert lines'[i] == st.lines[i]; }
    }
  }

  lemma {:induction false} ContinueChunksInvariant(st: WrapState, chunks: seq<string>, firstPrefix: string, continuationPrefix: string)
    requires WrapInvariant(st, firstPrefix, continuationPrefix)
    ensures var st' := ContinueChunks(st, chunks, continuationPrefix);
      && WrapInvariant(st', firstPrefix, continuationPrefix)
      && StateBody(st', firstPrefix, continuationPrefix) == StateBody(st, firstPrefix, continuationPrefix) + Flatten(chunks)
  {
    if chunks != [] {
      var init := chunks[..|chunks| - 1];
      var before := ContinueChunks(st, init, continuationPrefix);
      assert ContinueChunks(st, chunks, continuationPrefix)
          == WrapState(before.lines + [before.current], continuationPrefix, continuationPrefix + chunks[|chunks| - 1]);
      ContinueChunksInvariant(st, init, firstPrefix, continuationPrefix);
      assert Flatten(chunks) == Flatten(init) + chunks[|chunks| - 1];
      StartContinuation(before, chunks[|chunks| - 1], firstPrefix, continuationPrefix);
    }
  }

  lemma {:induction false} PlaceChunksInvariant(st: WrapState, chunks: seq<string>, firstPrefix: string, continuationPrefix: string)
    requires WrapInvariant(st, firstPrefix, continuationPrefix)
    ensures var st' := PlaceChunks(st, chunks, continuationPrefix);
      && WrapInvariant(st', firstPrefix, continuationPrefix)
      && StateBody(st', firstPrefix, continuationPrefix) == StateBody(st, firstPrefix, continuationPrefix) + Flatten(chunks)
  {
    if chunks != [] {
      var first := WrapState(st.lines, st.currentPrefix, st.current + chunks[0]);
      assert PlaceChunks(st, chunks, continuationPrefix) == ContinueChunks(first, chunks[1..], continuationPrefix);
      ExtendCurrent(st, chunks[0], firstPrefix, continuationPrefix);
      ContinueChunksInvariant(first, chunks[1..], firstPrefix, continuationPrefix);
      FlattenFirst(chunks);
      AppendAssociates(StateBody(st, firstPrefix, continuationPrefix), chunks[0], Flatten(chunks[1..]));
    }
  }

  /** The state after an overflowing token has closed the line being filled (if it holds more than its prefix). */
  function BreakLine(st: WrapState, continuationPrefix: string): WrapState {
    if |st.current| > |st.currentPrefix| then WrapState(st.lines + [st.current], continuationPrefix, continuationPrefix)
    else st
  }

  lemma BreakLineInvariant(st: WrapState, firstPrefix: string, continuationPrefix: string)
    requires WrapInvariant(st, firstPrefix, continuationPrefix)
    ensures WrapInvariant(BreakLine(st, continuationPrefix), firstPrefix, continuationPrefix)
    ensures StateBody(BreakLine(st, continuationPrefix), firstPrefix, continuationPrefix) == StateBody(st, firstPrefix, continuationPrefix)
  {
    if |st.current| > |st.currentPrefix| {
      StartContinuation(st, [], firstPrefix, continuationPrefix);
      assert continuationPrefix + [] == continuationPrefix;
      assert StateBody(st, firstPrefix, continuationPrefix) + [] == StateBody(st, firstPrefix, continuationPrefix);
    }
  }

  /** After the line break, the overflowing token keeps the invariant and the body gains
      the token without its leading white space. */
  lemma OverflowBody(st1: WrapState, part: string, firstPrefix: string, continuationPrefix: string, wrapWidth: int, measure: Measure, budget: SplitBudget)
    requires WrapInvariant(st1, firstPrefix, continuationPrefix)
    ensures var st' := Overflow(st1, part, continuationPrefix, wrapWidth, measure, budget);
      && WrapInvariant(st', firstPrefix, continuationPrefix)
      && StateBody(st', firstPrefix, continuationPrefix) == StateBody(st1, firstPrefix, continuationPrefix) + TrimStart(part)
  {
    var token := TrimStart(part);
    if measure(st1.current + part) <= wrapWidth {
      assert Overflow(st1, part, continuationPrefix, wrapWidth, measure, budget) == WrapState(st1.lines, st1.currentPrefix, st1.current + token);
      ExtendCurrent(st1, token, firstPrefix, continuationPrefix);
    } else {
      var maxWidth := PieceWidth(budget, st1.currentPrefix, continuationPrefix, wrapWidth, measure);
      var chunks := SplitChunks(token, maxWidth, measure);
      assert Overflow(st1, part, continuationPrefix, wrapWidth, measure, budget) == PlaceChunks(st1, chunks, continuationPrefix);
      SplitChunksRebuild(token, maxWidth, measure);
      PlaceChunksInvariant(st1, chunks, firstPrefix, continuationPrefix);
    }
  }

  /** One token keeps the invariant, and the body gains the token, whole or without its
      leading white space. */
  lemma WrapStepBody(st: WrapState, part: string, firstPrefix: string, continuationPrefix: string, wrapWidth: int, measure: Measure, budget: SplitBudget)
    requires WrapInvariant(st, firstPrefix, continuationPrefix)
    ensures var st' := WrapStep(st, part, continuationPrefix, wrapWidth, measure, budget);
      && WrapInvariant(st', firstPrefix, continuationPrefix)
      && (|| StateBody(st', firstPrefix, continuationPrefix) == StateBody(st, firstPrefix, continuationPrefix) + part
          || StateBody(st', firstPrefix, continuationPrefix) == StateBody(st, firstPrefix, continuationPrefix) + TrimStart(part))
  {
    if measure(st.current + part) <= wrapWidth {
      ExtendCurrent(st, part, firstPrefix, continuationPrefix);
    } else {
      BreakLineInvariant(st, firstPrefix, continuationPrefix);
      OverflowBody(BreakLine(st, continuationPrefix), part, firstPrefix, continuationPrefix, wrapWidth, measure, budget);
    }
  }

  /** One token keeps the invariant, and the body gains the token's visible characters. */
  lemma WrapStepInvariant(st: WrapState, part: string, firstPrefix: string, continuationPrefix: string, wrapWidth: int, measure: Measure, budget: SplitBudget)
    requires WrapInvariant(st, firstPrefix, continuationPrefix)
    ensures var st' := WrapStep(st, part, continuationPrefix, wrapWidth, measure, budget);
      && WrapInvariant(st', firstPrefix, continuationPrefix)
      && Visible(StateBody(st', firstPrefix, continuationPrefix)) == Visible(StateBody(st, firstPrefix, continuationPrefix)) + Visible(part)
  {
    WrapStepBody(st, part, firstPrefix, continuationPrefix, wrapWidth, measure, budget);
    var before := StateBody(st, firstPrefix, continuationPrefix);
    var after := StateBody(WrapStep(st, part, continuationPrefix, wrapWidth, measure, budget), firstPrefix, continuationPrefix);
    VisibleTrimStart(part);
    if after == before + part {
      VisibleAppend(before, part);
    } else {
      VisibleAppend(before, TrimStart(part));
    }
  }

  lemma VisibleChain(x: string, y: string, z: string, a: string, b: string, ab: string)
    requires Visible(y) == Visible(x) + Visible(a)
    requires Visible(z) == Visible(y) + Visible(b)
    requires ab == a + b
    ensures Visible(z) == Visible(x) + Visible(ab)
  {
    VisibleAppend(a, b);
    AppendAssociates(Visible(x), Visible(a), Visible(b));
  }

  /** The invariant holds after any run of tokens, and the body gains their visible characters. */
  lemma {:induction false} WrapFoldInvariant(st: WrapState, parts: seq<string>, firstPrefix: string, continuationPrefix: string, wrapWidth: int, measure: Measure, budget: SplitBudget)
    requires WrapInvariant(st, firstPrefix, continuationPrefix)
    ensures var st' := WrapFold(st, parts, continuationPrefix, wrapWidth, measure, budget);
      && WrapInvariant(st', firstPrefix, continuationPrefix)
      && Visible(StateBody(st', firstPrefix, continuationPrefix)) == Visible(StateBody(st, firstPrefix, continuationPrefix)) + Visible(Flatten(parts))
  {
    if parts == [] {
      assert Visible(Flatten(parts)) == [];
    } else {
      var init := parts[..|parts| - 1];
      var last := parts[|parts| - 1];
      var mid := WrapFold(st, init, continuationPrefix, wrapWidth, measure, budget);
      var st' := WrapFold(st, parts, continuationPrefix, wrapWidth, measure, budget);
      assert st' == WrapStep(mid, last, continuationPrefix, wrapWidth, measure, budget);
      WrapFoldInvariant(st, init, firstPrefix, continuationPrefix, wrapWidth, measure, budget);
      WrapStepInvariant(mid, last, firstPrefix, continuationPrefix, wrapWidth, measure, budget);
      assert Flatten(parts) == Flatten(init) + last;
      VisibleChain(StateBody(st, firstPrefix, continuationPrefix), StateBody(mid, firstPrefix, continuationPrefix),
                   StateBody(st', firstPrefix, continuationPrefix), Flatten(init), last, Flatten(parts));
    }
  }

  /** The finished lines carry the prefixes and the body of the final state. */
  lemma FinishLinesShape(st: WrapState, firstPrefix: string, continuationPrefix: string)
    requires WrapInvariant(st, firstPrefix, continuationPrefix)
    ensures var lines := FinishLines(st);
      && |lines| >= 1
      && PrefixedLines(lines, firstPrefix, continuationPrefix)
      && Body(lines, firstPrefix, continuationPrefix) == StateBody(st, firstPrefix, continuationPrefix)
  {
    var all := st.lines + [st.current];
    BodySnoc(st.lines, st.current, firstPrefix, continuationPrefix);
    if |st.current| == 0 && st.lines != [] {
      assert FinishLines(st) == st.lines;
      assert DropPrefix(st.current, |continuationPrefix|) == [];
    } else {
      assert FinishLines(st) == all;
      forall i | 1 <= i < |all| ensures StartsWith(all[i], continuationPrefix) {
        if i < |st.lines| { assert all[i] == st.lines[i]; }
      }
    }
  }

  /** `wrapWithPrefix` always returns at least one line; the first begins with the first
      prefix and every later one with the continuation prefix; and, prefixes aside, the
      lines hold every visible character of the text, in order (only white space is
      dropped at the line breaks). */
  lemma WrappedShape(text: string, firstPrefix: string, continuationPrefix: string, wrapWidth: int, measure: Measure, budget: SplitBudget)
    ensures var lines := Wrapped(text, firstPrefix, continuationPrefix, wrapWidth, measure, budget);
      && |lines| >= 1
      && PrefixedLines(lines, firstPrefix, continuationPrefix)
      && Visible(Body(lines, firstPrefix, continuationPrefix)) == Visible(text)
  {
    var init := WrapState([], firstPrefix, firstPrefix);
    var words := Words(text);
    assert StateBody(init, firstPrefix, continuationPrefix) == [] by {
      BodySnoc([], firstPrefix, firstPrefix, continuationPrefix);
    }
    WrapFoldInvariant(init, words, firstPrefix, continuationPrefix, wrapWidth, measure, budget);
    WordsRebuildText(text);
    var st := WrapFold(init, words, continuationPrefix, wrapWidth, measure, budget);
    FinishLinesShape(st, firstPrefix, continuationPrefix);
  }

  /** An empty text wraps to a single line holding just the first prefix
      (`[""]` when that prefix is empty too). */
  lemma WrappedEmptyText(firstPrefix: string, continuationPrefix: string, wrapWidth: int, measure: Measure, budget: SplitBudget)
    ensures Wrapped("", firstPrefix, continuationPrefix, wrapWidth, measure, budget) == [firstPrefix]
  {
    assert Words("") == [];
  }

  /** The inner `chunks.forEach` of `wrapWithPrefix`: the first piece extends the line
      being filled, each later one closes it and starts a continuation line. */
  method PlacePieces(lines: seq<string>, currentPrefix: string, current: string, chunks: seq<string>, continuationPrefix: string)
    returns (newLines: seq<string>, newPrefix: string, newCurrent: string)
    ensures WrapState(newLines, newPrefix, newCurrent) == PlaceChunks(WrapState(lines, currentPrefix, current), chunks, continuationPrefix)
  {
    newLines, newPrefix, newCurrent := lines, currentPrefix, current;
    var index := 0;
    while index < |chunks|
      invariant 0 <= index <= |chunks|
      invariant index == 0 ==> WrapState(newLines, newPrefix, newCurrent) == WrapState(lines, currentPrefix, current)
      invariant index > 0 ==>
        WrapState(newLines, newPrefix, newCurrent) == ContinueChunks(WrapState(lines, currentPrefix, current + chunks[0]), chunks[1..index], continuationPrefix)
    {
      if index == 0 {
        newCurrent := newCurrent + chunks[index];
      } else {
        assert chunks[1..index + 1][..index - 1] == chunks[1..index];
        newLines := newLines + [newCurrent];
        newPrefix := continuationPrefix;
        newCurrent := continuationPrefix + chunks[index];
      }
      index := index + 1;
    }
    if chunks != [] {
      assert chunks[1..index] == chunks[1..];
    }
  }

  /** What `wrapWithPrefix` does with a token that does not fit on the line being filled. */
  method PlaceOverflow(lines: seq<string>, currentPrefix: string, current: string, part: string,
                       continuationPrefix: string, wrapWidth: int, measure: Measure, budget: SplitBudget)
    returns (newLines: seq<string>, newPrefix: string, newCurrent: string)
    ensures WrapState(newLines, newPrefix, newCurrent) ==
      Overflow(BreakLine(WrapState(lines, currentPrefix, current), continuationPrefix), part, continuationPrefix, wrapWidth, measure, budget)
  {
    ghost var st1 := BreakLine(WrapState(lines, currentPrefix, current), continuationPrefix);
    newLines, newPrefix, newCurrent := lines, currentPrefix, current;
    if |newCurrent| > |newPrefix| {
      newLines := newLines + [newCurrent];
      newPrefix := continuationPrefix;
      newCurrent := continuationPrefix;
    }
    assert WrapState(newLines, newPrefix, newCurrent) == st1;
    if measure(newCurrent + part) <= wrapWidth {
      newCurrent := newCurrent + TrimStart(part);
      assert WrapState(newLines, newPrefix, newCurrent) == Overflow(st1, part, continuationPrefix, wrapWidth, measure, budget);
    } else {
      var maxWidth := PieceWidth(budget, newPrefix, continuationPrefix, wrapWidth, measure);
      var chunks := SplitLongToken(TrimStart(part), maxWidth, measure);
      assert Overflow(st1, part, continuationPrefix, wrapWidth, measure, budget) == PlaceChunks(st1, chunks, continuationPrefix);
      newLines, newPrefix, newCurrent := PlacePieces(newLines, newPrefix, newCurrent, chunks, continuationPrefix);
    }
  }

  /** The body of `wrapWithPrefix`'s loop over tokens: what happens to the lines with one token. */
  method WrapToken(lines: seq<string>, currentPrefix: string, current: string, part: string,
                   continuationPrefix: string, wrapWidth: int, measure: Measure, budget: SplitBudget)
    returns (newLines: seq<string>, newPrefix: string, newCurrent: string)
    ensures WrapState(newLines, newPrefix, newCurrent) == WrapStep(WrapState(lines, currentPrefix, current), part, continuationPrefix, wrapWidth, measure, budget)
  {
    var candidate := current + part;
    if measure(candidate) <= wrapWidth {
      newLines, newPrefix, newCurrent := lines, currentPrefix, candidate;
    } else {
      newLines, newPrefix, newCurrent := PlaceOverflow(lines, currentPrefix, current, part, continuationPrefix, wrapWidth, measure, budget);
    }
  }

  /** `wrapWithPrefix`, with the source's loop over the tokens (the source itself is
      the `CurrentPrefixWidth` case). */
  method WrapWithPrefix(text: string, firstPrefix: string, continuationPrefix: string, wrapWidth: int, measure: Measure, budget: SplitBudget)
    returns (wrappedLines: seq<string>)
    ensures wrappedLines == Wrapped(text, firstPrefix, continuationPrefix, wrapWidth, measure, budget)
    ensures |wrappedLines| >= 1 && PrefixedLines(wrappedLines, firstPrefix, continuationPrefix)
  {
    var words := Words(text);
    ghost var init := WrapState([], firstPrefix, firstPrefix);
    wrappedLines := [];
    var currentPrefix := firstPrefix;
    var current := firstPrefix;
    var w := 0;
    while w < |words|
      invariant 0 <= w <= |words|
      invariant WrapState(wrappedLines, currentPrefix, current) == WrapFold(init, words[..w], continuationPrefix, wrapWidth, measure, budget)
    {
      assert words[..w + 1][..w] == words[..w];
      wrappedLines, currentPrefix, current := WrapToken(wrappedLines, currentPrefix, current, words[w], continuationPrefix, wrapWidth, measure, budget);
      w := w + 1;
    }
    assert words[..w] == words;
    if |current| > 0 {
      wrappedLines := wrappedLines + [current];
    }
    if |wrappedLines| == 0 {
      wrappedLines := [""];
    }
    WrappedShape(text, firstPrefix, continuationPrefix, wrapWidth, measure, budget);
  }
}
