/** Line assembly and pagination (`blocksToLines` and `paginate`, authoring_preview.js
    lines 302-317 and 337-347): every block is wrapped into display lines, and the
    lines are cut into pages of a fixed height. */
module Layout {
  import opened JsText
  import opened Wrapper
  import opened Blocks
  import opened WrapWidth

  /** A display line: the class of its block, its text and whether inline Markdown applies. */
  datatype Line = Line(kind: BlockKind, text: string, inline: bool)

  const BlankLine: Line := Line(Blank, "", false)

  // ---------------------------------------------------------------------------
  // blocksToLines

  /** The lines one block becomes: a blank block is one blank line, any other block
      is wrapped with its two prefixes, each wrapped line keeping the block's class. */
  function BlockLines(b: Block, wrapWidth: int, measure: Measure, budget: SplitBudget): seq<Line> {
    if b.kind == Blank then [BlankLine]
    else
      var w := Wrapped(b.text, b.firstPrefix, b.continuationPrefix, wrapWidth, measure, budget);
      seq(|w|, i requires 0 <= i < |w| => Line(b.kind, w[i], b.inline))
  }

  /** The lines of the blocks, in order. */
  function LinesFold(blocks: seq<Block>, wrapWidth: int, measure: Measure, budget: SplitBudget): seq<Line> {
    if blocks == [] then []
    else LinesFold(blocks[..|blocks| - 1], wrapWidth, measure, budget) + BlockLines(blocks[|blocks| - 1], wrapWidth, measure, budget)
  }

  /** What `blocksToLines` returns: the lines of the blocks, or one blank line when there are none. */
  function LayoutLines(blocks: seq<Block>, wrapWidth: int, measure: Measure, budget: SplitBudget): seq<Line> {
    var lines := LinesFold(blocks, wrapWidth, measure, budget);
    if lines == [] then [BlankLine] else lines
  }

  /** The body of `blocksToLines`'s loop: the lines of one block pushed after the others. */
  method PushBlockLines(lines: seq<Line>, block: Block, wrapWidth: int, measure: Measure, budget: SplitBudget) returns (newLines: seq<Line>)
    ensures newLines == lines + BlockLines(block, wrapWidth, measure, budget)
  {
    if block.kind == Blank {
      newLines := lines + [BlankLine];
    } else {
      var wrapped := WrapWithPrefix(block.text, block.firstPrefix, block.continuationPrefix, wrapWidth, measure, budget);
      newLines := lines;
      var j := 0;
      while j < |wrapped|
        invariant 0 <= j <= |wrapped|
        invariant newLines == lines + seq(j, k requires 0 <= k < j => Line(block.kind, wrapped[k], block.inline))
      {
        newLines := newLines + [Line(block.kind, wrapped[j], block.inline)];
        j := j + 1;
      }
    }
  }

  /** `blocksToLines(blocks, wrapWidth)`, with its loop over the blocks. */
  method BlocksToLines(blocks: seq<Block>, wrapWidth: int, measure: Measure, budget: SplitBudget) returns (lines: seq<Line>)
    ensures lines == LayoutLines(blocks, wrapWidth, measure, budget)
  {
    lines := [];
    var i := 0;
    while i < |blocks|
      invariant 0 <= i <= |blocks|
      invariant lines == LinesFold(blocks[..i], wrapWidth, measure, budget)
    {
      assert blocks[..i + 1][..i] == blocks[..i];
      lines := PushBlockLines(lines, blocks[i], wrapWidth, measure, budget);
      i := i + 1;
    }
    assert blocks[..i] == blocks;
    if |lines| == 0 {
      lines := [BlankLine];
    }
  }

  /** A blank block becomes exactly one blank line. Any other block becomes at least
      one line, all of its class: the first begins with the block's first prefix,
      the later ones with its continuation prefix. */
  lemma BlockLinesShape(b: Block, wrapWidth: int, measure: Measure, budget: SplitBudget)
    ensures b.kind == Blank ==> BlockLines(b, wrapWidth, measure, budget) == [BlankLine]
    ensures b.kind != Blank ==>
      var ls := BlockLines(b, wrapWidth, measure, budget);
      && |ls| >= 1
      && (forall i :: 0 <= i < |ls| ==> ls[i].kind == b.kind && ls[i].inline == b.inline)
      && StartsWith(ls[0].text, b.firstPrefix)
      && (forall i :: 1 <= i < |ls| ==> StartsWith(ls[i].text, b.continuationPrefix))
  {
    if b.kind != Blank {
      WrappedShape(b.text, b.firstPrefix, b.continuationPrefix, wrapWidth, measure, budget);
    }
  }

  /** As `blocksToLines` is written: with a width that adds up over concatenation,
      the first line of a block fits the wrap width and a later line may exceed it
      by as much as the continuation prefix is wider than the first prefix, unless
      it is its prefix followed by at most one character. */
  lemma BlockLinesOverflowBound(b: Block, wrapWidth: int, measure: Measure)
    requires Additive(measure) && NonNegative(measure)
    ensures var ls := BlockLines(b, wrapWidth, measure, CurrentPrefixWidth);
      var excess := if measure(b.continuationPrefix) > measure(b.firstPrefix) then measure(b.continuationPrefix) - measure(b.firstPrefix) else 0;
      forall i :: 0 <= i < |ls| ==>
        var prefix := if i == 0 then b.firstPrefix else b.continuationPrefix;
        || measure(ls[i].text) <= wrapWidth + (if i == 0 then 0 else excess)
        || (b.kind != Blank && StartsWith(ls[i].text, prefix) && |ls[i].text| <= |prefix| + 1)
        || (b.kind == Blank && ls[i] == BlankLine)
  {
    if b.kind != Blank {
      WrappedShape(b.text, b.firstPrefix, b.continuationPrefix, wrapWidth, measure, CurrentPrefixWidth);
      WrappedOverflowBound(b.text, b.firstPrefix, b.continuationPrefix, wrapWidth, measure);
    }
  }

  /** As `blocksToLines` is written, a paragraph holding one long word overflows:
      one unit per character and a wrap width of 2 lay `abcd` out as `ab` and
      `  cd`, four units wide. */
  lemma BlockLinesOverflowExample()
    ensures var ls := BlockLines(Block(Paragraph, "abcd", true, "", "  "), 2, CharCount, CurrentPrefixWidth);
      && |ls| == 2 && ls[0].text == "ab" && ls[1].text == "  cd"
      && CharCount(ls[1].text) > 2
  {
    WrapOverflowExample();
  }

  /** With the corrected piece width of the wrapper, every line of a block fits the
      wrap width, or is its prefix followed by at most one character. */
  lemma BlockLinesWithinBudget(b: Block, wrapWidth: int, measure: Measure)
    requires Additive(measure) && NonNegative(measure)
    ensures var ls := BlockLines(b, wrapWidth, measure, WidestPrefixWidth);
      forall i :: 0 <= i < |ls| ==>
        var prefix := if i == 0 then b.firstPrefix else b.continuationPrefix;
        || measure(ls[i].text) <= wrapWidth
        || (b.kind != Blank && StartsWith(ls[i].text, prefix) && |ls[i].text| <= |prefix| + 1)
        || (b.kind == Blank && ls[i] == BlankLine)
  {
    if b.kind != Blank {
      WrappedWithinBudget(b.text, b.firstPrefix, b.continuationPrefix, wrapWidth, measure);
    }
  }

  /** Every block yields at least one line, so there are at least as many lines as blocks. */
  lemma {:induction false} LinesFoldLength(blocks: seq<Block>, wrapWidth: int, measure: Measure, budget: SplitBudget)
    ensures |LinesFold(blocks, wrapWidth, measure, budget)| >= |blocks|
  {
    if blocks != [] {
      LinesFoldLength(blocks[..|blocks| - 1], wrapWidth, measure, budget);
      BlockLinesShape(blocks[|blocks| - 1], wrapWidth, measure, budget);
    }
  }

  /** `blocksToLines` never returns an empty list, and returns at least one line per block. */
  lemma LayoutLinesNonEmpty(blocks: seq<Block>, wrapWidth: int, measure: Measure, budget: SplitBudget)
    ensures |LayoutLines(blocks, wrapWidth, measure, budget)| >= 1
    ensures |LayoutLines(blocks, wrapWidth, measure, budget)| >= |blocks|
  {
    LinesFoldLength(blocks, wrapWidth, measure, budget);
  }

  // ---------------------------------------------------------------------------
  // paginate

  /** The lines cut into consecutive runs of `n`, the last run holding what is left. */
  function Chunks(lines: seq<Line>, n: nat): seq<seq<Line>>
    requires n > 0
    decreases |lines|
  {
    if lines == [] then []
    else if |lines| <= n then [lines]
    else [lines[..n]] + Chunks(lines[n..], n)
  }

  /** The pages `paginate` returns for the given lines: their chunks, or one page
      holding a blank line when there are none. */
  function Pages(lines: seq<Line>, maxLinesPerPage: nat): seq<seq<Line>>
    requires maxLinesPerPage > 0
  {
    var chunks := Chunks(lines, maxLinesPerPage);
    if chunks == [] then [[BlankLine]] else chunks
  }

  /** The slicing loop of `paginate`: `lines.slice(i, i + maxLinesPerPage)` for `i` stepping by the page height. */
  method ChunkLines(lines: seq<Line>, maxLinesPerPage: nat) returns (pagesOut: seq<seq<Line>>)
    requires maxLinesPerPage > 0
    ensures pagesOut == Pages(lines, maxLinesPerPage)
  {
    pagesOut := [];
    var i := 0;
    while i < |lines|
      invariant 0 <= i <= |lines| + maxLinesPerPage
      invariant i < |lines| ==> pagesOut + Chunks(lines[i..], maxLinesPerPage) == Chunks(lines, maxLinesPerPage)
      invariant i >= |lines| ==> pagesOut == Chunks(lines, maxLinesPerPage)
      decreases |lines| + maxLinesPerPage - i
    {
      var end := if i + maxLinesPerPage <= |lines| then i + maxLinesPerPage else |lines|;
      ghost var rest := lines[i..];
      if |rest| <= maxLinesPerPage {
        assert lines[i..end] == rest;
        assert Chunks(rest, maxLinesPerPage) == [rest];
      } else {
        assert lines[i..end] == rest[..maxLinesPerPage];
        assert lines[end..] == rest[maxLinesPerPage..];
      }
      pagesOut := pagesOut + [lines[i..end]];
      i := i + maxLinesPerPage;
    }
    if |lines| == 0 {
      assert pagesOut == [];
    }
    if |pagesOut| == 0 {
      pagesOut := [[BlankLine]];
    }
  }

  /** `paginate(normalized, wrapWidth, maxLinesPerPage)`: parse the blocks, lay out their lines, cut them into pages. */
  method Paginate(normalized: string, wrapWidth: int, maxLinesPerPage: nat, measure: Measure, budget: SplitBudget)
    returns (pagesOut: seq<seq<Line>>)
    requires maxLinesPerPage > 0
    ensures pagesOut == Pages(LayoutLines(ParsedBlocks(normalized), wrapWidth, measure, budget), maxLinesPerPage)
  {
    var blocks := ParseBlocks(normalized);
    var lines := BlocksToLines(blocks, wrapWidth, measure, budget);
    pagesOut := ChunkLines(lines, maxLinesPerPage);
  }

  /** The chunks concatenate back to the lines. */
  lemma {:induction false} ChunksFlatten(lines: seq<Line>, n: nat)
    requires n > 0
    ensures Flatten(Chunks(lines, n)) == lines
    decreases |lines|
  {
    var cs := Chunks(lines, n);
    if lines == [] {
    } else if |lines| <= n {
      FlattenSingle(lines);
    } else {
      ChunksFlatten(lines[n..], n);
      assert cs[0] == lines[..n] && cs[1..] == Chunks(lines[n..], n);
      FlattenFirst(cs);
      assert lines[..n] + lines[n..] == lines;
    }
  }

  /** Each chunk holds between one and `n` lines, every one but the last exactly `n`,
      and there are `ceil(|lines| / n)` of them: just enough to hold every line. */
  lemma {:induction false} ChunksSizes(lines: seq<Line>, n: nat)
    requires n > 0
    ensures var cs := Chunks(lines, n);
      && (forall i :: 0 <= i < |cs| ==> 1 <= |cs[i]| <= n)
      && (forall i :: 0 <= i < |cs| - 1 ==> |cs[i]| == n)
      && |lines| <= |cs| * n < |lines| + n
    decreases |lines|
  {
    var cs := Chunks(lines, n);
    if lines == [] {
    } else if |lines| <= n {
    } else {
      var rest := Chunks(lines[n..], n);
      ChunksSizes(lines[n..], n);
      assert cs == [lines[..n]] + rest;
      assert forall i :: 1 <= i < |cs| ==> cs[i] == rest[i - 1];
      assert |cs| * n == |rest| * n + n;
    }
  }

  /** `paginate` returns pages of 1 to `maxLinesPerPage` lines, all full but the last,
      whose concatenation is exactly the list of wrapped lines. */
  lemma PaginateShape(normalized: string, wrapWidth: int, maxLinesPerPage: nat, measure: Measure, budget: SplitBudget)
    requires maxLinesPerPage > 0
    ensures var lines := LayoutLines(ParsedBlocks(normalized), wrapWidth, measure, budget);
      var pages := Pages(lines, maxLinesPerPage);
      && |pages| >= 1
      && Flatten(pages) == lines
      && (forall i :: 0 <= i < |pages| ==> 1 <= |pages[i]| <= maxLinesPerPage)
      && (forall i :: 0 <= i < |pages| - 1 ==> |pages[i]| == maxLinesPerPage)
  {
    var lines := LayoutLines(ParsedBlocks(normalized), wrapWidth, measure, budget);
    LayoutLinesNonEmpty(ParsedBlocks(normalized), wrapWidth, measure, budget);
    ChunksFlatten(lines, maxLinesPerPage);
    ChunksSizes(lines, maxLinesPerPage);
  }
}
