/** The block classifier (`parseBlocks`, authoring_preview.js lines 206-300): each
    line of the normalised text becomes at most one block, by the first rule of a
    fixed priority list that recognises it, and a line opening with three
    backticks toggles a code fence instead. */
module Blocks {
  import opened JsText
  import opened Directives

  /** The block classes: `code`, `table`, `blank`, `heading-N`, `hr`, `quote`, `list`, `paragraph`. */
  datatype BlockKind = Code | Table | Blank | Heading(level: nat) | Rule | Quote | ListItem | Paragraph

  datatype Block = Block(kind: BlockKind, text: string, inline: bool, firstPrefix: string, continuationPrefix: string)

  /** The text of a horizontal rule: thirty U+2500 box-drawing characters. */
  const RuleText: string := "──────────────────────────────"

  function CodeBlock(raw: string): Block { Block(Code, raw, false, "", "") }

  const BlankBlock: Block := Block(Blank, "", false, "", "")

  function Min(a: int, b: int): int { if a <= b then a else b }

  // ---------------------------------------------------------------------------
  // Small scanners

  /** Number of leading copies of `c` in `s`. */
  function CountLeading(s: string, c: char): (n: nat)
    ensures n <= |s|
    ensures forall i :: 0 <= i < n ==> s[i] == c
    ensures n < |s| ==> s[n] != c
  {
    if s == [] || s[0] != c then 0 else 1 + CountLeading(s[1..], c)
  }

  /** Number of leading decimal digits in `s`. */
  function LeadingDigits(s: string): (n: nat)
    ensures n <= |s|
    ensures AllDigits(s[..n])
    ensures n < |s| ==> !IsDigit(s[n])
  {
    if s == [] || !IsDigit(s[0]) then 0 else 1 + LeadingDigits(s[1..])
  }

  /** `\s+(.*)$` on `s`: the greedy white-space run must be non-empty, and the
      text after it must hold no line terminator. Giving characters of the run back
      cannot help, since they would only put more of the run in front of the same
      remainder. */
  function AfterSpaceRun(s: string): (r: Option<string>)
    ensures r.Some? ==>
      && |r.value| < |s| && EndsWith(s, r.value)
      && AllSpace(s[..|s| - |r.value|])
      && NoLineTerminator(r.value) && (r.value == [] || !IsSpace(r.value[0]))
    ensures r.None? ==> s == [] || !IsSpace(s[0]) || !NoLineTerminator(TrimStart(s))
  {
    if s == [] || !IsSpace(s[0]) then None
    else
      var rest := TrimStart(s);
      if NoLineTerminator(rest) then Some(rest) else None
  }

  /** `t` is the end of `s`. */
  predicate EndsWith(s: string, t: string) {
    |t| <= |s| && s[|s| - |t|..] == t
  }

  lemma EndsWithTrans(s: string, t: string, u: string)
    requires EndsWith(s, t) && EndsWith(t, u)
    ensures EndsWith(s, u)
  {
    assert s[|s| - |u|..] == s[|s| - |t|..][|t| - |u|..];
  }

  lemma DropIsEnd(s: string, k: nat)
    requires k <= |s|
    ensures EndsWith(s, s[k..])
  {
  }

  predicate IsListMarker(c: char) { c == '-' || c == '*' || c == '+' }

  // ---------------------------------------------------------------------------
  // The line rules, in the order `parseBlocks` tries them

  /** `^```` */
  predicate IsFence(raw: string) { StartsWith(raw, "```") }

  /** `^([#]{1,6})\s+(.*)$`: the number of `#` and the heading text. With more than
      six `#` no shorter count is followed by white space, so the line is no heading. */
  function MatchHeading(raw: string): (r: Option<(nat, string)>)
    ensures r.Some? ==> 1 <= r.value.0 <= 6 && r.value.0 == CountLeading(raw, '#')
  {
    var h := CountLeading(raw, '#');
    if h < 1 || h > 6 then None
    else match AfterSpaceRun(raw[h..])
      case None => None
      case Some(text) => Some((h, text))
  }

  /** `^(\*\*\*+|---+|___+)\s*$`: three or more of one of `*`, `-`, `_`, then only white space. */
  predicate IsRule(raw: string) {
    |raw| > 0 && (raw[0] == '*' || raw[0] == '-' || raw[0] == '_')
    && CountLeading(raw, raw[0]) >= 3 && AllSpace(raw[CountLeading(raw, raw[0])..])
  }

  /** `^\s*>\s?(.*)$`: `\s?` takes one white-space character after `>` when there is
      one; giving it back cannot rescue a remainder holding a line terminator. */
  function MatchQuote(raw: string): (r: Option<string>)
    ensures r.Some? ==> NoLineTerminator(r.value) && |r.value| < |raw| && EndsWith(raw, r.value)
  {
    var s := TrimStart(raw);
    if s == [] || s[0] != '>' then None
    else
      var text := if |s| > 1 && IsSpace(s[1]) then s[2..] else s[1..];
      if NoLineTerminator(text) then
        assert EndsWith(raw, text) by {
          DropIsEnd(raw, LeadingSpace(raw));
          DropIsEnd(s, |s| - |text|);
          EndsWithTrans(raw, s, text);
        }
        Some(text)
      else None
  }

  /** `^\s*[-*+]\s+\[( |x|X)\]\s+(.*)$`: whether the box is ticked, and the item text. */
  function MatchTask(raw: string): (r: Option<(bool, string)>)
    ensures r.Some? ==> NoLineTerminator(r.value.1) && |r.value.1| < |raw| && EndsWith(raw, r.value.1)
  {
    var s := TrimStart(raw);
    if s == [] || !IsListMarker(s[0]) || s[1..] == [] || !IsSpace(s[1]) then None
    else
      var u := TrimStart(s[1..]);
      if |u| < 3 || u[0] != '[' || !(u[1] == ' ' || u[1] == 'x' || u[1] == 'X') || u[2] != ']' then None
      else match AfterSpaceRun(u[3..])
        case None => None
        case Some(text) =>
          assert EndsWith(raw, text) by {
            DropIsEnd(raw, LeadingSpace(raw));
            DropIsEnd(s, 1);
            EndsWithTrans(raw, s, s[1..]);
            DropIsEnd(s[1..], LeadingSpace(s[1..]));
            EndsWithTrans(raw, s[1..], u);
            DropIsEnd(u, 3);
            EndsWithTrans(raw, u, u[3..]);
            EndsWithTrans(raw, u[3..], text);
          }
          Some((u[1] != ' ', text))
  }

  /** `^\s*(\d+)\.\s+(.*)$`: the item number as written, and the item text. */
  function MatchOrdered(raw: string): (r: Option<(string, string)>)
    ensures r.Some? ==>
      && r.value.0 != [] && AllDigits(r.value.0) && NoLineTerminator(r.value.1)
      && |r.value.1| < |raw| && EndsWith(raw, r.value.1)
  {
    var s := TrimStart(raw);
    var d := LeadingDigits(s);
    if d == 0 || d == |s| || s[d] != '.' then None
    else match AfterSpaceRun(s[d + 1..])
      case None => None
      case Some(text) =>
        assert EndsWith(raw, text) by {
          DropIsEnd(raw, LeadingSpace(raw));
          DropIsEnd(s, d + 1);
          EndsWithTrans(raw, s, s[d + 1..]);
          EndsWithTrans(raw, s[d + 1..], text);
        }
        Some((s[..d], text))
  }

  /** `^\s*[-*+]\s+(.*)$` */
  function MatchBullet(raw: string): (r: Option<string>)
    ensures r.Some? ==> NoLineTerminator(r.value) && |r.value| < |raw| && EndsWith(raw, r.value)
  {
    var s := TrimStart(raw);
    if s == [] || !IsListMarker(s[0]) then None
    else match AfterSpaceRun(s[1..])
      case None => None
      case Some(text) =>
        assert EndsWith(raw, text) by {
          DropIsEnd(raw, LeadingSpace(raw));
          DropIsEnd(s, 1);
          EndsWithTrans(raw, s, s[1..]);
          EndsWithTrans(raw, s[1..], text);
        }
        Some(text)
  }

  /** `^\s*\|.*\|\s*$`: the first character that is not white space is a bar, so is
      the last one (a different one), and no line terminator lies between them. */
  predicate IsTableRow(raw: string) {
    var w := LeadingSpace(raw);
    var e := |raw| - TrailingSpace(raw);
    w + 2 <= e && raw[w] == '|' && raw[e - 1] == '|' && NoLineTerminator(raw[w + 1..e - 1])
  }

  /** The trimmed cells that are not empty. */
  function NonEmptyCells(cells: seq<string>): (r: seq<string>)
    ensures forall i :: 0 <= i < |r| ==> r[i] != [] && Trimmed(r[i])
    ensures |r| <= |cells|
  {
    if cells == [] then []
    else
      var rest := NonEmptyCells(cells[1..]);
      var cell := Trim(cells[0]);
      assert Trimmed(cell) by { TrimIsTrimmed(cells[0]); }
      if cell == [] then rest else [cell] + rest
  }

  /** `split("|").slice(1, -1)`, trimmed, empty cells dropped, joined with ` | `. */
  function TableText(raw: string): string {
    var parts := Split(raw, '|');
    Join(NonEmptyCells(if |parts| >= 2 then parts[1..|parts| - 1] else []), " | ")
  }

  /** The label of a legacy `@event` line. */
  function LegacyEventLabel(e: LegacyEvent): string {
    "EVENT " + e.date + " " + (if e.time == "" then DefaultTime else e.time) + " " + Trim(e.title)
    + (if e.location != "" then " @ " + Trim(e.location) else "")
  }

  /** The label of a legacy `@contact` line: the name, then the phone and e-mail when not blank. */
  function LegacyContactLabel(c: LegacyContact): string {
    var phone := Trim(c.phone);
    var email := Trim(c.email);
    "CONTACT " + Join([Trim(c.name)] + (if phone != "" then [phone] else []) + (if email != "" then [email] else []), " | ")
  }

  /** The block a line outside a code fence becomes, once directive lines are set
      aside: the legacy `@event` and `@contact` lines first, then the Markdown rules. */
  function ClassifyLine(raw: string): Block {
    if MatchLegacyEvent(raw).Some? then
      Block(Table, LegacyEventLabel(MatchLegacyEvent(raw).value), true, "", "  ")
    else if MatchLegacyContact(raw).Some? then
      Block(Table, LegacyContactLabel(MatchLegacyContact(raw).value), true, "", "  ")
    else MarkdownBlock(raw)
  }

  /** Blank lines, headings and rules, then the item rules. */
  function MarkdownBlock(raw: string): (b: Block)
    ensures b.kind.Heading? ==> MatchHeading(raw).Some? && b.kind.level == Min(3, MatchHeading(raw).value.0)
    ensures b == BlankBlock <==> AllSpace(raw)
  {
    if AllSpace(raw) then BlankBlock
    else if MatchHeading(raw).Some? then
      var h := MatchHeading(raw).value;
      Block(Heading(Min(3, h.0)), h.1, true, "", "  ")
    else if IsRule(raw) then Block(Rule, RuleText, false, "", "")
    else ItemBlock(raw)
  }

  /** Quotes, task items, ordered items and bullets, then table rows, and the
      paragraph holding the raw line when no rule applies. */
  function ItemBlock(raw: string): (b: Block)
    ensures b.kind == Quote || b.kind == ListItem || b.kind == Table || b.kind == Paragraph
    ensures b.kind == Paragraph ==> b.text == raw
  {
    if MatchQuote(raw).Some? then Block(Quote, MatchQuote(raw).value, true, "│ ", "│ ")
    else if MatchTask(raw).Some? then
      var t := MatchTask(raw).value;
      Block(ListItem, t.1, true, if t.0 then "[x] " else "[ ] ", "    ")
    else if MatchOrdered(raw).Some? then
      var o := MatchOrdered(raw).value;
      Block(ListItem, o.1, true, o.0 + ". ", "   ")
    else if MatchBullet(raw).Some? then Block(ListItem, MatchBullet(raw).value, true, "• ", "  ")
    else if IsTableRow(raw) then Block(Table, TableText(raw), true, "", "  ")
    else Block(Paragraph, raw, true, "", "  ")
  }

  // ---------------------------------------------------------------------------
  // The state machine

  /** What one line adds to the blocks, given whether a code fence is open before it:
      nothing for a fence line or a directive, the untrimmed line as code inside a
      fence, and the classified block otherwise. */
  function LineBlocks(inCodeFence: bool, raw: string): seq<Block> {
    if IsFence(raw) then []
    else if inCodeFence then [CodeBlock(raw)]
    else if IsDirective(Trim(raw)) then []
    else [ClassifyLine(raw)]
  }

  datatype ParseState = ParseState(inCodeFence: bool, blocks: seq<Block>)

  /** What a line adds, given whether a fence is open before it (`LineBlocks` for
      `parseBlocks`; the fold below is stated for any such rule). */
  type LineRule = (bool, string) -> seq<Block>

  /** One line: a fence line flips the fence, and the rule's blocks are appended. */
  function LineStep(st: ParseState, raw: string, rule: LineRule): ParseState {
    ParseState(if IsFence(raw) then !st.inCodeFence else st.inCodeFence, st.blocks + rule(st.inCodeFence, raw))
  }

  /** The state after the given lines, starting outside a fence with no blocks. */
  function ParseFold(lines: seq<string>, rule: LineRule): ParseState {
    if lines == [] then ParseState(false, [])
    else LineStep(ParseFold(lines[..|lines| - 1], rule), lines[|lines| - 1], rule)
  }

  function ParsedBlocks(normalizedText: string): seq<Block> {
    ParseFold(Lines(normalizedText), LineBlocks).blocks
  }

  /** `parseBlocks(normalizedText)`, with its `inCodeFence` flag and its loop over the lines. */
  method ParseBlocks(normalizedText: string) returns (blocks: seq<Block>)
    ensures blocks == ParsedBlocks(normalizedText)
    ensures |blocks| <= |Lines(normalizedText)|
  {
    var lines := Lines(normalizedText);
    blocks := [];
    var inCodeFence := false;
    var i := 0;
    while i < |lines|
      invariant 0 <= i <= |lines|
      invariant ParseState(inCodeFence, blocks) == ParseFold(lines[..i], LineBlocks)
      invariant |blocks| <= i
    {
      var rawLine := lines[i];
      assert lines[..i + 1][..i] == lines[..i];
      if IsFence(rawLine) {
        inCodeFence := !inCodeFence;
      } else if inCodeFence {
        blocks := blocks + [CodeBlock(rawLine)];
      } else if !IsDirective(Trim(rawLine)) {
        blocks := blocks + [ClassifyLine(rawLine)];
      }
      i := i + 1;
    }
    assert lines[..i] == lines;
  }

  // ---------------------------------------------------------------------------
  // Properties

  lemma TrimIsTrimmed(s: string)
    ensures Trimmed(Trim(s))
  {
    var t := TrimStart(s);
    if Trim(s) != [] {
      assert Trim(s)[0] == t[0];
    }
  }

  /** The number of fence lines among `lines`, counted from the front. */
  function FenceCount(lines: seq<string>): nat {
    if lines == [] then 0 else (if IsFence(lines[0]) then 1 else 0) + FenceCount(lines[1..])
  }

  lemma {:induction false} FenceCountSnoc(lines: seq<string>, x: string)
    ensures FenceCount(lines + [x]) == FenceCount(lines) + (if IsFence(x) then 1 else 0)
  {
    if lines != [] {
      assert (lines + [x])[1..] == lines[1..] + [x];
      FenceCountSnoc(lines[1..], x);
    }
  }

  /** What each line contributes under `rule`, decided by the parity of the fence lines before it. */
  function Contributions(lines: seq<string>, rule: LineRule): seq<seq<Block>> {
    seq(|lines|, k requires 0 <= k < |lines| => rule(FenceCount(lines[..k]) % 2 == 1, lines[k]))
  }

  lemma ContributionsSnoc(init: seq<string>, x: string, lines: seq<string>, rule: LineRule)
    requires lines == init + [x]
    ensures Contributions(lines, rule) == Contributions(init, rule) + [rule(FenceCount(init) % 2 == 1, x)]
  {
    assert lines[..|init|] == init;
    forall k | 0 <= k < |init| ensures lines[..k] == init[..k] {
    }
  }

  /** One step of the state machine, stated on the fence count and the contributions so far. */
  lemma StepCharacterised(st: ParseState, x: string, c: seq<seq<Block>>, n: nat, rule: LineRule)
    requires st.inCodeFence <==> n % 2 == 1
    requires st.blocks == Flatten(c)
    ensures LineStep(st, x, rule).inCodeFence <==> (n + (if IsFence(x) then 1 else 0)) % 2 == 1
    ensures LineStep(st, x, rule).blocks == Flatten(c + [rule(n % 2 == 1, x)])
  {
    var last := rule(n % 2 == 1, x);
    FlattenAppend(c, [last]);
    FlattenSingle(last);
  }

  /** The fold is the line-by-line concatenation of the contributions, and the
      fence is open after it exactly when it has seen an odd number of fence lines.
      For `parseBlocks` (see `FenceContribution`): a fence line adds nothing and
      flips the fence, a line inside an open fence is a code block holding the raw
      line, and every other line adds its classified block unless it is a directive. */
  lemma {:induction false} ParseFoldCharacterised(lines: seq<string>, rule: LineRule)
    ensures ParseFold(lines, rule).inCodeFence <==> FenceCount(lines) % 2 == 1
    ensures ParseFold(lines, rule).blocks == Flatten(Contributions(lines, rule))
  {
    if lines != [] {
      var init := lines[..|lines| - 1];
      var x := lines[|lines| - 1];
      assert lines == init + [x];
      ParseFoldCharacterised(init, rule);
      FenceCountSnoc(init, x);
      ContributionsSnoc(init, x, lines, rule);
      StepCharacterised(ParseFold(init, rule), x, Contributions(init, rule), FenceCount(init), rule);
    }
  }

  lemma FlattenSingle<T>(s: seq<T>)
    ensures Flatten([s]) == s
  {
    assert Flatten([s]) == s + Flatten([s][1..]);
  }

  /** A line inside an open fence becomes one code block with the line exactly as
      written, white space included; a fence line itself adds no block. */
  lemma FenceContribution(lines: seq<string>, k: nat)
    requires k < |lines|
    ensures IsFence(lines[k]) ==> Contributions(lines, LineBlocks)[k] == []
    ensures !IsFence(lines[k]) && FenceCount(lines[..k]) % 2 == 1 ==>
      Contributions(lines, LineBlocks)[k] == [Block(Code, lines[k], false, "", "")]
  {
  }

  /** Outside a fence, a line is dropped exactly when its trimmed form is a directive. */
  lemma DirectiveLinesDropped(raw: string)
    ensures LineBlocks(false, raw) == [] <==> IsFence(raw) || IsDirective(Trim(raw))
  {
  }

  /** The classifier never makes a code block: code blocks come only from fences. */
  lemma ClassifyNeverCode(raw: string)
    ensures ClassifyLine(raw).kind != Code
  {
  }

  /** A heading block's level is the number of `#` that open the line, capped at 3,
      and only one to six `#` make a heading. */
  lemma HeadingLevel(raw: string)
    requires ClassifyLine(raw).kind.Heading?
    ensures 1 <= CountLeading(raw, '#') <= 6
    ensures ClassifyLine(raw).kind.level == Min(3, CountLeading(raw, '#'))
  {
    assert ClassifyLine(raw) == MarkdownBlock(raw);
  }

  /** A line is a blank block exactly when it is all white space. */
  lemma BlankIffAllSpace(raw: string)
    ensures ClassifyLine(raw) == BlankBlock <==> AllSpace(raw)
  {
    if AllSpace(raw) {
      LegacyLinesStartWithAt(raw);
    }
  }

  /** Both legacy forms open with `@`. */
  lemma LegacyLinesStartWithAt(raw: string)
    ensures MatchLegacyEvent(raw).Some? || MatchLegacyContact(raw).Some? ==> |raw| > 0 && raw[0] == '@'
  {
    if |raw| == 0 || raw[0] != '@' {
      assert !StartsWith(raw, "@event");
      assert !StartsWith(raw, "@contact");
    }
  }
}
