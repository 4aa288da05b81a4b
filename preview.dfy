/** The page plan of `updatePreview` (authoring_preview.js lines 519-548) and the
    navigation state of the preview: the module-level `pages` and `currentPage`
    (lines 60-61), clamped by `renderPage` (lines 500-517) and moved by the
    previous/next buttons (lines 584-591). */
module Preview {
  import opened JsText
  import opened Normalizer
  import opened Wrapper
  import opened Directives
  import opened Blocks
  import opened Layout
  import opened Artifacts

  /** One entry of `LAYOUT_PROFILES`: the text column's wrap width, the lines per
      page and the artifacts shown beside the text on each page. */
  datatype LayoutProfile = LayoutProfile(placementClass: string, wrapWidth: int, maxLines: nat, artifactsPerPage: nat)

  /** The content width of a page without artifacts beside it. */
  const BaseContentWidth: int := 304

  /** The default message length limit, `config.max_chars || 280`. */
  const DefaultMaxChars: int := 280

  /** `LAYOUT_PROFILES[placement]`. */
  function ProfileFor(p: Placement): (r: LayoutProfile)
    ensures r.maxLines > 0
    ensures p == NoPlacement <==> r.artifactsPerPage == 0
  {
    match p
    case NoPlacement => LayoutProfile("", BaseContentWidth, 12, 0)
    case Right => LayoutProfile("with-artifacts-right", 200, 12, 2)
    case Left => LayoutProfile("with-artifacts-left", 200, 12, 2)
    case Top => LayoutProfile("with-artifacts-top", BaseContentWidth, 6, 3)
    case Bottom => LayoutProfile("with-artifacts-bottom", BaseContentWidth, 6, 3)
  }

  /** One page of the preview: its lines, the artifacts shown beside them and where. */
  datatype Page = Page(lines: seq<Line>, artifacts: seq<Artifact>, placement: Placement)

  /** The page shown before any input. */
  const InitialPage: Page := Page([BlankLine], [], NoPlacement)

  function Max(a: int, b: int): int { if a >= b then a else b }

  /** `Array.prototype.slice(start, end)` for `0 <= start <= end`: out-of-range ends are cut back to the length. */
  function Slice<T>(s: seq<T>, start: nat, end: nat): (r: seq<T>)
    requires start <= end
    ensures |r| <= end - start
  {
    if start >= |s| then [] else if end >= |s| then s[start..] else s[start..end]
  }

  /** `Math.ceil(count / perPage)` for a positive page size. */
  function CeilDiv(count: nat, perPage: nat): (r: nat)
    requires perPage > 0
  {
    (count + perPage - 1) / perPage
  }

  /** Inline artifacts are shown when there are some and the placement is not `none`. */
  predicate InlineEnabled(artifacts: seq<Artifact>, placement: Placement) {
    |artifacts| > 0 && placement != NoPlacement
  }

  /** The profile `updatePreview` lays the text out with. */
  function ActiveProfile(artifacts: seq<Artifact>, placement: Placement): LayoutProfile {
    if InlineEnabled(artifacts, placement) then ProfileFor(placement) else ProfileFor(NoPlacement)
  }

  /** How many pages the artifacts need: `max(1, ceil(count / perPage))` when inline, else 1. */
  function ArtifactPageCount(artifacts: seq<Artifact>, placement: Placement): (r: nat)
    ensures r >= 1
  {
    if InlineEnabled(artifacts, placement) then
      Max(1, CeilDiv(|artifacts|, ProfileFor(placement).artifactsPerPage))
    else 1
  }

  /** The artifacts of page `i`: its slice of `artifactsPerPage` when inline, none otherwise. */
  function PageArtifacts(artifacts: seq<Artifact>, placement: Placement, i: nat): seq<Artifact> {
    if InlineEnabled(artifacts, placement) then
      var per := ProfileFor(placement).artifactsPerPage;
      Slice(artifacts, i * per, (i + 1) * per)
    else []
  }

  /** The `Array.from` of `updatePreview`: as many pages as the text or the artifacts
      need, the text page or a blank line, the artifact slice, the placement when inline. */
  function PlanPages(textPages: seq<seq<Line>>, artifacts: seq<Artifact>, placement: Placement): seq<Page> {
    var total := Max(|textPages|, ArtifactPageCount(artifacts, placement));
    seq(total, i requires 0 <= i < total =>
      Page(if i < |textPages| then textPages[i] else [BlankLine],
           PageArtifacts(artifacts, placement, i),
           if InlineEnabled(artifacts, placement) then placement else NoPlacement))
  }

  /** The text pages `updatePreview` obtains from `paginate`. */
  function TextPages(normalized: string, artifacts: seq<Artifact>, placement: Placement, measure: Measure, budget: SplitBudget): seq<seq<Line>> {
    var profile := ActiveProfile(artifacts, placement);
    Pages(LayoutLines(ParsedBlocks(normalized), profile.wrapWidth, measure, budget), profile.maxLines)
  }

  /** The pages `updatePreview` builds for a normalised text. */
  function PagePlan(normalized: string, measure: Measure, budget: SplitBudget): seq<Page> {
    var placement := PlacementAfter(Lines(normalized));
    var artifacts := DetectedArtifacts(normalized);
    PlanPages(TextPages(normalized, artifacts, placement, measure, budget), artifacts, placement)
  }

  /** `input.value.slice(0, maxChars)`: a negative end counts back from the length. */
  function SliceFromStart(s: string, maxChars: int): (r: string)
    ensures |r| <= |s| && r == s[..|r|]
    ensures maxChars >= 0 ==> |r| == if maxChars <= |s| then maxChars else |s|
  {
    if maxChars >= 0 then (if maxChars <= |s| then s[..maxChars] else s)
    else if |s| + maxChars >= 0 then s[..|s| + maxChars]
    else []
  }

  /** The page `renderPage` shows: `currentPage` pulled into `0 .. totalPages - 1`. */
  function Clamp(current: int, totalPages: nat): (r: int)
    requires totalPages >= 1
    ensures 0 <= r < totalPages
    ensures 0 <= current < totalPages ==> r == current
    ensures current < 0 ==> r == 0
    ensures current >= totalPages ==> r == totalPages - 1
  {
    var low := if current < 0 then 0 else current;
    if low >= totalPages then totalPages - 1 else low
  }

  // ---------------------------------------------------------------------------
  // Properties of the plan

  /** Every page of the plan holds one to `maxLines` lines; the pages begin with the
      text pages, in order, and any further page is a single blank line. */
  lemma PlanPagesLines(textPages: seq<seq<Line>>, artifacts: seq<Artifact>, placement: Placement, maxLines: nat)
    requires forall i :: 0 <= i < |textPages| ==> 1 <= |textPages[i]| <= maxLines
    requires maxLines >= 1
    ensures var plan := PlanPages(textPages, artifacts, placement);
      && |plan| >= 1 && |plan| >= |textPages|
      && (forall i :: 0 <= i < |plan| ==> 1 <= |plan[i].lines| <= maxLines)
      && (forall i :: 0 <= i < |textPages| ==> plan[i].lines == textPages[i])
      && (forall i :: |textPages| <= i < |plan| ==> plan[i].lines == [BlankLine])
  {
  }

  /** Every page carries the placement when artifacts are inline and `none` otherwise,
      and no artifacts at all when they are not inline. */
  lemma PlanPagesPlacement(textPages: seq<seq<Line>>, artifacts: seq<Artifact>, placement: Placement)
    ensures var plan := PlanPages(textPages, artifacts, placement);
      && (forall i :: 0 <= i < |plan| ==> plan[i].placement == (if InlineEnabled(artifacts, placement) then placement else NoPlacement))
      && (!InlineEnabled(artifacts, placement) ==> forall i :: 0 <= i < |plan| ==> plan[i].artifacts == [])
  {
  }

  /** The artifact slices of the first `n` pages, in page order. */
  function SliceRun(artifacts: seq<Artifact>, per: nat, n: nat): seq<seq<Artifact>> {
    seq(n, i requires 0 <= i < n => Slice(artifacts, i * per, (i + 1) * per))
  }

  lemma NextSliceStart(i: nat, per: nat)
    ensures (i + 1) * per == i * per + per
  {
  }

  /** The first `n` slices concatenate to the first `n * per` artifacts (or all of them). */
  lemma {:induction false} SliceRunFlatten(artifacts: seq<Artifact>, per: nat, n: nat)
    requires per > 0
    ensures Flatten(SliceRun(artifacts, per, n)) == artifacts[..if n * per <= |artifacts| then n * per else |artifacts|]
  {
    if n > 0 {
      var m := n - 1;
      var lo, hi := m * per, n * per;
      assert hi == lo + per by {
        NextSliceStart(m, per);
      }
      var run := SliceRun(artifacts, per, n);
      assert Flatten(run) == Flatten(SliceRun(artifacts, per, m)) + Slice(artifacts, lo, hi) by {
        assert run[..m] == SliceRun(artifacts, per, m);
        assert run[m] == Slice(artifacts, lo, hi);
      }
      SliceRunFlatten(artifacts, per, m);
      SliceAfterPrefix(artifacts, lo, hi);
    }
  }

  /** The slice from `lo` to `hi` continues the first `lo` artifacts to the first `hi`. */
  lemma SliceAfterPrefix(artifacts: seq<Artifact>, lo: nat, hi: nat)
    requires lo <= hi
    ensures artifacts[..if hi <= |artifacts| then hi else |artifacts|]
      == artifacts[..if lo <= |artifacts| then lo else |artifacts|] + Slice(artifacts, lo, hi)
  {
    var a := if lo <= |artifacts| then lo else |artifacts|;
    var b := if hi <= |artifacts| then hi else |artifacts|;
    assert artifacts[..b] == artifacts[..a] + artifacts[a..b];
  }

  /** With artifacts inline, the pages spread them in slices of `artifactsPerPage`:
      the slices concatenate back to the whole list, none is longer than the profile
      allows, and the plan has just enough pages to hold them all. */
  lemma PlanPagesArtifacts(textPages: seq<seq<Line>>, artifacts: seq<Artifact>, placement: Placement)
    requires InlineEnabled(artifacts, placement)
    ensures var plan := PlanPages(textPages, artifacts, placement);
      var per := ProfileFor(placement).artifactsPerPage;
      && Flatten(seq(|plan|, i requires 0 <= i < |plan| => plan[i].artifacts)) == artifacts
      && (forall i :: 0 <= i < |plan| ==> |plan[i].artifacts| <= per)
      && |artifacts| <= |plan| * per
      && (|plan| == |textPages| || (|plan| - 1) * per < |artifacts|)
  {
    var plan := PlanPages(textPages, artifacts, placement);
    var per := ProfileFor(placement).artifactsPerPage;
    var spread := seq(|plan|, i requires 0 <= i < |plan| => plan[i].artifacts);
    assert per > 0 && |spread| == Max(|textPages|, Max(1, CeilDiv(|artifacts|, per)))
      && spread == SliceRun(artifacts, per, |spread|);
    SpreadShape(spread, artifacts, per, |textPages|);
    assert forall i :: 0 <= i < |plan| ==> plan[i].artifacts == spread[i];
  }

  /** Slices of `per` artifacts over as many pages as the plan has: they concatenate
      back to the artifacts, none is longer than `per`, and there are just enough. */
  lemma SpreadShape(spread: seq<seq<Artifact>>, artifacts: seq<Artifact>, per: nat, textPageCount: nat)
    requires per > 0 && |artifacts| > 0
    requires |spread| == Max(textPageCount, Max(1, CeilDiv(|artifacts|, per)))
    requires spread == SliceRun(artifacts, per, |spread|)
    ensures Flatten(spread) == artifacts
    ensures forall i :: 0 <= i < |spread| ==> |spread[i]| <= per
    ensures |artifacts| <= |spread| * per
    ensures |spread| == textPageCount || (|spread| - 1) * per < |artifacts|
  {
    PageCountBounds(|artifacts|, per, textPageCount, |spread|);
    SliceRunFlatten(artifacts, per, |spread|);
  }

  /** The plan's page count holds all artifacts, and exceeds what they need only to hold the text pages. */
  lemma PageCountBounds(count: nat, per: nat, textPageCount: nat, total: nat)
    requires per > 0 && count > 0
    requires total == Max(textPageCount, Max(1, CeilDiv(count, per)))
    ensures count <= total * per
    ensures total == textPageCount || (total - 1) * per < count
  {
    var c := Max(1, CeilDiv(count, per));
    CeilDivBounds(count, per);
    MulMonotone(c, total, per);
  }

  lemma MulMonotone(a: nat, b: nat, c: nat)
    requires a <= b
    ensures a * c <= b * c
  {
  }

  /** `max(1, ceil(count / per))` pages hold `count` artifacts and one page fewer would not. */
  lemma CeilDivBounds(count: nat, per: nat)
    requires per > 0 && count > 0
    ensures var c := Max(1, CeilDiv(count, per));
      count <= c * per && (c - 1) * per < count
  {
    var q := CeilDiv(count, per);
    var r := (count + per - 1) % per;
    assert count + per - 1 == q * per + r;
    assert q >= 1;
  }

  // ---------------------------------------------------------------------------
  // The preview session

  /** The module-level `pages` and `currentPage` of the preview. */
  class PreviewSession {
    var pages: seq<Page>
    var currentPage: int

    /** The state `renderPage` leaves: at least one page and the current one among them. */
    predicate Valid()
      reads this
    {
      |pages| >= 1 && 0 <= currentPage < |pages|
    }

    /** One blank page, showing the first. */
    constructor()
      ensures pages == [InitialPage] && currentPage == 0
      ensures Valid()
    {
      pages := [InitialPage];
      currentPage := 0;
    }

    /** The navigation part of `renderPage`: clamp the current page, then report
        whether the previous and next buttons are disabled. */
    method RenderPage() returns (prevDisabled: bool, nextDisabled: bool)
      requires |pages| >= 1
      modifies this
      ensures pages == old(pages)
      ensures currentPage == Clamp(old(currentPage), |pages|)
      ensures Valid()
      ensures prevDisabled <==> currentPage == 0
      ensures nextDisabled <==> currentPage == |pages| - 1
    {
      var totalPages := |pages|;
      if currentPage < 0 {
        currentPage := 0;
      }
      if currentPage >= totalPages {
        currentPage := totalPages - 1;
      }
      prevDisabled := currentPage == 0;
      nextDisabled := currentPage == totalPages - 1;
    }

    /** The previous-page button: step back and render. */
    method PreviousPage() returns (prevDisabled: bool, nextDisabled: bool)
      requires Valid()
      modifies this
      ensures pages == old(pages) && Valid()
      ensures currentPage == if old(currentPage) == 0 then 0 else old(currentPage) - 1
      ensures prevDisabled <==> currentPage == 0
      ensures nextDisabled <==> currentPage == |pages| - 1
    {
      currentPage := currentPage - 1;
      prevDisabled, nextDisabled := RenderPage();
    }

    /** The next-page button: step forward and render. */
    method NextPage() returns (prevDisabled: bool, nextDisabled: bool)
      requires Valid()
      modifies this
      ensures pages == old(pages) && Valid()
      ensures currentPage == if old(currentPage) == |pages| - 1 then old(currentPage) else old(currentPage) + 1
      ensures prevDisabled <==> currentPage == 0
      ensures nextDisabled <==> currentPage == |pages| - 1
    {
      currentPage := currentPage + 1;
      prevDisabled, nextDisabled := RenderPage();
    }

    /** `updatePreview`: cut the input to `maxChars`, normalise it, plan the pages and
        show the first one. Returns the (possibly shortened) input value. */
    method UpdatePreview(inputValue: string, maxChars: int, measure: Measure) returns (value: string)
      modifies this
      ensures value == SliceFromStart(inputValue, maxChars)
      ensures pages == PagePlan(Normalize(value), measure, CurrentPrefixWidth)
      ensures currentPage == 0 && Valid()
    {
      value := SliceFromStart(inputValue, maxChars);
      var normalized := Normalize(value);
      var placement := DetectPlacement(normalized);
      var allArtifacts := DetectArtifacts(normalized);
      var profile := ActiveProfile(allArtifacts, placement);
      var textPages := Paginate(normalized, profile.wrapWidth, profile.maxLines, measure, CurrentPrefixWidth);
      pages := PlanPages(textPages, allArtifacts, placement);
      currentPage := 0;
      assert |pages| >= 1;
      var _, _ := RenderPage();
    }
  }

  // ---------------------------------------------------------------------------
  // The plan of a whole text

  /** What a page plan promises: at least one page, the text pages first, each page
      holding one to `maxLines` lines, the text pages concatenating to the laid-out
      lines, and, when artifacts are inline, the artifact slices concatenating to
      the detected artifacts. */
  predicate PlanShape(plan: seq<Page>, textPages: seq<seq<Line>>, lines: seq<Line>,
                      artifacts: seq<Artifact>, placement: Placement, maxLines: nat)
  {
    && |plan| >= 1 && |plan| >= |textPages|
    && Flatten(textPages) == lines
    && (forall i :: 0 <= i < |textPages| ==> plan[i].lines == textPages[i])
    && (forall i :: 0 <= i < |plan| ==> 1 <= |plan[i].lines| <= maxLines)
    && (InlineEnabled(artifacts, placement) ==>
          Flatten(seq(|plan|, i requires 0 <= i < |plan| => plan[i].artifacts)) == artifacts)
  }

  /** Planning pages over any pagination of the lines keeps the plan's promises. */
  lemma PlanPagesShape(textPages: seq<seq<Line>>, lines: seq<Line>, artifacts: seq<Artifact>, placement: Placement, maxLines: nat)
    requires maxLines >= 1 && Flatten(textPages) == lines
    requires forall i :: 0 <= i < |textPages| ==> 1 <= |textPages[i]| <= maxLines
    ensures PlanShape(PlanPages(textPages, artifacts, placement), textPages, lines, artifacts, placement, maxLines)
  {
    PlanPagesLines(textPages, artifacts, placement, maxLines);
    if InlineEnabled(artifacts, placement) {
      PlanPagesArtifacts(textPages, artifacts, placement);
    }
  }

  /** The plan `updatePreview` builds for a text keeps those promises, with the lines
      laid out and paginated under the active profile. */
  lemma PagePlanShape(normalized: string, measure: Measure, budget: SplitBudget)
    ensures var placement := PlacementAfter(Lines(normalized));
      var artifacts := DetectedArtifacts(normalized);
      var profile := ActiveProfile(artifacts, placement);
      var lines := LayoutLines(ParsedBlocks(normalized), profile.wrapWidth, measure, budget);
      PlanShape(PagePlan(normalized, measure, budget), Pages(lines, profile.maxLines), lines, artifacts, placement, profile.maxLines)
  {
    var placement := PlacementAfter(Lines(normalized));
    var artifacts := DetectedArtifacts(normalized);
    var profile := ActiveProfile(artifacts, placement);
    var lines := LayoutLines(ParsedBlocks(normalized), profile.wrapWidth, measure, budget);
    var textPages := Pages(lines, profile.maxLines);
    assert Flatten(textPages) == lines && forall i :: 0 <= i < |textPages| ==> 1 <= |textPages[i]| <= profile.maxLines by {
      PaginateShape(normalized, profile.wrapWidth, profile.maxLines, measure, budget);
    }
    PlanPagesShape(textPages, lines, artifacts, placement, profile.maxLines);
  }
}
