# Social-badge authoring preview, modelled in Dafny

This project models the text pipeline behind the social-badge authoring preview
(`src/social_badge/authoring_preview.js`). An author types a message; the preview

1. normalises it (line breaks unified, trailing white space cut from every line);
2. finds the `#place(...)` directive that decides where artifacts sit beside the
   text (`right` by default, the last recognised directive wins);
3. sorts every line into a block (code inside a fence, dropped directive lines,
   legacy `@event`/`@contact` lines, blank, heading, rule, quote, task, ordered
   and bullet items, table rows, paragraphs);
4. wraps each block's text greedily to a pixel budget with a first-line and a
   continuation prefix, splitting over-long tokens character by character;
5. cuts the wrapped lines into pages of the active layout profile;
6. extracts the artifacts (markdown links, bare URLs, `#qr`, `#event`, `#contact`
   and the legacy `@event`/`@contact` forms), de-duplicated on kind and payload
   and capped at eight, with minimal iCalendar (section 3.6.1 of RFC 5545) and
   vCard 3.0 (RFC 2426) payloads;
7. spreads the artifacts over the pages and keeps the current page inside the
   page range while the author moves between pages.

The modules follow those stages:

| file | module | stage |
|---|---|---|
| `text.dfy` | `JsText` | the JavaScript string built-ins the code relies on: `\s`, `trim`, `split`, `join` |
| `normalize.dfy` | `Normalizer` | `normalize` |
| `directives.dfy` | `Directives` | the `#place`, `#qr`, `#event`, `#contact` recognisers, the date parser, the legacy `@event`/`@contact` patterns, `detectPlacement` |
| `blocks.dfy` | `Blocks` | `parseBlocks` |
| `wrap.dfy` | `Wrapper` | `splitLongToken`, `wrapWithPrefix` |
| `wrapwidth.dfy` | `WrapWidth` | how wide the lines of `wrapWithPrefix` can be |
| `layout.dfy` | `Layout` | `blocksToLines`, `paginate` |
| `payloads.dfy` | `Payloads` | `buildEventPayload`, `buildContactPayload` |
| `artifacts.dfy` | `Artifacts` | `compactLabel`, `detectArtifacts` |
| `preview.dfy` | `Preview` | the layout profiles, the page plan of `updatePreview`, the `pages`/`currentPage` state of `renderPage` and the page buttons |

Every loop of the source is a Dafny `method` with a `while` loop, proved equal to
a pure function (a fold over the lines, tokens, chunks or candidates); the
properties the source promises are proved as lemmas about those functions. The
regular expressions are hand-written recognisers that return what the
JavaScript regex engine returns, backtracking included (for instance the lazy
title of `@event` and the optional groups of `@contact`). The text-width function
`measure` is a parameter of type `string -> int`; nothing is assumed about it,
except by the width bounds of `WrapWidth`, which hold for any width that adds up
over concatenation and is never negative. The wrapper is written once with a
choice of piece width for over-long tokens, `budget`: `CurrentPrefixWidth` is
the source as written, `WidestPrefixWidth` the corrected width described under
Findings. The layout and the page plan take the same parameter and hold their
shape for either; `UpdatePreview`, the program itself, uses `CurrentPrefixWidth`.
`pages` and `currentPage` are the fields of the class `Preview.PreviewSession`.

## Model

| member | source | states |
|---|---|---|
| `Normalizer.UnifyLineBreaks` | src/social_badge/authoring_preview.js:93 | the result holds no carriage return |
| `Normalizer.UnifyLineBreaksKeepsPlainText` | src/social_badge/authoring_preview.js:93 | a text without carriage returns is left as it is |
| `Normalizer.NormalizedLines` | src/social_badge/authoring_preview.js:91-99 | the lines of the normalised text are exactly the lines of the input with trailing white space removed |
| `Normalizer.NormalizeHasNoCarriageReturn` | src/social_badge/authoring_preview.js:91-99 | a normalised text contains no `\r` |
| `Normalizer.NormalizeTrimsEveryLine` | src/social_badge/authoring_preview.js:91-99 | no line of a normalised text ends in white space |
| `Normalizer.NormalizeIdempotent` | src/social_badge/authoring_preview.js:91-99 | normalising twice gives the same text as normalising once |
| `Normalizer.TrimEndIsTrimmed` | src/social_badge/authoring_preview.js:96 | removing trailing white space leaves a line without trailing white space, and doing it again changes nothing |
| `JsText.SplitJoin` | src/social_badge/authoring_preview.js:94-98 | splitting on a separator and joining with it gives back the text |
| `JsText.JoinSplit` | src/social_badge/authoring_preview.js:94-98 | joining parts free of the separator and splitting again gives back the parts |
| `JsText.SplitPartsLackSeparator` | src/social_badge/authoring_preview.js:94 | no part of a split contains the separator |
| `Directives.KeywordOfPlacementName` | src/social_badge/authoring_preview.js:177-181 | each placement's own name maps back to that placement |
| `Directives.PlaceKeyword` | src/social_badge/authoring_preview.js:173-182 | `#place(...)` with a bare or quoted word of letters, with any white space around it, yields the keyword table's entry for the lower-cased word |
| `Directives.PlaceShape` | src/social_badge/authoring_preview.js:173-182 | conversely, every line `#place` accepts is `#place(`, white space, a word of letters bare or quoted, white space and `)`, and the placement is the keyword table's entry for the lower-cased word: anything else is unrecognised |
| `Directives.QuotedArgsShape` | src/social_badge/authoring_preview.js:184-194 | every argument text the quoted-argument patterns accept is one or more quoted arguments free of `"`, separated by commas, with white space around each |
| `Directives.PlaceIgnoresCase` | src/social_badge/authoring_preview.js:176 | two words that lower-case alike give the same placement |
| `Directives.PlaceLineRoundTrip` | src/social_badge/authoring_preview.js:173-182 | a `#place` line written with any placement's name, bare or quoted, is read back as that placement |
| `Directives.QrRoundTrip` | src/social_badge/authoring_preview.js:184-186 | `#qr("url")` with a non-empty URL free of quotes is read back as that URL |
| `Directives.QrShape` | src/social_badge/authoring_preview.js:184-186 | conversely, every line `#qr` accepts is `#qr(`, white space, the quoted non-empty payload free of `"`, white space and `)` |
| `Directives.EventRoundTrip` | src/social_badge/authoring_preview.js:188-190 | a `#event` line written from a when, a title and a location (non-empty when and title, no quotes) is read back as those three |
| `Directives.EventShape` | src/social_badge/authoring_preview.js:188-190 | conversely, every line `#event` accepts is `#event(` and two or three quoted arguments with commas and white space between them, then `)`; the first two are non-empty and a missing third reads as `""` |
| `Directives.ContactShape` | src/social_badge/authoring_preview.js:192-194 | conversely, every line `#contact` accepts is `#contact(` and one to four quoted arguments with commas and white space between them, then `)`; the name is non-empty and the missing fields read as `""` |
| `Directives.ContactRoundTrip` | src/social_badge/authoring_preview.js:192-194 | a `#contact` line written from a name, phone, email and URL (non-empty name, no quotes) is read back as those four |
| `Directives.QuotedArgsOfRendered` | src/social_badge/authoring_preview.js:188-194 | a comma-separated list of quoted arguments after leading white space is read back argument for argument |
| `Directives.FirstQuoted` | src/social_badge/authoring_preview.js:188-194 | a quoted argument holds no quote and the rest is shorter than the input |
| `Directives.ParseDateTime` | src/social_badge/authoring_preview.js:167-171 | an accepted value gives a date of shape `YYYY-MM-DD` that starts the value and a time of shape `HH:MM` |
| `Directives.DateTimeRoundTrip` | src/social_badge/authoring_preview.js:167-171 | a date alone is read with time `09:00`; a date, a space or `T`, and a time are read back as written |
| `Directives.DateTimeOnlyWellFormed` | src/social_badge/authoring_preview.js:167-171 | an accepted value is the date alone, or the date, a space or `T`, and the time |
| `Directives.DotTail` | src/social_badge/authoring_preview.js:227 | the location group of a legacy event is non-empty and holds no line terminator |
| `Directives.TitleAndLocation` | src/social_badge/authoring_preview.js:227 | the lazy title group of a legacy event is non-empty and holds no bar |
| `Directives.LegacyEventRoundTrip` | src/social_badge/authoring_preview.js:227 | an `@event date [time] \| title [\| location]` line is read back as its date, time, title and location |
| `Directives.LegacyContactRoundTrip` | src/social_badge/authoring_preview.js:235 | an `@contact name \| phone \| email \| url` line is matched and gives back the name and URL, and the phone and email once trimmed |
| `Directives.DetectPlacement` | src/social_badge/authoring_preview.js:196-204 | the loop returns the placement of the last line that parses as a place directive, `right` if none does |
| `Directives.LastPlaceDirectiveWins` | src/social_badge/authoring_preview.js:196-204 | when line k is the last recognised place directive, the detected placement is line k's |
| `Directives.NoPlaceDirectiveMeansRight` | src/social_badge/authoring_preview.js:197 | without a recognised place directive the placement is `right` |
| `Blocks.CountLeading` | src/social_badge/authoring_preview.js:249-251 | counts exactly the leading run of one character |
| `Blocks.LeadingDigits` | src/social_badge/authoring_preview.js:274 | the leading run of digits, and nothing more |
| `Blocks.AfterSpaceRun` | src/social_badge/authoring_preview.js:249 | what follows a non-empty white-space run is a suffix without line terminators that does not start with white space |
| `Blocks.MatchHeading` | src/social_badge/authoring_preview.js:249 | a heading has 1 to 6 leading `#` |
| `Blocks.MatchQuote` | src/social_badge/authoring_preview.js:261 | the quoted text is a proper suffix of the line without line terminators |
| `Blocks.MatchTask` | src/social_badge/authoring_preview.js:267 | the task text is a proper suffix of the line without line terminators |
| `Blocks.MatchOrdered` | src/social_badge/authoring_preview.js:274 | the number is a non-empty run of digits and the item text a proper suffix of the line |
| `Blocks.MatchBullet` | src/social_badge/authoring_preview.js:280 | the item text is a proper suffix of the line without line terminators |
| `Blocks.NonEmptyCells` | src/social_badge/authoring_preview.js:287-291 | the kept table cells are non-empty and trimmed |
| `Blocks.MarkdownBlock` | src/social_badge/authoring_preview.js:244-296 | a heading's level is `min(3, count of '#')`; the block is blank exactly when the line is all white space |
| `Blocks.ItemBlock` | src/social_badge/authoring_preview.js:261-296 | quote, list, table or paragraph; a paragraph keeps the raw line |
| `Blocks.ParseBlocks` | src/social_badge/authoring_preview.js:206-300 | the loop over the lines with the `inCodeFence` flag returns the fold of the line rule, at most one block per line |
| `Blocks.ParseFoldCharacterised` | src/social_badge/authoring_preview.js:206-300 | after any lines, the fence flag is set exactly when an odd number of fence lines was seen, and the blocks are each line's contribution in order |
| `Blocks.FenceContribution` | src/social_badge/authoring_preview.js:211-220 | a fence line adds no block; a line inside an open fence adds one code block holding the raw, untrimmed line |
| `Blocks.DirectiveLinesDropped` | src/social_badge/authoring_preview.js:211-225 | outside a fence a line adds no block exactly when it is a fence or its trimmed form is a directive |
| `Blocks.ClassifyNeverCode` | src/social_badge/authoring_preview.js:222-296 | outside a fence no line becomes a code block |
| `Blocks.HeadingLevel` | src/social_badge/authoring_preview.js:249-253 | a heading line has 1 to 6 leading `#` and its level is `min(3, count)` |
| `Blocks.BlankIffAllSpace` | src/social_badge/authoring_preview.js:244-247 | a line becomes a blank block exactly when it is all white space |
| `Blocks.LegacyLinesStartWithAt` | src/social_badge/authoring_preview.js:227-242 | only lines starting with `@` match the legacy forms |
| `Wrapper.RunLength` | src/social_badge/authoring_preview.js:125 | the longest leading run of all-space or all-non-space characters |
| `Wrapper.Words` | src/social_badge/authoring_preview.js:125-127 | the parts are non-empty, each all space or all non-space, alternating |
| `Wrapper.WordsRebuildText` | src/social_badge/authoring_preview.js:125-127 | the parts concatenate back to the text |
| `Wrapper.SplitChunksProperties` | src/social_badge/authoring_preview.js:105-121 | the chunks concatenate to the token, each is non-empty and one character or within the width, and each is maximal: adding the next chunk's first character would exceed the width |
| `Wrapper.SplitChunksRebuild` | src/social_badge/authoring_preview.js:105-121 | the chunks concatenate to the token |
| `Wrapper.ChunkFoldKeepsInvariant` | src/social_badge/authoring_preview.js:109-118 | the chunking loop keeps its invariant over every prefix of the token |
| `Wrapper.SplitLongToken` | src/social_badge/authoring_preview.js:105-121 | the loop returns the specified chunks, which concatenate to the token and are non-empty and within the width or one character |
| `Wrapper.WrapStepInvariant` | src/social_badge/authoring_preview.js:132-161 | one word keeps the prefixes in place and adds exactly that word's visible characters |
| `Wrapper.WrapFoldInvariant` | src/social_badge/authoring_preview.js:132-161 | all words keep the prefixes in place and add exactly their visible characters |
| `Wrapper.FinishLinesShape` | src/social_badge/authoring_preview.js:163-164 | the final lines are never empty and carry the prefixes |
| `Wrapper.WrappedShape` | src/social_badge/authoring_preview.js:123-165 | at least one line; the first starts with the first prefix and every later one with the continuation prefix; without the prefixes the lines hold exactly the text's visible characters |
| `Wrapper.WrappedEmptyText` | src/social_badge/authoring_preview.js:123-165 | empty text gives the single line `firstPrefix` (`[""]` for an empty prefix) |
| `Wrapper.PlacePieces` | src/social_badge/authoring_preview.js:152-160 | placing the chunks of a long token matches the specified step |
| `Wrapper.PlaceOverflow` | src/social_badge/authoring_preview.js:140-160 | a word that overflows the current line is placed as specified |
| `Wrapper.WrapToken` | src/social_badge/authoring_preview.js:132-161 | one word is placed as specified |
| `Wrapper.WrapWithPrefix` | src/social_badge/authoring_preview.js:123-165 | the loop returns the specified lines: at least one, carrying the prefixes |
| `WrapWidth.WrappedLinesWithin` | src/social_badge/authoring_preview.js:123-165 | for a width that adds up and is never negative, every line fits the wrap width (the continuation lines up to the slack of the piece width in use), or is at most its prefix and one character |
| `WrapWidth.WrappedOverflowBound` | src/social_badge/authoring_preview.js:123-165 | as written, the first line fits the wrap width and a continuation line may exceed it by the amount the continuation prefix is wider than the first prefix, unless it is at most its prefix and one character |
| `WrapWidth.WrapOverflowExample` | src/social_badge/authoring_preview.js:150 | as written, one unit per character, budget 2 and prefixes `""`/`"  "` wrap `abcd` to `ab` and `  cd`, a line four units wide |
| `WrapWidth.WrappedWithinBudget` | src/social_badge/authoring_preview.js:123-165 | with the piece width taken from the wider prefix, every line fits the wrap width or is its prefix followed by at most one character |
| `WrapWidth.WrapWithinBudgetExample` | src/social_badge/authoring_preview.js:150 | with the corrected piece width the same input wraps to `a`, `  b`, `  c`, `  d` |
| `Layout.PushBlockLines` | src/social_badge/authoring_preview.js:304-313 | one block's lines, wrapped with the given piece width, are appended to the list |
| `Layout.BlocksToLines` | src/social_badge/authoring_preview.js:302-317 | the loop returns the specified line list, for either piece width |
| `Layout.BlockLinesShape` | src/social_badge/authoring_preview.js:304-313 | a blank block gives exactly one blank line; another block gives at least one line of its kind and inline flag, the first with its first prefix and the rest with its continuation prefix, for either piece width |
| `Layout.BlockLinesOverflowBound` | src/social_badge/authoring_preview.js:304-313 | as written (`CurrentPrefixWidth`): the first line of a block fits the wrap width and a later line may exceed it by the amount the continuation prefix is wider than the first prefix, unless it is its prefix and at most one character |
| `Layout.BlockLinesOverflowExample` | src/social_badge/authoring_preview.js:304-313 | as written, a paragraph `abcd` at wrap width 2, one unit per character, is laid out as `ab` and `  cd`, four units wide |
| `Layout.BlockLinesWithinBudget` | src/social_badge/authoring_preview.js:304-313 | with the corrected piece width (`WidestPrefixWidth`), every line of a block fits the wrap width or is its prefix followed by at most one character |
| `Layout.LinesFoldLength` | src/social_badge/authoring_preview.js:302-314 | there are at least as many lines as blocks, for either piece width |
| `Layout.LayoutLinesNonEmpty` | src/social_badge/authoring_preview.js:302-317 | the line list is never empty, for either piece width |
| `Layout.ChunkLines` | src/social_badge/authoring_preview.js:342-344 | the index loop returns the specified pages |
| `Layout.Paginate` | src/social_badge/authoring_preview.js:337-347 | the pages of the wrapped lines of the parsed blocks, with the given piece width |
| `Layout.ChunksFlatten` | src/social_badge/authoring_preview.js:342-344 | the pages concatenate to the lines |
| `Layout.ChunksSizes` | src/social_badge/authoring_preview.js:342-344 | every page holds 1 to `maxLinesPerPage` lines and all but the last are full |
| `Layout.PaginateShape` | src/social_badge/authoring_preview.js:337-347 | at least one page; the pages concatenate to the wrapped lines; each holds 1 to `maxLinesPerPage` lines, all but the last full; for either piece width |
| `Payloads.BuildEventPayload` | src/social_badge/authoring_preview.js:358-373 | the pushes build the specified iCalendar text |
| `Payloads.BuildContactPayload` | src/social_badge/authoring_preview.js:375-382 | the pushes build the specified vCard text |
| `Payloads.DtStartIsBasicForm` | src/social_badge/authoring_preview.js:359-360 | DTSTART is `YYYYMMDD` `T` `HHMM00` from the date and the time (`09:00` when the time is empty) |
| `Payloads.EventPayloadLines` | src/social_badge/authoring_preview.js:358-373 | the LF-separated lines are BEGIN:VCALENDAR, VERSION:2.0, BEGIN:VEVENT, DTSTART, SUMMARY, LOCATION exactly when the location is non-empty, END:VEVENT, END:VCALENDAR |
| `Payloads.ContactPayloadLines` | src/social_badge/authoring_preview.js:375-382 | the LF-separated lines start BEGIN:VCARD, VERSION:3.0, FN and end END:VCARD |
| `Payloads.PropertyPresentIffNonEmpty` | src/social_badge/authoring_preview.js:377-379 | a TEL, EMAIL or URL line is present exactly when its field is non-empty |
| `Payloads.PropertyLineUnique` | src/social_badge/authoring_preview.js:376-381 | a line starting TEL:, EMAIL: or URL: is that property with its non-empty value |
| `Artifacts.CompactLabel` | src/social_badge/authoring_preview.js:70-73 | the label is at most `maxLen` long (one for a non-positive `maxLen`) |
| `Artifacts.CompactLabelShape` | src/social_badge/authoring_preview.js:70-73 | the text is kept exactly when it fits; otherwise the label has `maxLen` characters, the text's first `maxLen - 1` and an ellipsis |
| `Artifacts.LinkTargetRun` | src/social_badge/authoring_preview.js:395 | the URL of a markdown link runs to the first `)` or white space |
| `Artifacts.RawUrlRun` | src/social_badge/authoring_preview.js:401 | a bare URL runs to the first white space, `<`, `>`, `(` or `)` |
| `Artifacts.SchemeLength` | src/social_badge/authoring_preview.js:395-405 | `http://` or `https://` is recognised, or nothing |
| `Artifacts.MarkdownLinkAt` | src/social_badge/authoring_preview.js:395-399 | a match ends after its start and gives a non-empty caption without `]` and an http(s) URL |
| `Artifacts.RawUrlAt` | src/social_badge/authoring_preview.js:401-405 | a match ends after its start and gives an http(s) scheme followed by at least one character |
| `Artifacts.MarkdownLinkFound` | src/social_badge/authoring_preview.js:395-399 | `[caption](url)` at the start of a text is matched with that caption and URL |
| `Artifacts.Push` | src/social_badge/authoring_preview.js:388-393 | an artifact whose key was seen is skipped; otherwise its key is recorded and it is appended |
| `Artifacts.PushAllAppend` | src/social_badge/authoring_preview.js:388-393 | pushing two lists in turn is pushing their concatenation |
| `Artifacts.CollectMarkdownLinks` | src/social_badge/authoring_preview.js:395-399 | the `exec` loop pushes every markdown link, left to right |
| `Artifacts.CollectRawUrls` | src/social_badge/authoring_preview.js:401-405 | the `exec` loop pushes every bare URL, left to right |
| `Artifacts.MarkdownScanStep` | src/social_badge/authoring_preview.js:395-399 | one step of the markdown scan: a match is pushed and the scan resumes after it, otherwise it resumes one character on |
| `Artifacts.RawScanStep` | src/social_badge/authoring_preview.js:401-405 | one step of the bare-URL scan |
| `Artifacts.CollectLine` | src/social_badge/authoring_preview.js:407-449 | one trimmed line's `#qr`, `#event`, `#contact`, `@event`, `@contact` candidates are pushed in that order |
| `Artifacts.DetectArtifacts` | src/social_badge/authoring_preview.js:384-452 | the loops return the first eight of the de-duplicated candidates, taken in scan order |
| `Artifacts.PushAllIsFirstByKey` | src/social_badge/authoring_preview.js:388-393 | pushing a candidate list keeps exactly the first candidate of each key, in order, and records every key |
| `Artifacts.FirstByKeyKeys` | src/social_badge/authoring_preview.js:388-393 | de-duplication loses no key |
| `Artifacts.FirstByKeyDistinct` | src/social_badge/authoring_preview.js:388-393 | no two kept artifacts share a key |
| `Artifacts.FirstByKeyOrigins` | src/social_badge/authoring_preview.js:388-393 | every kept artifact is the first candidate with its key |
| `Artifacts.FirstWithKey` | src/social_badge/authoring_preview.js:388-393 | a candidate with a key exists exactly when the key occurs, and it carries that key |
| `Artifacts.DistinctKeysCount` | src/social_badge/authoring_preview.js:388-393 | a list with distinct keys has as many keys as artifacts |
| `Artifacts.DetectedArtifactsProperties` | src/social_badge/authoring_preview.js:384-452 | at most 8 artifacts; a prefix of the de-duplicated scan; no two with the same kind and payload; each the first candidate of its key; every key kept when there are at most 8 |
| `Artifacts.CappedFirstByKey` | src/social_badge/authoring_preview.js:451 | capping the de-duplicated list keeps those properties |
| `Artifacts.KeyInjective` | src/social_badge/authoring_preview.js:389 | two artifacts share a key exactly when they share kind and payload |
| `Artifacts.KeyParts` | src/social_badge/authoring_preview.js:389 | the key is the kind name, `::` and the payload |
| `Artifacts.CandidateHeads` | src/social_badge/authoring_preview.js:407-449 | each per-line form yields a candidate only on a line starting with its head |
| `Artifacts.HeadsExclusive` | src/social_badge/authoring_preview.js:407-449 | no line starts with two different heads |
| `Artifacts.LineCandidatesAtMostOne` | src/social_badge/authoring_preview.js:407-449 | one line yields at most one artifact |
| `Artifacts.QrLineArtifact` | src/social_badge/authoring_preview.js:409-412 | a `#qr("url")` line yields one QR artifact whose title is the URL compacted to 28 characters |
| `Preview.ProfileFor` | src/social_badge/authoring_preview.js:22-28 | every profile has lines per page, and only the `none` profile shows no artifacts |
| `Preview.ArtifactPageCount` | src/social_badge/authoring_preview.js:530 | the artifacts need at least one page |
| `Preview.Slice` | src/social_badge/authoring_preview.js:535 | a slice is no longer than its range |
| `Preview.SliceFromStart` | src/social_badge/authoring_preview.js:520 | the value is a prefix of the input, `maxChars` long when the input is longer |
| `Preview.Clamp` | src/social_badge/authoring_preview.js:502-504 | the page index is within the pages: kept when in range, 0 below, the last page above |
| `Preview.PlanPagesLines` | src/social_badge/authoring_preview.js:534-542 | at least one page and no fewer than the text pages; text pages first, then a blank line each; 1 to `maxLines` lines per page |
| `Preview.PlanPagesPlacement` | src/social_badge/authoring_preview.js:535-541 | every page carries the placement when artifacts are inline, otherwise `none` and no artifacts |
| `Preview.SliceRunFlatten` | src/social_badge/authoring_preview.js:536-538 | the per-page slices concatenate to the artifacts up to the last slice's end |
| `Preview.PlanPagesArtifacts` | src/social_badge/authoring_preview.js:533-538 | inline artifacts are spread over the pages in order, each page holding at most `artifactsPerPage`, and there are no more pages than the text or the artifacts need |
| `Preview.PlanPagesShape` | src/social_badge/authoring_preview.js:526-542 | any pagination of the lines gives a plan of the promised shape |
| `Preview.PagePlanShape` | src/social_badge/authoring_preview.js:522-542 | the plan of a text holds its wrapped lines in pages of the active profile and, when inline, all detected artifacts in order, for either piece width |
| `Preview.PreviewSession.constructor` | src/social_badge/authoring_preview.js:60-61 | one blank page, showing the first |
| `Preview.PreviewSession.RenderPage` | src/social_badge/authoring_preview.js:500-517 | the pages are unchanged, the current page is clamped into them, and the previous/next buttons are disabled exactly on the first/last page |
| `Preview.PreviewSession.PreviousPage` | src/social_badge/authoring_preview.js:584-587 | the current page steps back, staying at the first page |
| `Preview.PreviewSession.NextPage` | src/social_badge/authoring_preview.js:588-591 | the current page steps forward, staying at the last page |
| `Preview.PreviewSession.UpdatePreview` | src/social_badge/authoring_preview.js:519-548 | the input is cut to `maxChars`, the pages become the plan of the normalised value laid out as the source wraps (`CurrentPrefixWidth`), and the first page is shown |

## Left out

- The DOM lookups, the configuration JSON, font-profile selection and the event-listener wiring (lines 1-57, 75-89, 583-599) are user-interface plumbing; the page buttons are modelled as `PreviousPage` and `NextPage`.
- `publish` (lines 550-581) is an asynchronous network call.
- The HTML rendering (`escapeHtml`, `inlineMarkdownToHtml`, `renderLine`, `renderArtifacts`, `renderInlineArtifacts` and the `innerHTML`/`textContent` writes of `renderPage` and `updatePreview`) is display output only; `RenderPage` keeps only its clamp and the disabled flags.
- `toQrUrl` (lines 354-356) calls `encodeURIComponent` and an outside service.
- `measure` (lines 101-103) reads canvas font metrics in floating point; it is a parameter `string -> int`. The width bounds assume it adds up over concatenation and is never negative, which kerning and rounding of real font metrics only approximate.
- `MAX_CHARS` comes from the configuration (line 12, default 280); it is the `maxChars` parameter of `UpdatePreview`.
- Strings are sequences of code points: JavaScript's UTF-16 lengths and slices (in `compactLabel`, `slice(0, MAX_CHARS)` and the `for ... of` split of `splitLongToken`) differ for characters outside the Basic Multilingual Plane, and that difference is not modelled.
- The `|| default` fallbacks of `renderPage` (`pages[currentPage] || ...`, line 506) and `updatePreview` (`LAYOUT_PROFILES[placement] || ...`, line 527) cannot fire: the clamped index is always within the pages and every placement has a profile.
- `Payloads.EventPayloadLines`: the general line structure is proved; the worked example `buildEventPayload("2024-03-01","09:00","Launch","")` is not evaluated as a literal.
- `Artifacts.DetectedArtifactsProperties`: the `#event` date fallback (`1970-01-01` at `09:00`) is built into the candidate function; no separate lemma evaluates the resulting `DTSTART:19700101T090000` line as a literal.
- `Directives.LegacyContactRoundTrip`: the phone and email are stated up to trimming, because the regex's groups keep the white space around them and the source trims them afterwards.
- Where this code and the design description disagree, the model follows the code: directive lines are not removed from the artifact scan; bare URLs are scanned even under placement `none` and keep trailing punctuation; the de-duplication key is kind plus payload; the ordered-list continuation prefix is three spaces; the cap of eight is applied after the whole scan.

## Findings

| source | as written | input that shows it | evidently intended | confidence | as-written member | corrected member |
|---|---|---|---|---|---|---|
| src/social_badge/authoring_preview.js:150 | an over-long token is cut into pieces of `wrapWidth - measure(currentPrefix)`; when it starts on a first line whose prefix is narrower than the continuation prefix, every later piece is placed after the wider continuation prefix and that line exceeds `wrapWidth` | a paragraph (prefixes `""` and `"  "`) holding one long word: with one unit per character and `wrapWidth` 2, `abcd` wraps to `ab` and `  cd`, four units | size the pieces by the wider of the two prefixes, so that every line fits `wrapWidth` or is its prefix and one character | not executed | `WrapWidth.WrapOverflowExample` | `WrapWidth.WrappedWithinBudget` |
