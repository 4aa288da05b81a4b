/** The line-anchored recognisers of authoring_preview.js: the Typst-style
    `#place`, `#qr`, `#event` and `#contact` directives (lines 167-194), the
    placement scan `detectPlacement` (196-204) and the legacy `@event` and
    `@contact` lines (227, 235, 430, 440).

    Each regular expression of the source is written out as a recogniser over
    `seq<char>` that yields what the JavaScript engine's first match captures.
    Where the engine backtracks, the doc comment of the recogniser says which
    alternative it settles on. A capture group that does not take part in the
    match is modelled as the empty string: every caller of these recognisers
    reads such a group through `|| ""` or a truthiness test. */
module Directives {
  import opened JsText

  // ---------------------------------------------------------------------------
  // Placement

  /** The values of `PLACEMENT_*`: where artifacts sit next to the text. */
  datatype Placement = Right | Left | Top | Bottom | NoPlacement

  /** The keyword the source uses for each placement (`"none"` for `NoPlacement`). */
  function PlacementName(p: Placement): string {
    match p
    case Right => "right"
    case Left => "left"
    case Top => "top"
    case Bottom => "bottom"
    case NoPlacement => "none"
  }

  /** The keyword table of `parseTypstPlaceDirective` (lines 177-181), on the lower-cased word. */
  function KeywordPlacement(word: string): Option<Placement> {
    if word == "float" || word == "auto" || word == "default" then Some(Right)
    else if word == "off" || word == "hidden" then Some(NoPlacement)
    else if word == "right" then Some(Right)
    else if word == "left" then Some(Left)
    else if word == "top" then Some(Top)
    else if word == "bottom" then Some(Bottom)
    else if word == "none" then Some(NoPlacement)
    else None
  }

  /** `#name( ... )` with the whole line taken, `head` being `#name(`: the text between
      the opening parenthesis and the final `)`, or `None` when the line has another shape. */
  function CallArguments(line: string, head: string): Option<string> {
    if StartsWith(line, head) && |line| > |head| && line[|line| - 1] == ')' then
      Some(line[|head|..|line| - 1])
    else None
  }

  lemma CallArgumentsOfCall(head: string, inner: string)
    ensures CallArguments(head + inner + ")", head) == Some(inner)
  {
    var line := head + inner + ")";
    assert line[..|head|] == head;
    assert line[|head|..|line| - 1] == inner;
  }

  /** The word inside `#place(...)`: `\s*` then `"letters"` or `letters`, then `\s*`.
      Letters and quotes are not white space, so the word is what `trim` leaves. */
  function PlaceWord(inner: string): Option<string> {
    var core := Trim(inner);
    if core != [] && AllLetters(core) then Some(core)
    else if |core| >= 3 && core[0] == '"' && core[|core| - 1] == '"' && AllLetters(core[1..|core| - 1]) then
      Some(core[1..|core| - 1])
    else None
  }

  /** `parseTypstPlaceDirective(line)` (lines 173-182). */
  function ParsePlace(line: string): Option<Placement> {
    match CallArguments(line, "#place(")
    case None => None
    case Some(inner) =>
      match PlaceWord(inner)
      case None => None
      case Some(word) => KeywordPlacement(LowerAscii(word))
  }

  // ---------------------------------------------------------------------------
  // Quoted arguments of #qr, #event and #contact

  /** A quoted argument `"a"` at the very start of `t`: the argument and what follows it. */
  function FirstQuoted(t: string): (r: Option<(string, string)>)
    ensures r.Some? ==> '"' !in r.value.0 && |r.value.1| < |t|
  {
    if t == [] || t[0] != '"' then None
    else
      var close := 1 + FindChar(t[1..], '"');
      if close >= |t| then None else Some((t[1..close], t[close + 1..]))
  }

  /** The arguments of a call whose text between the parentheses has the shape
      `\s*"a"(\s*,\s*"b")*\s*`, each argument free of `"`. The three directive
      expressions are this shape with a fixed number of arguments, and since an
      argument cannot hold a quote the split into arguments is unique. */
  function QuotedArgs(s: string): Option<seq<string>>
    decreases |s|
  {
    match FirstQuoted(TrimStart(s))
    case None => None
    case Some(first) =>
      var rest := TrimStart(first.1);
      if rest == [] then Some([first.0])
      else if rest[0] != ',' then None
      else
        match QuotedArgs(rest[1..])
        case None => None
        case Some(more) => Some([first.0] + more)
  }

  /** `parseTypstQrDirective(line)` (lines 184-186): the payload of `#qr("...")`. */
  function ParseQr(line: string): Option<string> {
    match CallArguments(line, "#qr(")
    case None => None
    case Some(inner) =>
      match QuotedArgs(inner)
      case Some(args) => if |args| == 1 && args[0] != [] then Some(args[0]) else None
      case None => None
  }

  datatype EventDirective = EventDirective(when: string, title: string, location: string)

  /** `parseTypstEventDirective(line)` (lines 188-190): two non-empty arguments and
      an optional third, possibly empty; a missing third one reads as `""`. */
  function ParseEvent(line: string): Option<EventDirective> {
    match CallArguments(line, "#event(")
    case None => None
    case Some(inner) =>
      match QuotedArgs(inner)
      case Some(args) =>
        if (|args| == 2 || |args| == 3) && args[0] != [] && args[1] != [] then
          Some(EventDirective(args[0], args[1], if |args| == 3 then args[2] else ""))
        else None
      case None => None
  }

  datatype ContactDirective = ContactDirective(name: string, phone: string, email: string, url: string)

  /** Argument `i`, or `""` when the call has fewer (`match[i] || ""`). */
  function ArgOrEmpty(args: seq<string>, i: nat): string {
    if i < |args| then args[i] else ""
  }

  /** `parseTypstContactDirective(line)` (lines 192-194): a non-empty name and up to
      three more arguments, filled in order, the missing ones reading as `""`. */
  function ParseContact(line: string): Option<ContactDirective> {
    match CallArguments(line, "#contact(")
    case None => None
    case Some(inner) =>
      match QuotedArgs(inner)
      case Some(args) =>
        if 1 <= |args| <= 4 && args[0] != [] then
          Some(ContactDirective(args[0], ArgOrEmpty(args, 1), ArgOrEmpty(args, 2), ArgOrEmpty(args, 3)))
        else None
      case None => None
  }

  /** Whether `parseBlocks` drops a trimmed line as a directive (line 223): the place
      parser counts only when it yields a placement, the other three when they match. */
  predicate IsDirective(line: string) {
    ParsePlace(line).Some? || ParseQr(line).Some? || ParseEvent(line).Some? || ParseContact(line).Some?
  }

  // ---------------------------------------------------------------------------
  // Dates

  predicate IsDateShape(d: string) {
    |d| == 10 && IsDigit(d[0]) && IsDigit(d[1]) && IsDigit(d[2]) && IsDigit(d[3]) && d[4] == '-'
    && IsDigit(d[5]) && IsDigit(d[6]) && d[7] == '-' && IsDigit(d[8]) && IsDigit(d[9])
  }

  predicate IsTimeShape(t: string) {
    |t| == 5 && IsDigit(t[0]) && IsDigit(t[1]) && t[2] == ':' && IsDigit(t[3]) && IsDigit(t[4])
  }

  datatype DateTime = DateTime(datePart: string, timePart: string)

  const DefaultTime: string := "09:00"

  /** `parseTypstDateTime(value)` (lines 167-171): `YYYY-MM-DD`, optionally followed
      by a space or `T` and `HH:MM`; the time defaults to `09:00`. */
  function ParseDateTime(value: string): (r: Option<DateTime>)
    ensures r.Some? ==> IsDateShape(r.value.datePart) && IsTimeShape(r.value.timePart)
    ensures r.Some? ==> StartsWith(value, r.value.datePart)
  {
    if IsDateShape(value) then Some(DateTime(value, DefaultTime))
    else if |value| == 16 && IsDateShape(value[..10]) && (value[10] == ' ' || value[10] == 'T')
      && IsTimeShape(value[11..])
    then Some(DateTime(value[..10], value[11..]))
    else None
  }

  // ---------------------------------------------------------------------------
  // Legacy @event lines:
  //   ^@event\s+(\d{4}-\d{2}-\d{2})(?:[ T](\d{2}:\d{2}))?\s*\|\s*([^|]+?)(?:\s*\|\s*(.+))?$

  datatype LegacyEvent = LegacyEvent(date: string, time: string, title: string, location: string)

  /** `\s*(.+)$` on what follows the second bar. `\s*` is greedy; when nothing but
      white space is left it gives back one character for `.+`, which must not be a
      line terminator, and a line terminator after the white space defeats it. */
  function DotTail(tail: string): (r: Option<string>)
    ensures r.Some? ==> r.value != [] && NoLineTerminator(r.value)
  {
    var j := LeadingSpace(tail);
    if j < |tail| then (if NoLineTerminator(tail[j..]) then Some(tail[j..]) else None)
    else if j > 0 && !IsLineTerminator(tail[j - 1]) then Some([tail[j - 1]])
    else None
  }

  /** `\s*([^|]+?)(?:\s*\|\s*(.+))?$` on what follows the first bar: the title and
      the location (`""` when the optional group is absent). The lazy title stops at
      the first point where the rest can match: before the white space that precedes
      the next bar, or at the end of the line when there is no further bar. When
      the greedy `\s*` leaves nothing for the title, it gives back one white-space
      character, which becomes the title. */
  function TitleAndLocation(rest: string): (r: Option<(string, string)>)
    ensures r.Some? ==> r.value.0 != [] && '|' !in r.value.0
  {
    var w := LeadingSpace(rest);
    var bar := FindChar(rest, '|');
    if bar == |rest| then
      if w < |rest| then Some((rest[w..], ""))
      else if w > 0 then Some(([rest[w - 1]], ""))
      else None
    else
      match DotTail(rest[bar + 1..])
      case None => None
      case Some(location) =>
        if bar > w then
          assert !IsSpace(rest[w..bar][0]);
          Some((TrimEnd(rest[w..bar]), location))
        else if w > 0 then Some(([rest[w - 1]], location))
        else None
  }

  /** The legacy event expression. `\s+` before the date must take all the white
      space, since the date starts with a digit; the time group is taken whenever
      `[ T]HH:MM` follows the date, because without it `\s*\|` cannot match there. */
  function MatchLegacyEvent(line: string): Option<LegacyEvent> {
    if !StartsWith(line, "@event") then None else LegacyEventAfterKeyword(line[6..])
  }

  function LegacyEventAfterKeyword(s: string): Option<LegacyEvent> {
    var n := LeadingSpace(s);
    if n == 0 || |s| < n + 10 || !IsDateShape(s[n..n + 10]) then None
    else LegacyEventAfterDate(s[n..n + 10], s[n + 10..])
  }

  function LegacyEventAfterDate(date: string, afterDate: string): Option<LegacyEvent> {
    var hasTime := |afterDate| >= 6 && (afterDate[0] == ' ' || afterDate[0] == 'T')
      && IsTimeShape(afterDate[1..6]);
    var afterTime := if hasTime then afterDate[6..] else afterDate;
    var w := LeadingSpace(afterTime);
    if w == |afterTime| || afterTime[w] != '|' then None
    else
      match TitleAndLocation(afterTime[w + 1..])
      case None => None
      case Some(tl) => Some(LegacyEvent(date, if hasTime then afterDate[1..6] else "", tl.0, tl.1))
  }

  // ---------------------------------------------------------------------------
  // Legacy @contact lines:
  //   ^@contact\s+([^|]+?)(?:\s*\|\s*([^|]*))?(?:\s*\|\s*([^|]*))?(?:\s*\|\s*(\S+))?$

  datatype LegacyContact = LegacyContact(name: string, phone: string, email: string, url: string)

  /** `\S+` at the end of the line: at least one character and no white space. */
  predicate IsNonSpaceRun(s: string) {
    s != [] && forall i :: 0 <= i < |s| ==> !IsSpace(s[i])
  }

  /** The three optional groups on what follows the first bar, as (phone, email, url).
      The greedy `[^|]*` groups take whole bar-separated segments; the last group
      needs a run without white space up to the end, which may itself hold bars.
      With one or two bars left the segments fill the phone and email groups.
      Otherwise the url group takes all that follows the third bar; when that fails
      and the line ends right after the third bar, the engine skips the email group
      and the url group takes all that follows the second bar instead. */
  function ContactFields(t: string): Option<(string, string, string)> {
    var first := FindChar(t, '|');
    if first == |t| then Some((TrimStart(t), "", ""))
    else
      var afterFirst := t[first + 1..];
      var second := FindChar(afterFirst, '|');
      if second == |afterFirst| then Some((TrimStart(t[..first]), TrimStart(afterFirst), ""))
      else
        var afterSecond := afterFirst[second + 1..];
        if IsNonSpaceRun(TrimStart(afterSecond)) then
          Some((TrimStart(t[..first]), TrimStart(afterFirst[..second]), TrimStart(afterSecond)))
        else if afterSecond == [] && IsNonSpaceRun(TrimStart(afterFirst)) then
          Some((TrimStart(t[..first]), "", TrimStart(afterFirst)))
        else None
  }

  /** The legacy contact expression. The name is lazy, so it ends before the white
      space that precedes the first bar, or runs to the end of the line when there
      is no bar. When `\s+` leaves nothing for the name it gives back one white-space
      character, which becomes the name. */
  function MatchLegacyContact(line: string): Option<LegacyContact> {
    if !StartsWith(line, "@contact") then None else LegacyContactAfterKeyword(line[8..])
  }

  function LegacyContactAfterKeyword(s0: string): Option<LegacyContact> {
    var n := LeadingSpace(s0);
    if n == 0 then None
    else
      var s := s0[n..];
      var bar := FindChar(s, '|');
      if bar == |s| then
        if s != [] then Some(LegacyContact(s, "", "", ""))
        else if n >= 2 then Some(LegacyContact([s0[n - 1]], "", "", ""))
        else None
      else
        match ContactFields(s[bar + 1..])
        case None => None
        case Some(f) =>
          if bar > 0 then Some(LegacyContact(TrimEnd(s[..bar]), f.0, f.1, f.2))
          else if n >= 2 then Some(LegacyContact([s0[n - 1]], f.0, f.1, f.2))
          else None
  }

  // ---------------------------------------------------------------------------
  // What the recognisers accept, stated from the side of the author

  /** `"text"` */
  function Quoted(text: string): string { "\"" + text + "\"" }

  /** Arguments written the way an author writes them: quoted, separated by `, `. */
  function RenderArgs(args: seq<string>): string
    decreases |args|
  {
    if args == [] then ""
    else if |args| == 1 then Quoted(args[0])
    else Quoted(args[0]) + ", " + RenderArgs(args[1..])
  }

  predicate NoQuote(args: seq<string>) {
    forall i :: 0 <= i < |args| ==> '"' !in args[i]
  }

  lemma FirstQuotedOf(a: string, after: string)
    requires '"' !in a
    ensures FirstQuoted(Quoted(a) + after) == Some((a, after))
  {
    var t := Quoted(a) + after;
    FindCharExact(t[1..], '"', |a|);
    assert t[1..1 + |a|] == a;
    assert t[2 + |a|..] == after;
  }

  lemma {:induction false} QuotedArgsLast(s: string, a: string)
    requires TrimStart(s) == Quoted(a) && '"' !in a
    ensures QuotedArgs(s) == Some([a])
  {
    assert Quoted(a) + [] == Quoted(a);
    FirstQuotedOf(a, []);
  }

  lemma {:induction false} QuotedArgsCons(s: string, a: string, s2: string, more: seq<string>)
    requires TrimStart(s) == Quoted(a) + ("," + s2) && '"' !in a
    requires QuotedArgs(s2) == Some(more)
    ensures QuotedArgs(s) == Some([a] + more)
  {
    FirstQuotedOf(a, "," + s2);
    LeadingSpaceExact("," + s2, 0);
    assert TrimStart("," + s2)[1..] == s2;
  }

  /** Arguments written with `RenderArgs`, after any white space, are read back unchanged. */
  lemma {:induction false} QuotedArgsOfRendered(pad: string, args: seq<string>)
    requires AllSpace(pad)
    requires |args| >= 1 && NoQuote(args)
    ensures QuotedArgs(pad + RenderArgs(args)) == Some(args)
    decreases |args|
  {
    var a := args[0];
    if |args| == 1 {
      assert args == [a];
      assert RenderArgs(args) == Quoted(a);
      TrimStartPadded(pad, Quoted(a));
      QuotedArgsLast(pad + RenderArgs(args), a);
    } else {
      var s2 := " " + RenderArgs(args[1..]);
      assert RenderArgs(args) == Quoted(a) + ("," + s2);
      TrimStartPadded(pad, Quoted(a) + ("," + s2));
      QuotedArgsOfRendered(" ", args[1..]);
      QuotedArgsCons(pad + RenderArgs(args), a, s2, args[1..]);
      assert [a] + args[1..] == args;
    }
  }

  /** The canonical `#place(...)` line for a placement, bare or quoted. */
  function PlaceLine(p: Placement, quoted: bool): string {
    "#place(" + (if quoted then Quoted(PlacementName(p)) else PlacementName(p)) + ")"
  }

  lemma PlaceWordOf(before: string, word: string, quoted: bool, after: string)
    requires AllSpace(before) && AllSpace(after)
    requires word != [] && AllLetters(word)
    ensures PlaceWord(before + (if quoted then Quoted(word) else word) + after) == Some(word)
  {
    var core := if quoted then Quoted(word) else word;
    TrimStartPadded(before, core + after);
    AppendAssociates(before, core, after);
    TrimEndPadded(core, after);
    assert Trim(before + core + after) == core;
    if quoted {
      assert !AllLetters(core) by { assert core[0] == '"'; }
      assert core[1..|core| - 1] == word;
    }
  }

  /** A `#place` line reads the keyword table on the lower-cased word, whether the
      word is bare or quoted and whatever white space surrounds it. */
  lemma PlaceKeyword(before: string, word: string, quoted: bool, after: string)
    requires AllSpace(before) && AllSpace(after)
    requires word != [] && AllLetters(word)
    ensures ParsePlace("#place(" + (before + (if quoted then Quoted(word) else word) + after) + ")")
      == KeywordPlacement(LowerAscii(word))
  {
    var inner := before + (if quoted then Quoted(word) else word) + after;
    assert CallArguments("#place(" + inner + ")", "#place(") == Some(inner) by {
      CallArgumentsOfCall("#place(", inner);
    }
    assert PlaceWord(inner) == Some(word) by {
      PlaceWordOf(before, word, quoted, after);
    }
  }

  /** Case does not matter in a `#place` word. */
  lemma PlaceIgnoresCase(word1: string, word2: string)
    requires word1 != [] && AllLetters(word1) && word2 != [] && AllLetters(word2)
    requires LowerAscii(word1) == LowerAscii(word2)
    ensures ParsePlace("#place(" + word1 + ")") == ParsePlace("#place(" + word2 + ")")
  {
    assert [] + word1 + [] == word1 && [] + word2 + [] == word2;
    PlaceKeyword([], word1, false, []);
    PlaceKeyword([], word2, false, []);
  }

  /** The keywords of the placements are lower-case letters, so lower-casing keeps them. */
  lemma PlacementNameIsLower(p: Placement)
    ensures PlacementName(p) != [] && AllLetters(PlacementName(p))
    ensures LowerAscii(PlacementName(p)) == PlacementName(p)
  {
    var name := PlacementName(p);
    assert forall i :: 0 <= i < |name| ==> 'a' <= name[i] <= 'z';
    var lower := LowerAscii(name);
    assert |lower| == |name| && forall i :: 0 <= i < |name| ==> lower[i] == name[i];
  }

  /** The keyword table maps each placement's own name back to it. */
  lemma KeywordOfPlacementName(p: Placement)
    ensures KeywordPlacement(PlacementName(p)) == Some(p)
  {
    match p
    case Right =>
    case Left => assert "left" != "float" && "left" != "auto" && "left" != "default";
    case Top => assert "top" != "float" && "top" != "auto" && "top" != "default";
    case Bottom => assert "bottom" != "float" && "bottom" != "auto" && "bottom" != "default";
    case NoPlacement => assert "none" != "float" && "none" != "auto" && "none" != "default";
  }

  lemma PlaceLineOf(name: string, quoted: bool, line: string, result: Option<Placement>)
    requires name != [] && AllLetters(name) && KeywordPlacement(LowerAscii(name)) == result
    requires line == "#place(" + (if quoted then Quoted(name) else name) + ")"
    ensures ParsePlace(line) == result
  {
    var core := if quoted then Quoted(name) else name;
    assert CallArguments(line, "#place(") == Some(core) by {
      CallArgumentsOfCall("#place(", core);
    }
    assert PlaceWord(core) == Some(name) by {
      PlaceWordOf([], name, quoted, []);
      assert [] + core + [] == core;
    }
  }

  /** Every placement is recognised under its own name, bare or quoted. */
  lemma PlaceLineRoundTrip(p: Placement, quoted: bool)
    ensures ParsePlace(PlaceLine(p, quoted)) == Some(p)
  {
    var name := PlacementName(p);
    assert name != [] && AllLetters(name) && KeywordPlacement(LowerAscii(name)) == Some(p) by {
      PlacementNameIsLower(p);
      KeywordOfPlacementName(p);
    }
    PlaceLineOf(name, quoted, PlaceLine(p, quoted), Some(p));
  }

  /** `#qr("url")` for a non-empty url without quotes yields the url. */
  lemma QrRoundTrip(url: string)
    requires url != [] && '"' !in url
    ensures ParseQr("#qr(" + Quoted(url) + ")") == Some(url)
  {
    assert CallArguments("#qr(" + Quoted(url) + ")", "#qr(") == Some(Quoted(url)) by {
      CallArgumentsOfCall("#qr(", Quoted(url));
    }
    assert QuotedArgs(Quoted(url)) == Some([url]) by {
      QuotedArgsOfRendered([], [url]);
      assert [] + RenderArgs([url]) == Quoted(url);
    }
  }

  /** `#event("when", "title", "location")` yields its three arguments. */
  lemma EventRoundTrip(e: EventDirective)
    requires e.when != [] && e.title != []
    requires NoQuote([e.when, e.title, e.location])
    ensures ParseEvent("#event(" + RenderArgs([e.when, e.title, e.location]) + ")") == Some(e)
  {
    var args := [e.when, e.title, e.location];
    var inner := RenderArgs(args);
    assert CallArguments("#event(" + inner + ")", "#event(") == Some(inner) by {
      CallArgumentsOfCall("#event(", inner);
    }
    assert QuotedArgs(inner) == Some(args) by {
      QuotedArgsOfRendered([], args);
      assert [] + inner == inner;
    }
  }

  /** `#contact("name", "phone", "email", "url")` yields its four arguments. */
  lemma ContactRoundTrip(c: ContactDirective)
    requires c.name != []
    requires NoQuote([c.name, c.phone, c.email, c.url])
    ensures ParseContact("#contact(" + RenderArgs([c.name, c.phone, c.email, c.url]) + ")") == Some(c)
  {
    var args := [c.name, c.phone, c.email, c.url];
    var inner := RenderArgs(args);
    assert CallArguments("#contact(" + inner + ")", "#contact(") == Some(inner) by {
      CallArgumentsOfCall("#contact(", inner);
    }
    assert QuotedArgs(inner) == Some(args) by {
      QuotedArgsOfRendered([], args);
      assert [] + inner == inner;
    }
  }

  // ---------------------------------------------------------------------------
  // What the directive recognisers accept

  /** The white space around quoted arguments: two runs per argument, one before
      it and one after it. */
  predicate ArgGaps(gaps: seq<string>, count: nat) {
    |gaps| == 2 * count && forall i :: 0 <= i < |gaps| ==> AllSpace(gaps[i])
  }

  /** Quoted arguments separated by commas, with the white-space runs `gaps` around each. */
  function SpacedArgs(args: seq<string>, gaps: seq<string>): string
    requires |args| >= 1 && |gaps| == 2 * |args|
    decreases |args|
  {
    var first := gaps[0] + Quoted(args[0]) + gaps[1];
    if |args| == 1 then first else first + "," + SpacedArgs(args[1..], gaps[2..])
  }

  lemma CallArgumentsShape(line: string, head: string)
    requires CallArguments(line, head).Some?
    ensures line == head + CallArguments(line, head).value + ")"
  {
    assert line == line[..|head|] + line[|head|..|line| - 1] + [line[|line| - 1]];
  }

  /** `s` is its leading white space followed by what `TrimStart` leaves. */
  lemma TrimStartSplit(s: string) returns (pad: string)
    ensures AllSpace(pad) && s == pad + TrimStart(s)
  {
    var n := LeadingSpace(s);
    pad := s[..n];
    assert s == s[..n] + s[n..];
  }

  /** `s` is its leading white space, what `Trim` leaves and its trailing white space. */
  lemma TrimSplit(s: string) returns (before: string, after: string)
    ensures AllSpace(before) && AllSpace(after) && s == before + Trim(s) + after
  {
    before := TrimStartSplit(s);
    var ts := TrimStart(s);
    var n := |ts| - TrailingSpace(ts);
    after := ts[n..];
    assert ts == ts[..n] + after;
  }

  lemma FirstQuotedShape(t: string)
    requires FirstQuoted(t).Some?
    ensures t == Quoted(FirstQuoted(t).value.0) + FirstQuoted(t).value.1
  {
    var close := 1 + FindChar(t[1..], '"');
    assert t == [t[0]] + t[1..close] + [t[close]] + t[close + 1..];
  }

  /** One step of `QuotedArgs`: white space, the first quoted argument, white space,
      and then nothing or a comma and the text of the remaining arguments. */
  lemma QuotedArgsHead(s: string) returns (g0: string, a: string, g1: string, rest: string)
    requires QuotedArgs(s).Some?
    ensures AllSpace(g0) && AllSpace(g1) && '"' !in a && |rest| < |s|
    ensures s == g0 + Quoted(a) + g1 + rest
    ensures rest == [] ==> QuotedArgs(s) == Some([a])
    ensures rest != [] ==> rest[0] == ',' && QuotedArgs(rest[1..]).Some? && QuotedArgs(s) == Some([a] + QuotedArgs(rest[1..]).value)
  {
    g0 := TrimStartSplit(s);
    var t := TrimStart(s);
    a := FirstQuoted(t).value.0;
    var r := FirstQuoted(t).value.1;
    g1 := TrimStartSplit(r);
    rest := TrimStart(r);
    assert s == g0 + Quoted(a) + g1 + rest by {
      FirstQuotedShape(t);
      QuotedBetween(s, g0, t, a, r, g1, rest);
    }
  }

  lemma QuotedBetween(s: string, g0: string, t: string, a: string, r: string, g1: string, rest: string)
    requires s == g0 + t && t == Quoted(a) + r && r == g1 + rest
    ensures s == g0 + Quoted(a) + g1 + rest
  {
  }

  /** Quoted arguments with white space around the first one. */
  lemma SpacedArgsCons(g0: string, a: string, g1: string, more: seq<string>, gaps': seq<string>)
    requires |more| >= 1 && |gaps'| == 2 * |more|
    ensures SpacedArgs([a] + more, [g0, g1] + gaps') == g0 + Quoted(a) + g1 + ("," + SpacedArgs(more, gaps'))
  {
    var args := [a] + more;
    var gaps := [g0, g1] + gaps';
    assert args[1..] == more && gaps[2..] == gaps';
  }

  /** White space, a quoted argument, white space, a comma and further arguments
      are arguments with white space around each. */
  lemma SpacedArgsStep(s: string, g0: string, a: string, g1: string, rest: string, more: seq<string>, gaps': seq<string>)
    returns (gaps: seq<string>)
    requires AllSpace(g0) && AllSpace(g1) && '"' !in a && NoQuote(more)
    requires |more| >= 1 && ArgGaps(gaps', |more|)
    requires s == g0 + Quoted(a) + g1 + rest && rest != [] && rest[0] == ',' && rest[1..] == SpacedArgs(more, gaps')
    ensures NoQuote([a] + more) && ArgGaps(gaps, |more| + 1) && s == SpacedArgs([a] + more, gaps)
  {
    var args := [a] + more;
    gaps := [g0, g1] + gaps';
    forall i | 2 <= i < |gaps| ensures AllSpace(gaps[i]) {
      assert gaps[i] == gaps'[i - 2];
    }
    assert rest == "," + rest[1..];
    SpacedArgsCons(g0, a, g1, more, gaps');
    forall i | 1 <= i < |args| ensures '"' !in args[i] {
      assert args[i] == more[i - 1];
    }
  }

  /** All `QuotedArgs` accepts is one or more quoted arguments free of `"`,
      separated by commas, with white space around each. */
  lemma {:induction false} QuotedArgsShape(s: string)
    requires QuotedArgs(s).Some?
    ensures var args := QuotedArgs(s).value;
      |args| >= 1 && NoQuote(args) && exists gaps :: ArgGaps(gaps, |args|) && s == SpacedArgs(args, gaps)
    decreases |s|
  {
    var g0, a, g1, rest := QuotedArgsHead(s);
    if rest == [] {
      var gaps := [g0, g1];
      assert ArgGaps(gaps, 1) && s == SpacedArgs([a], gaps);
    } else {
      var more := QuotedArgs(rest[1..]).value;
      QuotedArgsShape(rest[1..]);
      var gaps' :| ArgGaps(gaps', |more|) && rest[1..] == SpacedArgs(more, gaps');
      var gaps := SpacedArgsStep(s, g0, a, g1, rest, more, gaps');
    }
  }

  /** A call whose parentheses hold quoted arguments: the line is the head, the
      arguments with white space around each, and `)`. */
  lemma QuotedCallShape(line: string, head: string) returns (args: seq<string>, gaps: seq<string>)
    requires CallArguments(line, head).Some? && QuotedArgs(CallArguments(line, head).value).Some?
    ensures args == QuotedArgs(CallArguments(line, head).value).value
    ensures |args| >= 1 && NoQuote(args) && ArgGaps(gaps, |args|)
    ensures line == head + SpacedArgs(args, gaps) + ")"
  {
    var inner := CallArguments(line, head).value;
    CallArgumentsShape(line, head);
    QuotedArgsShape(inner);
    args := QuotedArgs(inner).value;
    gaps :| ArgGaps(gaps, |args|) && inner == SpacedArgs(args, gaps);
  }

  /** All `#qr` accepts is `#qr(`, one quoted non-empty payload free of `"` with
      white space around it, and `)`. */
  lemma QrShape(line: string)
    requires ParseQr(line).Some?
    ensures var url := ParseQr(line).value;
      && url != [] && '"' !in url
      && exists before, after :: AllSpace(before) && AllSpace(after) && line == "#qr(" + (before + Quoted(url) + after) + ")"
  {
    var args, gaps := QuotedCallShape(line, "#qr(");
    assert SpacedArgs(args, gaps) == gaps[0] + Quoted(args[0]) + gaps[1];
    assert AllSpace(gaps[0]) && AllSpace(gaps[1]);
  }

  /** All `#event` accepts is `#event(`, two or three quoted arguments separated
      by commas with white space around each, and `)`; the first two are not empty,
      and a missing third one reads as `""`. */
  lemma EventShape(line: string)
    requires ParseEvent(line).Some?
    ensures var e := ParseEvent(line).value;
      && e.when != [] && e.title != []
      && exists args, gaps ::
        && (args == [e.when, e.title, e.location] || (args == [e.when, e.title] && e.location == ""))
        && NoQuote(args) && ArgGaps(gaps, |args|)
        && line == "#event(" + SpacedArgs(args, gaps) + ")"
  {
    var args, gaps := QuotedCallShape(line, "#event(");
    var e := ParseEvent(line).value;
    assert (|args| == 2 || |args| == 3) && e == EventDirective(args[0], args[1], if |args| == 3 then args[2] else "");
    EventArgs(args, e);
  }

  lemma EventArgs(args: seq<string>, e: EventDirective)
    requires (|args| == 2 || |args| == 3) && e == EventDirective(args[0], args[1], if |args| == 3 then args[2] else "")
    ensures args == [e.when, e.title, e.location] || (args == [e.when, e.title] && e.location == "")
  {
  }

  /** All `#contact` accepts is `#contact(`, one to four quoted arguments separated
      by commas with white space around each, and `)`; the name is not empty and
      the missing arguments read as `""`. */
  lemma ContactShape(line: string)
    requires ParseContact(line).Some?
    ensures var c := ParseContact(line).value;
      && c.name != []
      && exists args, gaps ::
        && 1 <= |args| <= 4 && args[0] == c.name
        && c.phone == ArgOrEmpty(args, 1) && c.email == ArgOrEmpty(args, 2) && c.url == ArgOrEmpty(args, 3)
        && NoQuote(args) && ArgGaps(gaps, |args|)
        && line == "#contact(" + SpacedArgs(args, gaps) + ")"
  {
    var args, gaps := QuotedCallShape(line, "#contact(");
  }

  /** All `#place` accepts is `#place(`, a word of letters, bare or quoted, with
      white space around it, and `)`, where the lower-cased word is a keyword of
      the table; the placement is the keyword's. */
  lemma PlaceShape(line: string)
    requires ParsePlace(line).Some?
    ensures exists before, word, after ::
      && AllSpace(before) && AllSpace(after) && word != [] && AllLetters(word)
      && (line == "#place(" + (before + word + after) + ")" || line == "#place(" + (before + Quoted(word) + after) + ")")
      && KeywordPlacement(LowerAscii(word)) == ParsePlace(line)
  {
    var inner := CallArguments(line, "#place(").value;
    CallArgumentsShape(line, "#place(");
    var before, word, after := PlaceWordShape(inner);
    assert ParsePlace(line) == KeywordPlacement(LowerAscii(word));
  }

  /** The word of a `#place` call, bare or quoted, with white space around it. */
  lemma PlaceWordShape(inner: string) returns (before: string, word: string, after: string)
    requires PlaceWord(inner).Some?
    ensures word == PlaceWord(inner).value && word != [] && AllLetters(word) && AllSpace(before) && AllSpace(after)
    ensures inner == before + word + after || inner == before + Quoted(word) + after
  {
    before, after := TrimSplit(inner);
    var core := Trim(inner);
    word := PlaceWord(inner).value;
    if !(core != [] && AllLetters(core)) {
      assert core == [core[0]] + core[1..|core| - 1] + [core[|core| - 1]];
    }
  }

  /** A date alone, or a date, a separator and a time, is read back as written. */
  lemma DateTimeRoundTrip(date: string, sep: char, time: string)
    requires IsDateShape(date) && IsTimeShape(time) && (sep == ' ' || sep == 'T')
    ensures ParseDateTime(date) == Some(DateTime(date, DefaultTime))
    ensures ParseDateTime(date + [sep] + time) == Some(DateTime(date, time))
  {
    var v := date + [sep] + time;
    assert v[..10] == date && v[11..] == time && v[10] == sep;
    assert !IsDateShape(v);
  }

  /** Nothing but a well-formed date, optionally with a time, is accepted. */
  lemma DateTimeOnlyWellFormed(value: string)
    requires ParseDateTime(value).Some?
    ensures var dt := ParseDateTime(value).value;
      value == dt.datePart
      || (value == dt.datePart + [value[10]] + dt.timePart && (value[10] == ' ' || value[10] == 'T'))
  {
    if !IsDateShape(value) {
      assert value == value[..10] + [value[10]] + value[11..];
    }
  }

  /** A legacy event line the way an author writes it; the time and the location are optional. */
  function LegacyEventLine(date: string, time: string, title: string, location: string): string {
    "@event" + (" " + (date + LegacyEventTail(time, title, location)))
  }

  /** What follows the date in `LegacyEventLine`. */
  function LegacyEventTail(time: string, title: string, location: string): string {
    (if time == "" then "" else " " + time) + (" |" + LegacyTitleAndLocation(title, location))
  }

  /** What follows the first bar in `LegacyEventLine`. */
  function LegacyTitleAndLocation(title: string, location: string): string {
    " " + title + (if location == "" then "" else " | " + location)
  }

  lemma DotTailOf(location: string)
    requires location != [] && !IsSpace(location[0]) && NoLineTerminator(location)
    ensures DotTail(" " + location) == Some(location)
  {
    LeadingSpaceExact(" " + location, 1);
    assert (" " + location)[1..] == location;
  }

  lemma TitleAndLocationOf(title: string, location: string)
    requires title != [] && '|' !in title && Trimmed(title)
    requires location == [] || (!IsSpace(location[0]) && NoLineTerminator(location))
    ensures TitleAndLocation(LegacyTitleAndLocation(title, location)) == Some((title, location))
  {
    var tail := if location == "" then "" else " | " + location;
    var rest := " " + title + tail;
    LeadingSpaceExact(rest, 1);
    if location == "" {
      assert rest == " " + title;
      FindCharExact(rest, '|', |rest|);
      assert rest[1..] == title;
    } else {
      FindCharExact(rest, '|', |title| + 2);
      assert rest[|title| + 3..] == " " + location;
      DotTailOf(location);
      assert rest[1..|title| + 2] == title + " ";
      TrimEndPadded(title, " ");
    }
  }

  /** `[ T]HH:MM` right after the date is taken as the time, and nothing else is. */
  lemma LegacyTimeOf(time: string, afterTime: string, afterDate: string)
    requires time == "" || IsTimeShape(time)
    requires |afterTime| >= 2 && afterTime[1] == '|'
    requires afterDate == (if time == "" then "" else " " + time) + afterTime
    ensures var hasTime := |afterDate| >= 6 && (afterDate[0] == ' ' || afterDate[0] == 'T')
      && IsTimeShape(afterDate[1..6]);
      && hasTime == (time != "")
      && (if hasTime then afterDate[6..] else afterDate) == afterTime
      && (hasTime ==> afterDate[1..6] == time)
  {
    if time == "" {
      assert afterDate == afterTime;
    } else {
      assert afterDate[1..6] == time;
      assert afterDate[6..] == afterTime;
    }
  }

  lemma LegacyEventAfterDateOf(date: string, time: string, afterTime: string, afterDate: string,
                               titleAndLocation: string, tl: (string, string))
    requires time == "" || IsTimeShape(time)
    requires TitleAndLocation(titleAndLocation) == Some(tl)
    requires afterTime == " |" + titleAndLocation
    requires afterDate == (if time == "" then "" else " " + time) + afterTime
    ensures LegacyEventAfterDate(date, afterDate) == Some(LegacyEvent(date, time, tl.0, tl.1))
  {
    LegacyTimeOf(time, afterTime, afterDate);
    assert LeadingSpace(afterTime) == 1 by {
      LeadingSpaceExact(afterTime, 1);
    }
    assert afterTime[2..] == titleAndLocation;
  }

  /** A legacy event line written the usual way is read back field by field. */
  lemma LegacyEventRoundTrip(date: string, time: string, title: string, location: string)
    requires IsDateShape(date) && (time == "" || IsTimeShape(time))
    requires title != [] && '|' !in title && Trimmed(title)
    requires location == [] || (!IsSpace(location[0]) && NoLineTerminator(location))
    ensures MatchLegacyEvent(LegacyEventLine(date, time, title, location))
      == Some(LegacyEvent(date, time, title, location))
  {
    var line := LegacyEventLine(date, time, title, location);
    var afterDate := LegacyEventTail(time, title, location);
    var s := line[6..];
    assert line[..6] == "@event" && s == " " + (date + afterDate);
    assert LegacyEventAfterKeyword(s) == LegacyEventAfterDate(date, afterDate) by {
      LeadingSpaceExact(s, 1);
      assert s[1..11] == date;
      assert s[11..] == afterDate;
    }
    var titleAndLocation := LegacyTitleAndLocation(title, location);
    TitleAndLocationOf(title, location);
    LegacyEventAfterDateOf(date, time, " |" + titleAndLocation, afterDate, titleAndLocation, (title, location));
  }

  /** A legacy contact line with every field present, the way an author writes it. */
  function LegacyContactLine(name: string, phone: string, email: string, url: string): string {
    "@contact" + (" " + (name + (" |" + ContactTail(phone, email, url))))
  }

  /** What follows the first bar of `LegacyContactLine`. */
  function ContactTail(phone: string, email: string, url: string): string {
    " " + phone + " | " + email + " | " + url
  }

  /** `x` framed by single spaces, with the leading one dropped by the engine's `\s*`. */
  lemma PaddedFieldTrims(x: string)
    requires Trimmed(x)
    ensures Trim(TrimStart(" " + x + " ")) == x
  {
    TrimOfTrimmed(x);
    if x == [] {
      LeadingSpaceExact(" " + x + " ", 2);
    } else {
      TrimStartPadded(" ", x + " ");
      assert " " + x + " " == " " + (x + " ");
      LeadingSpaceExact(x + " ", 0);
      TrimEndPadded(x, " ");
    }
  }

  lemma ContactFieldsOf(phone: string, email: string, url: string)
    requires '|' !in phone && '|' !in email && IsNonSpaceRun(url)
    ensures ContactFields(" " + phone + " | " + email + " | " + url)
      == Some((TrimStart(" " + phone + " "), TrimStart(" " + email + " "), url))
  {
    var t := " " + phone + " | " + email + " | " + url;
    FindCharExact(t, '|', |phone| + 2);
    var afterFirst := t[|phone| + 3..];
    assert afterFirst == " " + email + " | " + url;
    assert t[..|phone| + 2] == " " + phone + " ";
    FindCharExact(afterFirst, '|', |email| + 2);
    assert afterFirst[..|email| + 2] == " " + email + " ";
    assert afterFirst[|email| + 3..] == " " + url;
    LeadingSpaceExact(" " + url, 1);
    assert (" " + url)[1..] == url;
  }

  lemma LegacyContactAfterKeywordOf(name: string, t: string, s0: string, f: (string, string, string))
    requires name != [] && '|' !in name && Trimmed(name)
    requires s0 == " " + (name + (" |" + t))
    requires ContactFields(t) == Some(f)
    ensures LegacyContactAfterKeyword(s0) == Some(LegacyContact(name, f.0, f.1, f.2))
  {
    LeadingSpaceExact(s0, 1);
    var s := s0[1..];
    assert s == name + " |" + t;
    FindCharExact(s, '|', |name| + 1);
    assert s[..|name| + 1] == name + " ";
    assert s[|name| + 2..] == t;
    TrimEndPadded(name, " ");
  }

  /** A legacy contact line written the usual way yields its fields once trimmed, as
      both consumers of the match read them. */
  lemma LegacyContactRoundTrip(name: string, phone: string, email: string, url: string)
    requires name != [] && '|' !in name && Trimmed(name)
    requires '|' !in phone && Trimmed(phone) && '|' !in email && Trimmed(email)
    requires IsNonSpaceRun(url)
    ensures var m := MatchLegacyContact(LegacyContactLine(name, phone, email, url));
      && m.Some?
      && m.value.name == name && Trim(m.value.phone) == phone
      && Trim(m.value.email) == email && m.value.url == url
  {
    var line := LegacyContactLine(name, phone, email, url);
    var t := ContactTail(phone, email, url);
    var f := (TrimStart(" " + phone + " "), TrimStart(" " + email + " "), url);
    assert line[..8] == "@contact" && line[8..] == " " + (name + (" |" + t));
    ContactFieldsOf(phone, email, url);
    LegacyContactAfterKeywordOf(name, t, line[8..], f);
    PaddedFieldTrims(phone);
    PaddedFieldTrims(email);
  }

  // ---------------------------------------------------------------------------
  // detectPlacement

  /** The placement in force after the given lines: the last one whose trimmed text
      is a recognised place directive decides, and `right` holds before any. */
  function PlacementAfter(lines: seq<string>): Placement {
    if lines == [] then Right
    else
      match ParsePlace(Trim(lines[|lines| - 1]))
      case Some(p) => p
      case None => PlacementAfter(lines[..|lines| - 1])
  }

  /** `detectPlacement(normalizedText)` (lines 196-204). */
  method DetectPlacement(normalizedText: string) returns (placement: Placement)
    ensures placement == PlacementAfter(Lines(normalizedText))
  {
    var lines := Lines(normalizedText);
    placement := Right;
    var i := 0;
    while i < |lines|
      invariant i <= |lines|
      invariant placement == PlacementAfter(lines[..i])
    {
      assert lines[..i + 1][..i] == lines[..i];
      var candidate := ParsePlace(Trim(lines[i]));
      if candidate.Some? {
        placement := candidate.value;
      }
      i := i + 1;
    }
    assert lines[..i] == lines;
  }

  /** The last recognised place directive wins. */
  lemma {:induction false} LastPlaceDirectiveWins(lines: seq<string>, k: nat)
    requires k < |lines| && ParsePlace(Trim(lines[k])).Some?
    requires forall j :: k < j < |lines| ==> ParsePlace(Trim(lines[j])).None?
    ensures PlacementAfter(lines) == ParsePlace(Trim(lines[k])).value
    decreases |lines|
  {
    if k < |lines| - 1 {
      var init := lines[..|lines| - 1];
      assert init[k] == lines[k];
      LastPlaceDirectiveWins(init, k);
    }
  }

  /** Without any recognised place directive the placement is `right`. */
  lemma {:induction false} NoPlaceDirectiveMeansRight(lines: seq<string>)
    requires forall j :: 0 <= j < |lines| ==> ParsePlace(Trim(lines[j])).None?
    ensures PlacementAfter(lines) == Right
    decreases |lines|
  {
    if lines != [] {
      NoPlaceDirectiveMeansRight(lines[..|lines| - 1]);
    }
  }
}
