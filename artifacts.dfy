/** Artifact extraction (`detectArtifacts`, authoring_preview.js lines 384-452) and
    `compactLabel` (lines 70-73): the links, QR codes, events and contacts found in
    the normalised text, in scan order, without repeats, at most eight. */
module Artifacts {
  import opened JsText
  import opened Directives
  import opened Payloads

  datatype ArtifactKind = Url | Qr | Event | Contact

  datatype Artifact = Artifact(kind: ArtifactKind, title: string, payload: string)

  /** The artifact cap of `detectArtifacts`. */
  const MaxArtifacts: nat := 8

  /** The label width used for QR titles. */
  const QrLabelWidth: int := 28

  function KindName(k: ArtifactKind): string {
    match k
    case Url => "url"
    case Qr => "qr"
    case Event => "event"
    case Contact => "contact"
  }

  /** The de-duplication key of line 389: `kind + "::" + payload`. */
  function Key(a: Artifact): string {
    KindName(a.kind) + "::" + a.payload
  }

  // ---------------------------------------------------------------------------
  // compactLabel

  /** `compactLabel(text, maxLen)`: the text itself when it fits, otherwise its first
      `maxLen - 1` characters (none when `maxLen` is below one) and an ellipsis. */
  function CompactLabel(text: string, maxLen: int): (r: string)
    ensures |r| <= if maxLen >= 1 then maxLen else 1
  {
    if |text| <= maxLen then text
    else text[..if maxLen - 1 >= 0 then maxLen - 1 else 0] + "…"
  }

  /** A label is left alone exactly when it fits; a shortened label keeps the start
      of the text and ends with the ellipsis, in exactly `maxLen` characters. */
  lemma CompactLabelShape(text: string, maxLen: int)
    requires maxLen >= 1
    ensures CompactLabel(text, maxLen) == text <==> |text| <= maxLen
    ensures |text| > maxLen ==>
      var r := CompactLabel(text, maxLen);
      |r| == maxLen && r[..maxLen - 1] == text[..maxLen - 1] && r[maxLen - 1] == '…'
  {
    if |text| > maxLen {
      assert |CompactLabel(text, maxLen)| == maxLen;
    }
  }

  // ---------------------------------------------------------------------------
  // Scanning for links

  /** Length of the run of `s` that `[^)\s]+` takes. */
  function LinkTargetRun(s: string): (n: nat)
    ensures n <= |s|
    ensures forall i :: 0 <= i < n ==> s[i] != ')' && !IsSpace(s[i])
    ensures n < |s| ==> s[n] == ')' || IsSpace(s[n])
  {
    if s == [] || s[0] == ')' || IsSpace(s[0]) then 0 else 1 + LinkTargetRun(s[1..])
  }

  /** Length of the run of `s` that `[^\s<>()]+` takes. */
  predicate IsRawUrlChar(c: char) { !IsSpace(c) && c != '<' && c != '>' && c != '(' && c != ')' }

  function RawUrlRun(s: string): (n: nat)
    ensures n <= |s|
    ensures forall i :: 0 <= i < n ==> IsRawUrlChar(s[i])
    ensures n < |s| ==> !IsRawUrlChar(s[n])
  {
    if s == [] || !IsRawUrlChar(s[0]) then 0 else 1 + RawUrlRun(s[1..])
  }

  /** The length of the `https?://` that opens `s`, or 0. `s?` is greedy, and giving
      the `s` back cannot help, since `http` would then need a colon where the `s` is. */
  function SchemeLength(s: string): (n: nat)
    ensures n == 0 || n == 7 || n == 8
    ensures n <= |s|
  {
    if StartsWith(s, "https://") then 8 else if StartsWith(s, "http://") then 7 else 0
  }

  /** The target of a link: `http://` or `https://` and a non-empty run of
      characters that are neither white space nor `)`. */
  predicate IsLinkTarget(url: string) {
    var n := SchemeLength(url);
    n > 0 && n < |url| && forall i :: n <= i < |url| ==> url[i] != ')' && !IsSpace(url[i])
  }

  /** `\[([^\]]+)\]\((https?:\/\/[^)\s]+)\)` tried at position `i`: the label, the
      target and the position after the match. The label runs to the first `]`,
      since `[^\]]+` cannot stop before one; the target run must end at `)`. */
  function MarkdownLinkAt(text: string, i: nat): (r: Option<(string, string, nat)>)
    ensures r.Some? ==> i < r.value.2 <= |text|
    ensures r.Some? ==> r.value.0 != [] && ']' !in r.value.0 && IsLinkTarget(r.value.1)
  {
    if i >= |text| || text[i] != '[' then None
    else
      var j := i + 1 + FindChar(text[i + 1..], ']');
      if j == i + 1 || j + 1 >= |text| || text[j + 1] != '(' then None
      else
        var rest := text[j + 2..];
        var scheme := SchemeLength(rest);
        if scheme == 0 then None
        else
          var run := LinkTargetRun(rest[scheme..]);
          if run == 0 || scheme + run >= |rest| || rest[scheme + run] != ')' then None
          else
            LinkTargetOf(rest, scheme, run);
            Some((text[i + 1..j], rest[..scheme + run], j + 2 + scheme + run + 1))
  }

  /** Cutting a text after its scheme keeps the scheme. */
  lemma SchemeOfPrefix(s: string, n: nat)
    requires SchemeLength(s) < n <= |s|
    ensures SchemeLength(s[..n]) == SchemeLength(s)
  {
    assert s[..n][..SchemeLength(s)] == s[..SchemeLength(s)];
    if n >= 8 {
      assert s[..n][..8] == s[..8];
    }
  }

  lemma LinkTargetOf(rest: string, scheme: nat, run: nat)
    requires scheme == SchemeLength(rest) && scheme > 0
    requires run == LinkTargetRun(rest[scheme..]) && run > 0
    ensures IsLinkTarget(rest[..scheme + run])
  {
    SchemeOfPrefix(rest, scheme + run);
    assert forall k :: 0 <= k < run ==> rest[..scheme + run][scheme + k] == rest[scheme..][k];
  }

  /** `\bhttps?:\/\/[^\s<>()]+` tried at position `i`: the URL and the position after
      it. The URL opens with a word character, so `\b` holds when `i` is the start
      of the text or follows a character that is not a word character. */
  function RawUrlAt(text: string, i: nat): (r: Option<(string, nat)>)
    ensures r.Some? ==> i < r.value.1 <= |text|
    ensures r.Some? ==> SchemeLength(r.value.0) > 0 && |r.value.0| > SchemeLength(r.value.0)
  {
    if i >= |text| || (i > 0 && IsWordChar(text[i - 1])) then None
    else
      var rest := text[i..];
      var scheme := SchemeLength(rest);
      if scheme == 0 then None
      else
        var run := RawUrlRun(rest[scheme..]);
        if run == 0 then None
        else
          SchemeOfPrefix(rest, scheme + run);
          Some((rest[..scheme + run], i + scheme + run))
  }

  /** The `exec` loop over Markdown links from position `i`: the leftmost match, then
      the search resumes after it. */
  function MarkdownLinksFrom(text: string, i: nat): seq<Artifact>
    decreases |text| - i
  {
    if i >= |text| then []
    else match MarkdownLinkAt(text, i)
      case Some(m) => [Artifact(Url, m.0, m.1)] + MarkdownLinksFrom(text, m.2)
      case None => MarkdownLinksFrom(text, i + 1)
  }

  /** The `exec` loop over bare URLs from position `i`. */
  function RawUrlsFrom(text: string, i: nat): seq<Artifact>
    decreases |text| - i
  {
    if i >= |text| then []
    else match RawUrlAt(text, i)
      case Some(m) => [Artifact(Url, m.0, m.0)] + RawUrlsFrom(text, m.1)
      case None => RawUrlsFrom(text, i + 1)
  }

  // ---------------------------------------------------------------------------
  // Per-line directives

  const FallbackDate: string := "1970-01-01"

  function QrCandidates(line: string): seq<Artifact> {
    match ParseQr(line)
    case Some(url) => [Artifact(Qr, CompactLabel(url, QrLabelWidth), url)]
    case None => []
  }

  /** An unparseable date falls back to `1970-01-01` at `09:00`. */
  function EventCandidates(line: string): seq<Artifact> {
    match ParseEvent(line)
    case Some(e) =>
      var parsed := ParseDateTime(e.when);
      var datePart := if parsed.Some? then parsed.value.datePart else FallbackDate;
      var timePart := if parsed.Some? then parsed.value.timePart else DefaultTime;
      [Artifact(Event, e.title, EventPayload(datePart, timePart, e.title, e.location))]
    case None => []
  }

  function ContactCandidates(line: string): seq<Artifact> {
    match ParseContact(line)
    case Some(c) => [Artifact(Contact, c.name, ContactPayload(c.name, c.phone, c.email, c.url))]
    case None => []
  }

  function LegacyEventCandidates(line: string): seq<Artifact> {
    match MatchLegacyEvent(line)
    case Some(m) =>
      var title := Trim(m.title);
      var payload := EventPayload(m.date, if m.time == "" then DefaultTime else m.time, title, Trim(m.location));
      [Artifact(Event, title + " (legacy)", payload)]
    case None => []
  }

  function LegacyContactCandidates(line: string): seq<Artifact> {
    match MatchLegacyContact(line)
    case Some(m) =>
      var name := Trim(m.name);
      [Artifact(Contact, name + " (legacy)", ContactPayload(name, Trim(m.phone), Trim(m.email), Trim(m.url)))]
    case None => []
  }

  /** What one trimmed line offers, in the order the source tries the forms. */
  function LineCandidates(line: string): seq<Artifact> {
    QrCandidates(line) + EventCandidates(line) + ContactCandidates(line)
    + LegacyEventCandidates(line) + LegacyContactCandidates(line)
  }

  /** The line candidates of all lines, first line first. */
  function LinesCandidates(lines: seq<string>): seq<Artifact> {
    if lines == [] then [] else LineCandidates(Trim(lines[0])) + LinesCandidates(lines[1..])
  }

  /** Every artifact `detectArtifacts` offers to `push`, in scan order. */
  function Candidates(normalized: string): seq<Artifact> {
    MarkdownLinksFrom(normalized, 0) + RawUrlsFrom(normalized, 0) + LinesCandidates(Lines(normalized))
  }

  // ---------------------------------------------------------------------------
  // push and the de-duplication

  datatype Collected = Collected(seen: set<string>, artifacts: seq<Artifact>)

  const NothingCollected: Collected := Collected({}, [])

  /** `push`: an artifact whose key was seen is skipped; otherwise its key is recorded and it is appended. */
  function PushStep(st: Collected, a: Artifact): Collected {
    if Key(a) in st.seen then st else Collected(st.seen + {Key(a)}, st.artifacts + [a])
  }

  function PushAll(st: Collected, cands: seq<Artifact>): Collected
    decreases |cands|
  {
    if cands == [] then st else PushAll(PushStep(st, cands[0]), cands[1..])
  }

  /** What `detectArtifacts` returns: the de-duplicated candidates, the first eight. */
  function DetectedArtifacts(normalized: string): seq<Artifact> {
    Capped(PushAll(NothingCollected, Candidates(normalized)).artifacts)
  }

  /** `artifacts.slice(0, 8)`. */
  function Capped(all: seq<Artifact>): seq<Artifact> {
    if |all| <= MaxArtifacts then all else all[..MaxArtifacts]
  }

  method Push(seen: set<string>, artifacts: seq<Artifact>, a: Artifact)
    returns (seen': set<string>, artifacts': seq<Artifact>)
    ensures Collected(seen', artifacts') == PushStep(Collected(seen, artifacts), a)
  {
    var key := KindName(a.kind) + "::" + a.payload;
    if key in seen {
      return seen, artifacts;
    }
    seen' := seen + {key};
    artifacts' := artifacts + [a];
  }

  lemma {:induction false} PushAllAppend(st: Collected, a: seq<Artifact>, b: seq<Artifact>)
    ensures PushAll(st, a + b) == PushAll(PushAll(st, a), b)
    decreases |a|
  {
    if a != [] {
      assert (a + b)[0] == a[0];
      assert (a + b)[1..] == a[1..] + b;
      assert PushAll(st, a + b) == PushAll(PushStep(st, a[0]), a[1..] + b);
      PushAllAppend(PushStep(st, a[0]), a[1..], b);
    } else {
      assert a + b == b;
    }
  }

  lemma PushAllSingle(st: Collected, a: Artifact)
    ensures PushAll(st, [a]) == PushStep(st, a)
  {
    assert [a][1..] == [];
  }

  /** The Markdown-link `exec` loop: from the current state, what is still to be
      found leads to the same state as scanning the whole text. */
  method CollectMarkdownLinks(text: string, seen: set<string>, artifacts: seq<Artifact>)
    returns (seen': set<string>, artifacts': seq<Artifact>)
    ensures Collected(seen', artifacts') == PushAll(Collected(seen, artifacts), MarkdownLinksFrom(text, 0))
  {
    seen', artifacts' := seen, artifacts;
    var i := 0;
    while i < |text|
      invariant 0 <= i <= |text|
      invariant PushAll(Collected(seen', artifacts'), MarkdownLinksFrom(text, i))
        == PushAll(Collected(seen, artifacts), MarkdownLinksFrom(text, 0))
      decreases |text| - i
    {
      var m := MarkdownLinkAt(text, i);
      MarkdownScanStep(text, i, Collected(seen', artifacts'));
      if m.Some? {
        seen', artifacts' := Push(seen', artifacts', Artifact(Url, m.value.0, m.value.1));
        i := m.value.2;
      } else {
        i := i + 1;
      }
    }
  }

  /** The bare-URL `exec` loop. */
  method CollectRawUrls(text: string, seen: set<string>, artifacts: seq<Artifact>)
    returns (seen': set<string>, artifacts': seq<Artifact>)
    ensures Collected(seen', artifacts') == PushAll(Collected(seen, artifacts), RawUrlsFrom(text, 0))
  {
    seen', artifacts' := seen, artifacts;
    var i := 0;
    while i < |text|
      invariant 0 <= i <= |text|
      invariant PushAll(Collected(seen', artifacts'), RawUrlsFrom(text, i))
        == PushAll(Collected(seen, artifacts), RawUrlsFrom(text, 0))
      decreases |text| - i
    {
      var m := RawUrlAt(text, i);
      RawScanStep(text, i, Collected(seen', artifacts'));
      if m.Some? {
        seen', artifacts' := Push(seen', artifacts', Artifact(Url, m.value.0, m.value.0));
        i := m.value.1;
      } else {
        i := i + 1;
      }
    }
  }

  /** One step of the scan from position `i`. */
  lemma MarkdownScanStep(text: string, i: nat, st: Collected)
    requires i < |text|
    ensures var m := MarkdownLinkAt(text, i);
      && (m.Some? ==> PushAll(st, MarkdownLinksFrom(text, i)) == PushAll(PushStep(st, Artifact(Url, m.value.0, m.value.1)), MarkdownLinksFrom(text, m.value.2)))
      && (m.None? ==> MarkdownLinksFrom(text, i) == MarkdownLinksFrom(text, i + 1))
  {
    var m := MarkdownLinkAt(text, i);
    if m.Some? {
      var a := Artifact(Url, m.value.0, m.value.1);
      var rest := MarkdownLinksFrom(text, m.value.2);
      assert MarkdownLinksFrom(text, i) == [a] + rest;
      assert ([a] + rest)[1..] == rest;
    }
  }

  /** One step of the scan from position `i`. */
  lemma RawScanStep(text: string, i: nat, st: Collected)
    requires i < |text|
    ensures var m := RawUrlAt(text, i);
      && (m.Some? ==> PushAll(st, RawUrlsFrom(text, i)) == PushAll(PushStep(st, Artifact(Url, m.value.0, m.value.0)), RawUrlsFrom(text, m.value.1)))
      && (m.None? ==> RawUrlsFrom(text, i) == RawUrlsFrom(text, i + 1))
  {
    var m := RawUrlAt(text, i);
    if m.Some? {
      var a := Artifact(Url, m.value.0, m.value.0);
      var rest := RawUrlsFrom(text, m.value.1);
      assert RawUrlsFrom(text, i) == [a] + rest;
      assert ([a] + rest)[1..] == rest;
    }
  }

  /** Pushes what an optional candidate holds (none or one artifact). */
  method PushCandidates(seen: set<string>, artifacts: seq<Artifact>, cands: seq<Artifact>)
    returns (seen': set<string>, artifacts': seq<Artifact>)
    requires |cands| <= 1
    ensures Collected(seen', artifacts') == PushAll(Collected(seen, artifacts), cands)
  {
    if cands == [] {
      return seen, artifacts;
    }
    PushAllSingle(Collected(seen, artifacts), cands[0]);
    assert cands == [cands[0]];
    seen', artifacts' := Push(seen, artifacts, cands[0]);
  }

  /** The body of the `forEach` over lines: the five directive forms of one trimmed line. */
  method CollectLine(line: string, seen: set<string>, artifacts: seq<Artifact>)
    returns (seen': set<string>, artifacts': seq<Artifact>)
    ensures Collected(seen', artifacts') == PushAll(Collected(seen, artifacts), LineCandidates(line))
  {
    ghost var st0 := Collected(seen, artifacts);
    var qr := QrCandidates(line);
    var ev := EventCandidates(line);
    var ct := ContactCandidates(line);
    var le := LegacyEventCandidates(line);
    var lc := LegacyContactCandidates(line);
    seen', artifacts' := PushCandidates(seen, artifacts, qr);
    seen', artifacts' := PushCandidates(seen', artifacts', ev);
    PushAllAppend(st0, qr, ev);
    seen', artifacts' := PushCandidates(seen', artifacts', ct);
    PushAllAppend(st0, qr + ev, ct);
    seen', artifacts' := PushCandidates(seen', artifacts', le);
    PushAllAppend(st0, qr + ev + ct, le);
    seen', artifacts' := PushCandidates(seen', artifacts', lc);
    PushAllAppend(st0, qr + ev + ct + le, lc);
  }

  /** `detectArtifacts(normalized)`, with its `seen` set and `artifacts` list. */
  method DetectArtifacts(normalized: string) returns (result: seq<Artifact>)
    ensures result == DetectedArtifacts(normalized)
  {
    var seen: set<string> := {};
    var artifacts: seq<Artifact> := [];
    seen, artifacts := CollectMarkdownLinks(normalized, seen, artifacts);
    ghost var afterLinks := Collected(seen, artifacts);
    seen, artifacts := CollectRawUrls(normalized, seen, artifacts);
    ghost var afterUrls := Collected(seen, artifacts);
    var lines := Lines(normalized);
    var k := 0;
    while k < |lines|
      invariant 0 <= k <= |lines|
      invariant PushAll(Collected(seen, artifacts), LinesCandidates(lines[k..])) == PushAll(afterUrls, LinesCandidates(lines))
    {
      assert lines[k..][1..] == lines[k + 1..];
      PushAllAppend(Collected(seen, artifacts), LineCandidates(Trim(lines[k])), LinesCandidates(lines[k + 1..]));
      seen, artifacts := CollectLine(Trim(lines[k]), seen, artifacts);
      k := k + 1;
    }
    assert lines[k..] == [];
    PushAllAppend(NothingCollected, MarkdownLinksFrom(normalized, 0), RawUrlsFrom(normalized, 0));
    PushAllAppend(NothingCollected, MarkdownLinksFrom(normalized, 0) + RawUrlsFrom(normalized, 0), LinesCandidates(lines));
    result := if |artifacts| <= 8 then artifacts else artifacts[..8];
  }

  // ---------------------------------------------------------------------------
  // What the de-duplication keeps

  /** The keys of a list of artifacts. */
  function KeysOf(s: seq<Artifact>): set<string> {
    set a | a in s :: Key(a)
  }

  lemma SnocKeys(s: seq<Artifact>, x: Artifact)
    ensures KeysOf(s + [x]) == KeysOf(s) + {Key(x)}
  {
    forall a | a in s + [x] ensures a in s || a == x {
      var j :| 0 <= j < |s + [x]| && (s + [x])[j] == a;
      if j < |s| { assert s[j] == a; }
    }
  }

  /** The reference for `push`: a candidate is kept exactly when none of the earlier
      candidates has its key, and the kept ones stay in their order. */
  function FirstByKey(cands: seq<Artifact>): seq<Artifact>
    decreases |cands|
  {
    if cands == [] then []
    else
      var n := |cands| - 1;
      FirstByKey(cands[..n]) + (if Key(cands[n]) in KeysOf(cands[..n]) then [] else [cands[n]])
  }

  /** The first candidate, in scan order, whose key is `k`; there is one exactly when
      some candidate has that key. */
  function FirstWithKey(cands: seq<Artifact>, k: string): (r: Option<Artifact>)
    ensures r.Some? <==> k in KeysOf(cands)
    ensures r.Some? ==> r.value in cands && Key(r.value) == k
    decreases |cands|
  {
    if cands == [] then None
    else
      var n := |cands| - 1;
      var earlier := FirstWithKey(cands[..n], k);
      assert cands == cands[..n] + [cands[n]];
      SnocKeys(cands[..n], cands[n]);
      if earlier.Some? then earlier
      else if Key(cands[n]) == k then Some(cands[n])
      else None
  }

  /** Pushing candidates into an empty collection keeps exactly `FirstByKey` of them,
      and remembers the key of every candidate. */
  lemma {:induction false} PushAllIsFirstByKey(cands: seq<Artifact>)
    ensures PushAll(NothingCollected, cands) == Collected(KeysOf(cands), FirstByKey(cands))
    decreases |cands|
  {
    if cands == [] {
      assert KeysOf(cands) == {};
    } else {
      var n := |cands| - 1;
      var p, x := cands[..n], cands[n];
      assert cands == p + [x];
      PushAllIsFirstByKey(p);
      PushAllAppend(NothingCollected, p, [x]);
      PushAllSingle(PushAll(NothingCollected, p), x);
      SnocKeys(p, x);
    }
  }

  /** `FirstByKey` keeps one artifact for every key among the candidates. */
  lemma {:induction false} FirstByKeyKeys(cands: seq<Artifact>)
    ensures KeysOf(FirstByKey(cands)) == KeysOf(cands)
    decreases |cands|
  {
    if cands == [] {
      assert KeysOf(cands) == {};
    } else {
      var n := |cands| - 1;
      var p, x := cands[..n], cands[n];
      assert cands == p + [x];
      FirstByKeyKeys(p);
      SnocKeys(p, x);
      if Key(x) !in KeysOf(p) {
        SnocKeys(FirstByKey(p), x);
      }
    }
  }

  /** Keys are distinct along a list. */
  predicate DistinctKeys(s: seq<Artifact>) {
    forall i, j :: 0 <= i < j < |s| ==> Key(s[i]) != Key(s[j])
  }

  /** The artifacts `FirstByKey` keeps have distinct keys. */
  lemma {:induction false} FirstByKeyDistinct(cands: seq<Artifact>)
    ensures DistinctKeys(FirstByKey(cands))
    decreases |cands|
  {
    if cands != [] {
      var n := |cands| - 1;
      var p, x := cands[..n], cands[n];
      var rp := FirstByKey(p);
      FirstByKeyDistinct(p);
      if Key(x) !in KeysOf(p) {
        FirstByKeyKeys(p);
        var r := rp + [x];
        assert Key(x) !in KeysOf(rp);
        forall i, j | 0 <= i < j < |r| ensures Key(r[i]) != Key(r[j]) {
          if j == |rp| {
            assert r[i] in rp;
          } else {
            assert r[i] == rp[i] && r[j] == rp[j];
          }
        }
      }
    }
  }

  /** Each artifact of `r` is the first candidate with its key. */
  predicate EachFirstWithKey(cands: seq<Artifact>, r: seq<Artifact>) {
    forall i :: 0 <= i < |r| ==> FirstWithKey(cands, Key(r[i])) == Some(r[i])
  }

  /** Every artifact `FirstByKey` keeps is the first candidate with its key. */
  lemma {:induction false} FirstByKeyOrigins(cands: seq<Artifact>)
    ensures EachFirstWithKey(cands, FirstByKey(cands))
    decreases |cands|
  {
    if cands != [] {
      var n := |cands| - 1;
      var p := cands[..n];
      var rp := FirstByKey(p);
      var r := FirstByKey(cands);
      FirstByKeyOrigins(p);
      forall i | 0 <= i < |r| ensures FirstWithKey(cands, Key(r[i])) == Some(r[i]) {
        if i < |rp| {
          assert r[i] == rp[i];
          assert FirstWithKey(p, Key(rp[i])) == Some(rp[i]);
        } else {
          assert r[i] == cands[n];
          assert FirstWithKey(p, Key(cands[n])) == None;
        }
      }
    }
  }

  /** A list of artifacts with distinct keys has as many keys as artifacts. */
  lemma {:induction false} DistinctKeysCount(s: seq<Artifact>)
    requires DistinctKeys(s)
    ensures |KeysOf(s)| == |s|
    decreases |s|
  {
    if s != [] {
      var n := |s| - 1;
      var p := s[..n];
      assert DistinctKeys(p) by {
        PrefixDistinct(s, p);
      }
      DistinctKeysCount(p);
      assert KeysOf(s) == KeysOf(p) + {Key(s[n])} by {
        assert s == p + [s[n]];
        SnocKeys(p, s[n]);
      }
      assert Key(s[n]) !in KeysOf(p) by {
        LastKeyNew(s, p);
      }
    }
  }

  lemma LastKeyNew(s: seq<Artifact>, p: seq<Artifact>)
    requires DistinctKeys(s) && s != [] && p == s[..|s| - 1]
    ensures Key(s[|s| - 1]) !in KeysOf(p)
  {
    forall a | a in p ensures Key(a) != Key(s[|s| - 1]) {
      var j :| 0 <= j < |p| && p[j] == a;
      assert s[j] == a;
    }
  }

  /** A prefix of a list with distinct keys has distinct keys, and its keys are all
      of them when it is the whole list. */
  lemma PrefixDistinct(all: seq<Artifact>, r: seq<Artifact>)
    requires DistinctKeys(all) && r <= all
    ensures DistinctKeys(r)
  {
    forall i, j | 0 <= i < j < |r| ensures Key(r[i]) != Key(r[j]) {
      assert r[i] == all[i] && r[j] == all[j];
    }
  }

  /** `detectArtifacts` returns at most eight artifacts with distinct keys, a prefix of
      the de-duplicated candidates in scan order, each the first candidate with its
      key; when the candidates carry at most eight keys, every key is represented. */
  lemma DetectedArtifactsProperties(normalized: string)
    ensures var cands := Candidates(normalized);
      var r := DetectedArtifacts(normalized);
      && |r| <= MaxArtifacts
      && r <= FirstByKey(cands)
      && DistinctKeys(r)
      && EachFirstWithKey(cands, r)
      && (|KeysOf(cands)| <= MaxArtifacts ==> KeysOf(r) == KeysOf(cands))
  {
    var cands := Candidates(normalized);
    PushAllIsFirstByKey(cands);
    CappedFirstByKey(cands, FirstByKey(cands), DetectedArtifacts(normalized));
  }

  lemma CappedFirstByKey(cands: seq<Artifact>, all: seq<Artifact>, r: seq<Artifact>)
    requires all == FirstByKey(cands) && r == Capped(all)
    ensures && |r| <= MaxArtifacts
      && r <= all
      && DistinctKeys(r)
      && EachFirstWithKey(cands, r)
      && (|KeysOf(cands)| <= MaxArtifacts ==> KeysOf(r) == KeysOf(cands))
  {
    FirstByKeyDistinct(cands);
    FirstByKeyOrigins(cands);
    FirstByKeyKeys(cands);
    assert r <= all && |r| <= MaxArtifacts;
    PrefixDistinct(all, r);
    forall i | 0 <= i < |r| ensures FirstWithKey(cands, Key(r[i])) == Some(r[i]) {
      assert r[i] == all[i];
    }
    if |KeysOf(cands)| <= MaxArtifacts {
      DistinctKeysCount(all);
      assert r == all;
    }
  }

  /** Two artifacts share a key exactly when they have the same kind and the same
      payload: the kind names hold no colon, so the first colon ends the kind. */
  lemma KeyInjective(a: Artifact, b: Artifact)
    ensures Key(a) == Key(b) <==> a.kind == b.kind && a.payload == b.payload
  {
    if Key(a) == Key(b) {
      KeyParts(a);
      KeyParts(b);
      assert KindName(a.kind) == Key(a)[..FindChar(Key(a), ':')];
      assert KindName(a.kind) == KindName(b.kind);
      assert a.kind == b.kind by {
        assert KindName(a.kind)[0] == KindName(b.kind)[0];
      }
      assert a.payload == Key(a)[|KindName(a.kind)| + 2..];
    }
  }

  lemma KeyParts(a: Artifact)
    ensures FindChar(Key(a), ':') == |KindName(a.kind)|
    ensures Key(a)[..|KindName(a.kind)|] == KindName(a.kind)
    ensures Key(a)[|KindName(a.kind)| + 2..] == a.payload
  {
    var name := KindName(a.kind);
    assert Key(a)[..|name|] == name;
    assert Key(a)[|name|] == ':';
    assert ':' !in name;
  }

  // ---------------------------------------------------------------------------
  // What one line and one link yield

  /** Each directive form needs its own opening. */
  lemma CandidateHeads(line: string)
    ensures QrCandidates(line) != [] ==> StartsWith(line, "#qr(")
    ensures EventCandidates(line) != [] ==> StartsWith(line, "#event(")
    ensures ContactCandidates(line) != [] ==> StartsWith(line, "#contact(")
    ensures LegacyEventCandidates(line) != [] ==> StartsWith(line, "@event")
    ensures LegacyContactCandidates(line) != [] ==> StartsWith(line, "@contact")
  {
  }

  /** No line opens with two of the five directive heads. */
  lemma HeadsExclusive(line: string)
    ensures StartsWith(line, "#qr(") ==>
      !StartsWith(line, "#event(") && !StartsWith(line, "#contact(") && !StartsWith(line, "@event") && !StartsWith(line, "@contact")
    ensures StartsWith(line, "#event(") ==>
      !StartsWith(line, "#contact(") && !StartsWith(line, "@event") && !StartsWith(line, "@contact")
    ensures StartsWith(line, "#contact(") ==> !StartsWith(line, "@event") && !StartsWith(line, "@contact")
    ensures StartsWith(line, "@event") ==> !StartsWith(line, "@contact")
  {
    if |line| >= 2 {
      assert StartsWith(line, "#qr(") ==> line[0] == '#' && line[1] == 'q' by {
        if StartsWith(line, "#qr(") { assert line[..4][1] == 'q'; }
      }
      assert StartsWith(line, "#event(") ==> line[0] == '#' && line[1] == 'e' by {
        if StartsWith(line, "#event(") { assert line[..7][1] == 'e'; }
      }
      assert StartsWith(line, "#contact(") ==> line[0] == '#' && line[1] == 'c' by {
        if StartsWith(line, "#contact(") { assert line[..9][1] == 'c'; }
      }
      assert StartsWith(line, "@event") ==> line[0] == '@' && line[1] == 'e' by {
        if StartsWith(line, "@event") { assert line[..6][1] == 'e'; }
      }
      assert StartsWith(line, "@contact") ==> line[0] == '@' && line[1] == 'c' by {
        if StartsWith(line, "@contact") { assert line[..8][1] == 'c'; }
      }
    }
  }

  /** The five directive forms exclude each other, so a line yields at most one artifact. */
  lemma LineCandidatesAtMostOne(line: string)
    ensures |LineCandidates(line)| <= 1
  {
    CandidateHeads(line);
    HeadsExclusive(line);
    assert |QrCandidates(line)| <= 1 && |EventCandidates(line)| <= 1 && |ContactCandidates(line)| <= 1;
    assert |LegacyEventCandidates(line)| <= 1 && |LegacyContactCandidates(line)| <= 1;
  }

  /** A `#qr("…")` line yields one QR artifact: its payload is the URL, its title the
      URL shortened to at most 28 characters. */
  lemma QrLineArtifact(url: string)
    requires url != [] && '"' !in url
    ensures var r := LineCandidates("#qr(" + Quoted(url) + ")");
      && r == [Artifact(Qr, CompactLabel(url, QrLabelWidth), url)]
      && |r[0].title| <= QrLabelWidth
  {
    var line := "#qr(" + Quoted(url) + ")";
    QrRoundTrip(url);
    LineCandidatesAtMostOne(line);
    assert QrCandidates(line) == [Artifact(Qr, CompactLabel(url, QrLabelWidth), url)];
  }

  /** A Markdown link `[label](url)` at position 0 is found, with its label and
      target, whatever follows it. */
  lemma MarkdownLinkFound(caption: string, url: string, rest: string)
    requires caption != [] && ']' !in caption && IsLinkTarget(url)
    ensures var text := "[" + caption + "](" + url + ")" + rest;
      MarkdownLinkAt(text, 0) == Some((caption, url, |caption| + |url| + 4))
  {
    var text := "[" + caption + "](" + url + ")" + rest;
    LinkTextFacts(caption, url, rest, text);
    var scheme := SchemeLength(url);
    MarkdownLinkAtStart(text, 1 + |caption|, text[|caption| + 3..], scheme, |url| - scheme);
  }

  lemma LinkTextFacts(caption: string, url: string, rest: string, text: string)
    requires caption != [] && ']' !in caption && IsLinkTarget(url)
    requires text == "[" + caption + "](" + url + ")" + rest
    ensures var j := 1 + |caption|;
      var tail := text[j + 2..];
      var scheme := SchemeLength(url);
      var run := |url| - scheme;
      && 0 < |text| && text[0] == '['
      && j == 1 + FindChar(text[1..], ']') && j != 1 && j + 1 < |text| && text[j + 1] == '('
      && text[1..j] == caption
      && scheme == SchemeLength(tail) && scheme != 0
      && run == LinkTargetRun(tail[scheme..]) && run != 0 && scheme + run < |tail| && tail[scheme + run] == ')'
      && tail[..scheme + run] == url
  {
    var j := 1 + |caption|;
    var tail := text[j + 2..];
    assert j + 1 < |text| && text[0] == '[' && text[j + 1] == '(' && text[1..j] == caption && tail == url + ")" + rest by {
      assert text == "[" + (caption + "](" + url + ")" + rest);
    }
    assert FindChar(text[1..], ']') == |caption| by {
      CaptionEnds(text[1..], caption, url + ")" + rest);
    }
    LinkTargetInTail(url, rest, tail);
  }

  /** `MarkdownLinkAt` at position 0, unfolded once. */
  lemma MarkdownLinkAtStart(text: string, j: nat, tail: string, scheme: nat, run: nat)
    requires 0 < |text| && text[0] == '['
    requires j == 1 + FindChar(text[1..], ']') && j != 1 && j + 1 < |text| && text[j + 1] == '('
    requires tail == text[j + 2..] && scheme == SchemeLength(tail) && scheme != 0
    requires run == LinkTargetRun(tail[scheme..]) && run != 0 && scheme + run < |tail| && tail[scheme + run] == ')'
    ensures MarkdownLinkAt(text, 0) == Some((text[1..j], tail[..scheme + run], j + 3 + scheme + run))
  {
  }

  lemma CaptionEnds(s: string, caption: string, after: string)
    requires s == caption + "](" + after && ']' !in caption
    ensures FindChar(s, ']') == |caption|
  {
    assert forall k :: 0 <= k < |caption| ==> s[k] == caption[k];
    assert s[|caption|] == ']';
  }

  lemma LinkTargetInTail(url: string, rest: string, tail: string)
    requires tail == url + ")" + rest && IsLinkTarget(url)
    ensures SchemeLength(tail) == SchemeLength(url)
    ensures LinkTargetRun(tail[SchemeLength(url)..]) == |url| - SchemeLength(url)
    ensures tail[..|url|] == url
  {
    var scheme := SchemeLength(url);
    assert tail[..|url|] == url;
    assert tail[..8] == url[..8];
    assert tail[..7] == url[..7];
    assert forall k :: 0 <= k < |url| - scheme ==> tail[scheme..][k] == url[scheme + k];
    assert tail[scheme..][|url| - scheme] == ')';
  }
}
