/** The payloads behind event and contact artifacts (authoring_preview.js lines
    358-382): a minimal iCalendar VEVENT (section 3.6.1 of RFC 5545) and a minimal
    vCard 3.0 (RFC 2426). Lines are joined with a bare LF, and values are neither
    escaped nor folded, exactly as the builders do. */
module Payloads {
  import opened JsText
  import opened Directives

  // ---------------------------------------------------------------------------
  // iCalendar

  /** The `DTSTART` value: the date without its hyphens, `T`, the time (`09:00` when
      empty) without its first colon, and `00` seconds. */
  function DtStart(datePart: string, timePart: string): string {
    RemoveAll(datePart, '-') + "T" + RemoveFirst(if timePart == "" then DefaultTime else timePart, ':') + "00"
  }

  /** The lines of `buildEventPayload`, in their fixed order; `LOCATION` only for a non-empty location. */
  function EventLines(datePart: string, timePart: string, title: string, location: string): seq<string> {
    ["BEGIN:VCALENDAR", "VERSION:2.0", "BEGIN:VEVENT", "DTSTART:" + DtStart(datePart, timePart), "SUMMARY:" + title]
    + (if |location| > 0 then ["LOCATION:" + location] else [])
    + ["END:VEVENT", "END:VCALENDAR"]
  }

  function EventPayload(datePart: string, timePart: string, title: string, location: string): string {
    JoinLines(EventLines(datePart, timePart, title, location))
  }

  /** `buildEventPayload(datePart, timePart, title, location)` (lines 358-373). */
  method BuildEventPayload(datePart: string, timePart: string, title: string, location: string)
    returns (payload: string)
    ensures payload == EventPayload(datePart, timePart, title, location)
  {
    var compactDate := RemoveAll(datePart, '-');
    var compactTime := RemoveFirst(if timePart == "" then DefaultTime else timePart, ':') + "00";
    var dtStart := compactDate + "T" + compactTime;
    assert dtStart == DtStart(datePart, timePart);
    var lines := ["BEGIN:VCALENDAR", "VERSION:2.0", "BEGIN:VEVENT", "DTSTART:" + dtStart, "SUMMARY:" + title];
    if |location| > 0 {
      lines := lines + ["LOCATION:" + location];
    }
    lines := lines + ["END:VEVENT"];
    lines := lines + ["END:VCALENDAR"];
    assert lines == EventLines(datePart, timePart, title, location);
    payload := JoinLines(lines);
  }

  // ---------------------------------------------------------------------------
  // vCard

  /** A property line `NAME:value`, present only for a non-empty value. */
  function OptionalProperty(name: string, value: string): seq<string> {
    if |value| > 0 then [name + value] else []
  }

  /** The lines of `buildContactPayload`, in their fixed order. */
  function ContactLines(name: string, phone: string, email: string, url: string): seq<string> {
    ["BEGIN:VCARD", "VERSION:3.0", "FN:" + name]
    + OptionalProperty("TEL:", phone) + OptionalProperty("EMAIL:", email) + OptionalProperty("URL:", url)
    + ["END:VCARD"]
  }

  function ContactPayload(name: string, phone: string, email: string, url: string): string {
    JoinLines(ContactLines(name, phone, email, url))
  }

  /** `buildContactPayload(name, phone, email, url)` (lines 375-382). */
  method BuildContactPayload(name: string, phone: string, email: string, url: string)
    returns (payload: string)
    ensures payload == ContactPayload(name, phone, email, url)
  {
    var lines := ["BEGIN:VCARD", "VERSION:3.0", "FN:" + name];
    if |phone| > 0 {
      lines := lines + ["TEL:" + phone];
    }
    if |email| > 0 {
      lines := lines + ["EMAIL:" + email];
    }
    if |url| > 0 {
      lines := lines + ["URL:" + url];
    }
    lines := lines + ["END:VCARD"];
    assert lines == ContactLines(name, phone, email, url);
    payload := JoinLines(lines);
  }

  // ---------------------------------------------------------------------------
  // Properties

  predicate NoLineFeed(fields: seq<string>) {
    forall i :: 0 <= i < |fields| ==> '\n' !in fields[i]
  }

  /** A text with no LF in any line is split back into the very lines it was joined from. */
  lemma LinesOfJoined(lines: seq<string>)
    requires |lines| >= 1 && NoLineFeed(lines)
    ensures Lines(JoinLines(lines)) == lines
  {
    SplitJoin(lines, '\n');
  }

  lemma NoLineFeedInPrefixed(prefix: string, value: string)
    requires '\n' !in prefix && '\n' !in value
    ensures '\n' !in prefix + value
  {
  }

  /** For a well-formed date and time (or none), `DTSTART` is the basic form
      `YYYYMMDDTHHMMSS` of section 3.3.5 of RFC 5545, built from the same digits. */
  lemma DtStartIsBasicForm(datePart: string, timePart: string)
    requires IsDateShape(datePart) && (timePart == "" || IsTimeShape(timePart))
    ensures var t := if timePart == "" then DefaultTime else timePart;
      DtStart(datePart, timePart)
        == datePart[0..4] + datePart[5..7] + datePart[8..10] + "T" + t[0..2] + t[3..5] + "00"
  {
    var t := if timePart == "" then DefaultTime else timePart;
    RemoveAllOfDate(datePart);
    RemoveFirstOfTime(t);
  }

  lemma RemoveAllOfDate(d: string)
    requires IsDateShape(d)
    ensures RemoveAll(d, '-') == d[0..4] + d[5..7] + d[8..10]
  {
    var a, b, c := d[0..4], d[5..7], d[8..10];
    assert d == a + ("-" + (b + ("-" + c)));
    assert '-' !in a && '-' !in b && '-' !in c;
    RemoveAllOfHyphenated(a, b, c);
  }

  lemma RemoveAllOfHyphenated(a: string, b: string, c: string)
    requires '-' !in a && '-' !in b && '-' !in c
    ensures RemoveAll(a + ("-" + (b + ("-" + c))), '-') == a + b + c
  {
    assert RemoveAll("-", '-') == [];
    assert RemoveAll(a, '-') == a by { RemoveAllNoMatch(a, '-'); }
    assert RemoveAll(b, '-') == b by { RemoveAllNoMatch(b, '-'); }
    assert RemoveAll(c, '-') == c by { RemoveAllNoMatch(c, '-'); }
    var tail := "-" + c;
    assert RemoveAll(tail, '-') == c by { RemoveAllAppend("-", c, '-'); }
    assert RemoveAll(b + tail, '-') == b + c by { RemoveAllAppend(b, tail, '-'); }
    var mid := "-" + (b + tail);
    assert RemoveAll(mid, '-') == b + c by { RemoveAllAppend("-", b + tail, '-'); }
    assert RemoveAll(a + mid, '-') == a + (b + c) by { RemoveAllAppend(a, mid, '-'); }
  }

  lemma {:induction false} RemoveAllAppend(a: string, b: string, x: char)
    ensures RemoveAll(a + b, x) == RemoveAll(a, x) + RemoveAll(b, x)
  {
    if a == [] {
      assert a + b == b;
    } else {
      assert (a + b)[1..] == a[1..] + b;
      RemoveAllAppend(a[1..], b, x);
    }
  }

  lemma {:induction false} RemoveAllNoMatch(a: string, x: char)
    requires x !in a
    ensures RemoveAll(a, x) == a
  {
    if a != [] {
      RemoveAllNoMatch(a[1..], x);
      assert [a[0]] + a[1..] == a;
    }
  }

  lemma RemoveFirstOfTime(t: string)
    requires IsTimeShape(t)
    ensures RemoveFirst(t, ':') == t[0..2] + t[3..5]
  {
    assert RemoveFirst(t, ':') == [t[0]] + RemoveFirst(t[1..], ':');
    assert RemoveFirst(t[1..], ':') == [t[1]] + RemoveFirst(t[2..], ':');
    assert RemoveFirst(t[2..], ':') == t[3..];
  }

  /** The event payload splits back into its fixed lines: the calendar and event
      headers, `DTSTART`, `SUMMARY`, a `LOCATION` line exactly when the location is
      non-empty, and the two closing lines. */
  lemma EventPayloadLines(datePart: string, timePart: string, title: string, location: string)
    requires '\n' !in datePart && '\n' !in timePart && '\n' !in title && '\n' !in location
    ensures var ls := Lines(EventPayload(datePart, timePart, title, location));
      && ls == EventLines(datePart, timePart, title, location)
      && ls[..3] == ["BEGIN:VCALENDAR", "VERSION:2.0", "BEGIN:VEVENT"]
      && ls[3] == "DTSTART:" + DtStart(datePart, timePart)
      && ls[4] == "SUMMARY:" + title
      && (|ls| == 8 <==> location != "")
      && (location != "" ==> ls[5] == "LOCATION:" + location)
      && ls[|ls| - 2..] == ["END:VEVENT", "END:VCALENDAR"]
  {
    var lines := EventLines(datePart, timePart, title, location);
    assert '\n' !in DtStart(datePart, timePart) by {
      var t := if timePart == "" then DefaultTime else timePart;
      RemoveAllKeepsOut(datePart, '-', '\n');
      RemoveFirstKeepsOut(t, ':', '\n');
    }
    assert NoLineFeed(lines);
    LinesOfJoined(lines);
  }

  lemma {:induction false} RemoveAllKeepsOut(s: string, x: char, c: char)
    requires c !in s
    ensures c !in RemoveAll(s, x)
  {
    if s != [] {
      RemoveAllKeepsOut(s[1..], x, c);
    }
  }

  lemma {:induction false} RemoveFirstKeepsOut(s: string, x: char, c: char)
    requires c !in s
    ensures c !in RemoveFirst(s, x)
  {
    if s != [] && s[0] != x {
      RemoveFirstKeepsOut(s[1..], x, c);
    }
  }

  /** A line that differs from `prefix` at some position inside it does not start with it. */
  lemma DiffersAt(line: string, prefix: string, k: nat)
    requires k < |prefix| && k < |line| && line[k] != prefix[k]
    ensures !StartsWith(line, prefix)
  {
    if |prefix| <= |line| {
      assert line[..|prefix|][k] != prefix[k];
    }
  }

  /** The lines a property can start: `TEL:`, `EMAIL:` or `URL:` opens no other line. */
  lemma PropertyLineUnique(ls: seq<string>, name: string, phone: string, email: string, url: string, i: nat)
    requires ls == ContactLines(name, phone, email, url) && i < |ls|
    ensures StartsWith(ls[i], "TEL:") ==> phone != "" && ls[i] == "TEL:" + phone
    ensures StartsWith(ls[i], "EMAIL:") ==> email != "" && ls[i] == "EMAIL:" + email
    ensures StartsWith(ls[i], "URL:") ==> url != "" && ls[i] == "URL:" + url
  {
    var tel := OptionalProperty("TEL:", phone);
    var mail := OptionalProperty("EMAIL:", email);
    var web := OptionalProperty("URL:", url);
    var line := ls[i];
    if i < 3 {
      assert line == ["BEGIN:VCARD", "VERSION:3.0", "FN:" + name][i];
      assert line[0] in "BVF";
      DiffersAt(line, "TEL:", 0);
      DiffersAt(line, "EMAIL:", 0);
      DiffersAt(line, "URL:", 0);
    } else if i < 3 + |tel| {
      assert line == "TEL:" + phone && phone != "";
      DiffersAt(line, "EMAIL:", 0);
      DiffersAt(line, "URL:", 0);
    } else if i < 3 + |tel| + |mail| {
      assert line == "EMAIL:" + email && email != "";
      DiffersAt(line, "TEL:", 0);
      DiffersAt(line, "URL:", 0);
    } else if i < 3 + |tel| + |mail| + |web| {
      assert line == "URL:" + url && url != "";
      DiffersAt(line, "TEL:", 0);
      DiffersAt(line, "EMAIL:", 0);
    } else {
      assert line == "END:VCARD";
      DiffersAt(line, "TEL:", 0);
      DiffersAt(line, "EMAIL:", 1);
      DiffersAt(line, "URL:", 0);
    }
  }

  /** Each optional property line (`TEL`, `EMAIL`, `URL`) of a vCard is present
      exactly when its field is non-empty. */
  lemma PropertyPresentIffNonEmpty(name: string, phone: string, email: string, url: string)
    ensures var ls := ContactLines(name, phone, email, url);
      && ((exists i :: 0 <= i < |ls| && StartsWith(ls[i], "TEL:")) <==> phone != "")
      && ((exists i :: 0 <= i < |ls| && StartsWith(ls[i], "EMAIL:")) <==> email != "")
      && ((exists i :: 0 <= i < |ls| && StartsWith(ls[i], "URL:")) <==> url != "")
  {
    var ls := ContactLines(name, phone, email, url);
    var tel := OptionalProperty("TEL:", phone);
    var mail := OptionalProperty("EMAIL:", email);
    forall i | 0 <= i < |ls|
      ensures StartsWith(ls[i], "TEL:") ==> phone != ""
      ensures StartsWith(ls[i], "EMAIL:") ==> email != ""
      ensures StartsWith(ls[i], "URL:") ==> url != ""
    {
      PropertyLineUnique(ls, name, phone, email, url, i);
    }
    if phone != "" {
      assert StartsWith(ls[3], "TEL:");
    }
    if email != "" {
      assert StartsWith(ls[3 + |tel|], "EMAIL:");
    }
    if url != "" {
      assert StartsWith(ls[3 + |tel| + |mail|], "URL:");
    }
  }

  /** The contact payload splits back into its lines: the vCard header, `FN`, the
      optional properties and `END:VCARD`. */
  lemma ContactPayloadLines(name: string, phone: string, email: string, url: string)
    requires '\n' !in name && '\n' !in phone && '\n' !in email && '\n' !in url
    ensures var ls := Lines(ContactPayload(name, phone, email, url));
      && ls == ContactLines(name, phone, email, url)
      && ls[..3] == ["BEGIN:VCARD", "VERSION:3.0", "FN:" + name]
      && ls[|ls| - 1] == "END:VCARD"
  {
    var ls := ContactLines(name, phone, email, url);
    assert NoLineFeed(ls);
    LinesOfJoined(ls);
  }
}
