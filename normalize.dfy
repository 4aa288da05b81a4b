/** The normaliser run on the author's text before anything else
    (`normalize`, authoring_preview.js lines 91-99). */
module Normalizer {
  import opened JsText

  /** `replace(/\r\n?/g, "\n")`: a CR LF pair, or a CR on its own, becomes one LF. */
  function UnifyLineBreaks(s: string): (r: string)
    ensures '\r' !in r
    decreases |s|
  {
    if s == [] then []
    else if s[0] == '\r' then
      "\n" + UnifyLineBreaks(if |s| > 1 && s[1] == '\n' then s[2..] else s[1..])
    else [s[0]] + UnifyLineBreaks(s[1..])
  }

  /** `normalize(text)`: unify line breaks, then strip the trailing white space of every line. */
  function Normalize(text: string): string {
    var lines := Lines(UnifyLineBreaks(text));
    JoinLines(seq(|lines|, i requires 0 <= i < |lines| => TrimEnd(lines[i])))
  }

  /** A line in the form `normalize` leaves it: no trailing white space. */
  predicate IsTrimmedLine(line: string) {
    line == [] || !IsSpace(line[|line| - 1])
  }

  lemma {:induction false} UnifyLineBreaksKeepsPlainText(s: string)
    requires '\r' !in s
    ensures UnifyLineBreaks(s) == s
  {
    if s != [] {
      UnifyLineBreaksKeepsPlainText(s[1..]);
      assert [s[0]] + s[1..] == s;
    }
  }

  lemma TrimEndIsTrimmed(s: string)
    ensures IsTrimmedLine(TrimEnd(s))
    ensures TrimEnd(TrimEnd(s)) == TrimEnd(s)
  {
  }

  lemma {:induction false} TrimEndKeepsOut(s: string, c: char)
    requires c !in s
    ensures c !in TrimEnd(s)
  {
    assert forall i :: 0 <= i < |TrimEnd(s)| ==> TrimEnd(s)[i] == s[i];
  }

  lemma {:induction false} JoinKeepsOut(parts: seq<string>, c: char)
    requires c != '\n'
    requires forall i :: 0 <= i < |parts| ==> c !in parts[i]
    ensures c !in JoinLines(parts)
  {
    if |parts| > 1 {
      JoinKeepsOut(parts[1..], c);
    }
  }

  /** The lines of the normalised text, one for each line of the input. */
  lemma NormalizedLines(text: string)
    ensures Lines(Normalize(text)) ==
      var lines := Lines(UnifyLineBreaks(text));
      seq(|lines|, i requires 0 <= i < |lines| => TrimEnd(lines[i]))
  {
    var lines := Lines(UnifyLineBreaks(text));
    var trimmed := seq(|lines|, i requires 0 <= i < |lines| => TrimEnd(lines[i]));
    SplitPartsLackSeparator(UnifyLineBreaks(text), '\n');
    forall i | 0 <= i < |trimmed| ensures '\n' !in trimmed[i] {
      TrimEndKeepsOut(lines[i], '\n');
    }
    SplitJoin(trimmed, '\n');
  }

  /** The normalised text holds no carriage return. */
  lemma NormalizeHasNoCarriageReturn(text: string)
    ensures '\r' !in Normalize(text)
  {
    var lines := Lines(UnifyLineBreaks(text));
    var trimmed := seq(|lines|, i requires 0 <= i < |lines| => TrimEnd(lines[i]));
    JoinSplit(UnifyLineBreaks(text), '\n');
    forall i | 0 <= i < |lines| ensures '\r' !in lines[i] {
      if '\r' in lines[i] {
        SplitPartsLackSeparator(UnifyLineBreaks(text), '\n');
        JoinContains(lines, i, '\r');
      }
    }
    forall i | 0 <= i < |trimmed| ensures '\r' !in trimmed[i] {
      TrimEndKeepsOut(lines[i], '\r');
    }
    JoinKeepsOut(trimmed, '\r');
  }

  lemma {:induction false} JoinContains(parts: seq<string>, k: nat, c: char)
    requires k < |parts| && c in parts[k]
    ensures c in JoinLines(parts)
  {
    if |parts| > 1 {
      if k == 0 {
        assert JoinLines(parts) == parts[0] + "\n" + JoinLines(parts[1..]);
      } else {
        JoinContains(parts[1..], k - 1, c);
      }
    }
  }

  /** No line of the normalised text ends in white space. */
  lemma NormalizeTrimsEveryLine(text: string)
    ensures forall line | line in Lines(Normalize(text)) :: IsTrimmedLine(line)
  {
    NormalizedLines(text);
    var lines := Lines(UnifyLineBreaks(text));
    forall i | 0 <= i < |lines| ensures IsTrimmedLine(TrimEnd(lines[i])) {
      TrimEndIsTrimmed(lines[i]);
    }
  }

  /** Normalising twice changes nothing more than normalising once. */
  lemma NormalizeIdempotent(text: string)
    ensures Normalize(Normalize(text)) == Normalize(text)
  {
    var n := Normalize(text);
    NormalizeHasNoCarriageReturn(text);
    UnifyLineBreaksKeepsPlainText(n);
    NormalizedLines(text);
    var lines := Lines(n);
    var again := seq(|lines|, i requires 0 <= i < |lines| => TrimEnd(lines[i]));
    forall i | 0 <= i < |lines| ensures again[i] == lines[i] {
      var orig := Lines(UnifyLineBreaks(text));
      TrimEndIsTrimmed(orig[i]);
    }
    assert again == lines;
    JoinSplit(n, '\n');
  }
}
