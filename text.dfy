/** The JavaScript string built-ins the badge preview relies on, over `seq<char>`:
    the `\s` character class, the regular-expression `.`, `trim`, `split` on one
    character and `join`. A `char` stands for one code point. */
module JsText {

  datatype Option<T> = None | Some(value: T)

  /** The characters of JavaScript's `\s` class; `String.prototype.trim` strips the same set. */
  predicate IsSpace(c: char) {
    || c == '\t' || c == '\n' || c == '\U{000B}' || c == '\U{000C}' || c == '\r' || c == ' '
    || c == '\U{00A0}' || c == '\U{1680}' || ('\U{2000}' <= c <= '\U{200A}')
    || c == '\U{2028}' || c == '\U{2029}' || c == '\U{202F}' || c == '\U{205F}'
    || c == '\U{3000}' || c == '\U{FEFF}'
  }

  /** Line terminators: the characters a regular-expression `.` does not match. */
  predicate IsLineTerminator(c: char) {
    c == '\n' || c == '\r' || c == '\U{2028}' || c == '\U{2029}'
  }

  predicate IsDigit(c: char) { '0' <= c <= '9' }

  predicate IsAsciiLetter(c: char) { 'a' <= c <= 'z' || 'A' <= c <= 'Z' }

  /** The `\w` class, which decides where `\b` holds. */
  predicate IsWordChar(c: char) { IsAsciiLetter(c) || IsDigit(c) || c == '_' }

  predicate AllSpace(s: string) { forall i :: 0 <= i < |s| ==> IsSpace(s[i]) }

  predicate AllDigits(s: string) { forall i :: 0 <= i < |s| ==> IsDigit(s[i]) }

  predicate AllLetters(s: string) { forall i :: 0 <= i < |s| ==> IsAsciiLetter(s[i]) }

  /** A run that `.*` can match: no line terminator in it. */
  predicate NoLineTerminator(s: string) { forall i :: 0 <= i < |s| ==> !IsLineTerminator(s[i]) }

  predicate StartsWith(s: string, prefix: string) { |prefix| <= |s| && s[..|prefix|] == prefix }

  /** Index of the first `c` in `s`, or `|s|` when there is none (`indexOf`). */
  function FindChar(s: string, c: char): (n: nat)
    ensures n <= |s|
    ensures forall i :: 0 <= i < n ==> s[i] != c
    ensures n < |s| ==> s[n] == c
  {
    if s == [] || s[0] == c then 0 else 1 + FindChar(s[1..], c)
  }

  /** A text with no white space at either end, as `trim` leaves it. */
  predicate Trimmed(s: string) {
    s == [] || (!IsSpace(s[0]) && !IsSpace(s[|s| - 1]))
  }

  /** Number of white-space characters at the start of `s`. */
  function LeadingSpace(s: string): (n: nat)
    ensures n <= |s|
    ensures forall i :: 0 <= i < n ==> IsSpace(s[i])
    ensures n < |s| ==> !IsSpace(s[n])
  {
    if s == [] || !IsSpace(s[0]) then 0 else 1 + LeadingSpace(s[1..])
  }

  /** Number of white-space characters at the end of `s`. */
  function TrailingSpace(s: string): (n: nat)
    ensures n <= |s|
    ensures forall i :: |s| - n <= i < |s| ==> IsSpace(s[i])
    ensures n < |s| ==> !IsSpace(s[|s| - n - 1])
  {
    if s == [] || !IsSpace(s[|s| - 1]) then 0 else 1 + TrailingSpace(s[..|s| - 1])
  }

  /** `s.replace(/^\s+/, "")` */
  function TrimStart(s: string): string { s[LeadingSpace(s)..] }

  /** `s.replace(/\s+$/, "")` */
  function TrimEnd(s: string): string { s[..|s| - TrailingSpace(s)] }

  /** `s.trim()` */
  function Trim(s: string): string { TrimEnd(TrimStart(s)) }

  /** The characters of `s` that are not white space, in order. */
  function Visible(s: string): (v: string)
    ensures |v| <= |s|
  {
    if s == [] then [] else (if IsSpace(s[0]) then [] else [s[0]]) + Visible(s[1..])
  }

  /** ASCII `toLowerCase`; the callers only ever pass letters `A-Z` and `a-z` through it. */
  function LowerAscii(s: string): (r: string)
    ensures |r| == |s|
    ensures forall i :: 0 <= i < |s| ==> (r[i] == if 'A' <= s[i] <= 'Z' then s[i] - 'A' + 'a' else s[i])
  {
    if s == [] then [] else [if 'A' <= s[0] <= 'Z' then s[0] - 'A' + 'a' else s[0]] + LowerAscii(s[1..])
  }

  /** `s.split(sep)` for a one-character separator. */
  function Split(s: string, sep: char): (parts: seq<string>)
    ensures |parts| >= 1
  {
    if s == [] then [""]
    else
      var rest := Split(s[1..], sep);
      if s[0] == sep then [""] + rest else [[s[0]] + rest[0]] + rest[1..]
  }

  /** `parts.join(sep)` */
  function Join(parts: seq<string>, sep: string): string {
    if parts == [] then ""
    else if |parts| == 1 then parts[0]
    else parts[0] + sep + Join(parts[1..], sep)
  }

  /** `text.split("\n")` */
  function Lines(text: string): seq<string> { Split(text, '\n') }

  /** `lines.join("\n")` */
  function JoinLines(lines: seq<string>): string { Join(lines, "\n") }

  /** Concatenation of a sequence of sequences. */
  function Flatten<T>(ss: seq<seq<T>>): seq<T> {
    if ss == [] then [] else Flatten(ss[..|ss| - 1]) + ss[|ss| - 1]
  }

  /** `s.replace(/x/g, "")`: every occurrence of `x` removed. */
  function RemoveAll(s: string, x: char): (r: string)
    ensures x !in r
  {
    if s == [] then [] else (if s[0] == x then [] else [s[0]]) + RemoveAll(s[1..], x)
  }

  /** `s.replace("x", "")` with a string pattern: only the first occurrence removed. */
  function RemoveFirst(s: string, x: char): string {
    if s == [] then []
    else if s[0] == x then s[1..]
    else [s[0]] + RemoveFirst(s[1..], x)
  }

  // ---------------------------------------------------------------------------
  // Facts about the helpers

  lemma {:induction false} SplitNoSeparator(s: string, sep: char)
    requires sep !in s
    ensures Split(s, sep) == [s]
  {
    if s != [] {
      SplitNoSeparator(s[1..], sep);
      assert [s[0]] + s[1..] == s;
    }
  }

  lemma {:induction false} SplitPartsLackSeparator(s: string, sep: char)
    ensures forall i :: 0 <= i < |Split(s, sep)| ==> sep !in Split(s, sep)[i]
  {
    if s != [] {
      SplitPartsLackSeparator(s[1..], sep);
    }
  }

  lemma {:induction false} SplitAfterSeparator(a: string, sep: char, b: string)
    requires sep !in a
    ensures Split(a + [sep] + b, sep) == [a] + Split(b, sep)
  {
    if a == [] {
      assert (a + [sep] + b)[1..] == b;
    } else {
      assert (a + [sep] + b)[1..] == a[1..] + [sep] + b;
      SplitAfterSeparator(a[1..], sep, b);
      assert [a[0]] + a[1..] == a;
    }
  }

  /** Splitting undoes joining, when no part holds the separator. */
  lemma {:induction false} SplitJoin(parts: seq<string>, sep: char)
    requires |parts| >= 1
    requires forall i :: 0 <= i < |parts| ==> sep !in parts[i]
    ensures Split(Join(parts, [sep]), sep) == parts
  {
    if |parts| == 1 {
      SplitNoSeparator(parts[0], sep);
    } else {
      SplitJoin(parts[1..], sep);
      SplitAfterSeparator(parts[0], sep, Join(parts[1..], [sep]));
      assert [parts[0]] + parts[1..] == parts;
    }
  }

  /** Joining undoes splitting. */
  lemma {:induction false} JoinSplit(s: string, sep: char)
    ensures Join(Split(s, sep), [sep]) == s
  {
    if s != [] {
      JoinSplit(s[1..], sep);
      var rest := Split(s[1..], sep);
      if s[0] != sep {
        var parts := Split(s, sep);
        assert parts[0] == [s[0]] + rest[0];
        if |rest| == 1 {
          assert parts == [[s[0]] + rest[0]];
        } else {
          assert parts[1..] == rest[1..];
          assert Join(rest, [sep]) == rest[0] + [sep] + Join(rest[1..], [sep]);
        }
      }
    }
  }

  /** `LeadingSpace` is the length of the maximal white-space run at the start. */
  lemma {:induction false} LeadingSpaceExact(s: string, n: nat)
    requires n <= |s|
    requires forall i :: 0 <= i < n ==> IsSpace(s[i])
    requires n < |s| ==> !IsSpace(s[n])
    ensures LeadingSpace(s) == n
  {
    if n > 0 {
      LeadingSpaceExact(s[1..], n - 1);
    }
  }

  /** `TrailingSpace` is the length of the maximal white-space run at the end. */
  lemma {:induction false} TrailingSpaceExact(s: string, n: nat)
    requires n <= |s|
    requires forall i :: |s| - n <= i < |s| ==> IsSpace(s[i])
    requires n < |s| ==> !IsSpace(s[|s| - n - 1])
    ensures TrailingSpace(s) == n
  {
    if n > 0 {
      TrailingSpaceExact(s[..|s| - 1], n - 1);
    }
  }

  /** `FindChar` is the position of the first occurrence. */
  lemma {:induction false} FindCharExact(s: string, c: char, n: nat)
    requires n <= |s|
    requires forall i :: 0 <= i < n ==> s[i] != c
    requires n < |s| ==> s[n] == c
    ensures FindChar(s, c) == n
  {
    if n > 0 {
      FindCharExact(s[1..], c, n - 1);
    }
  }

  /** White space in front of a text that starts with a visible character is what `TrimStart` drops. */
  lemma TrimStartPadded(pad: string, x: string)
    requires AllSpace(pad)
    requires x == [] || !IsSpace(x[0])
    ensures TrimStart(pad + x) == x
  {
    LeadingSpaceExact(pad + x, |pad|);
    assert (pad + x)[|pad|..] == x;
  }

  /** White space after a text that ends in a visible character is what `TrimEnd` drops. */
  lemma TrimEndPadded(x: string, pad: string)
    requires AllSpace(pad)
    requires x == [] || !IsSpace(x[|x| - 1])
    ensures TrimEnd(x + pad) == x
  {
    TrailingSpaceExact(x + pad, |pad|);
    assert (x + pad)[..|x|] == x;
  }

  lemma TrimOfTrimmed(s: string)
    requires Trimmed(s)
    ensures TrimStart(s) == s && TrimEnd(s) == s && Trim(s) == s
  {
    LeadingSpaceExact(s, 0);
    TrailingSpaceExact(s, 0);
  }

  lemma {:induction false} VisibleAppend(a: string, b: string)
    ensures Visible(a + b) == Visible(a) + Visible(b)
  {
    if a == [] {
      assert a + b == b;
    } else {
      assert (a + b)[1..] == a[1..] + b;
      VisibleAppend(a[1..], b);
    }
  }

  lemma {:induction false} VisibleOfSpace(s: string)
    requires AllSpace(s)
    ensures Visible(s) == []
  {
    if s != [] {
      VisibleOfSpace(s[1..]);
    }
  }

  /** Dropping leading white space loses no visible character. */
  lemma VisibleTrimStart(s: string)
    ensures Visible(TrimStart(s)) == Visible(s)
  {
    var n := LeadingSpace(s);
    assert s == s[..n] + s[n..];
    VisibleAppend(s[..n], s[n..]);
    VisibleOfSpace(s[..n]);
  }

  lemma {:induction false} FlattenAppend<T>(a: seq<seq<T>>, b: seq<seq<T>>)
    ensures Flatten(a + b) == Flatten(a) + Flatten(b)
    decreases |b|
  {
    if b == [] {
      assert a + b == a;
    } else {
      var init := b[..|b| - 1];
      var last := b[|b| - 1];
      assert (a + b)[..|a + b| - 1] == a + init;
      assert Flatten(a + b) == Flatten(a + init) + last;
      FlattenAppend(a, init);
      AppendAssociates(Flatten(a), Flatten(init), last);
    }
  }

  lemma AppendAssociates<T>(p: seq<T>, q: seq<T>, r: seq<T>)
    ensures p + q + r == p + (q + r)
  {
  }

  lemma FlattenFirst<T>(ss: seq<seq<T>>)
    requires ss != []
    ensures Flatten(ss) == ss[0] + Flatten(ss[1..])
  {
    FlattenAppend([ss[0]], ss[1..]);
    assert [ss[0]] + ss[1..] == ss;
    assert Flatten([ss[0]]) == ss[0] by {
      assert [ss[0]][..0] == [];
    }
  }

  lemma FlattenLength<T>(ss: seq<seq<T>>, bound: nat)
    requires forall i :: 0 <= i < |ss| ==> |ss[i]| <= bound
    ensures |Flatten(ss)| <= |ss| * bound
  {
    if ss != [] {
      FlattenLength(ss[..|ss| - 1], bound);
    }
  }
}
