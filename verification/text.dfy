/** The handful of Python `str` operations the core relies on:
    `splitlines`, `split` on a one-character separator, `strip`, `upper`,
    `capitalize`, `startswith`, the `in` substring test and `str(int)`.
    Case mapping is modelled for ASCII letters only. */
module Text {

  // ---------------------------------------------------------------------
  // Line boundaries and `str.splitlines()`
  // ---------------------------------------------------------------------

  /** The characters Python's `str.splitlines` treats as line boundaries
      (`\r\n` is additionally one boundary of two characters). */
  predicate IsLineBreak(c: char) {
    c == '\n' || c == '\r' || c == '\U{000B}' || c == '\U{000C}'
    || c == '\U{001C}' || c == '\U{001D}' || c == '\U{001E}'
    || c == '\U{0085}' || c == '\U{2028}' || c == '\U{2029}'
  }

  predicate NoLineBreak(s: string) {
    forall i :: 0 <= i < |s| ==> !IsLineBreak(s[i])
  }

  /** Index of the first line boundary of `s`, or `|s|` when there is none. */
  function FirstBreak(s: string): (i: nat)
    ensures i <= |s|
    ensures i < |s| ==> IsLineBreak(s[i])
    ensures NoLineBreak(s[..i])
  {
    if s == [] then 0
    else if IsLineBreak(s[0]) then 0
    else
      var j := FirstBreak(s[1..]);
      assert s[..1 + j] == [s[0]] + s[1..][..j];
      1 + j
  }

  /** Length of the boundary starting at `s[i]`: two for `\r\n`, else one. */
  function BreakLength(s: string, i: nat): (n: nat)
    requires i < |s|
    ensures 1 <= n <= 2 && i + n <= |s|
  {
    if s[i] == '\r' && i + 1 < |s| && s[i + 1] == '\n' then 2 else 1
  }

  /** Python's `s.splitlines()`: the lines of `s` without their boundaries;
      a final boundary does not start an extra empty line. */
  function SplitLines(s: string): (lines: seq<string>)
    ensures forall k :: 0 <= k < |lines| ==> NoLineBreak(lines[k])
    ensures |lines| == 0 <==> s == ""
    decreases |s|
  {
    if s == [] then []
    else
      var i := FirstBreak(s);
      if i == |s| then [s]
      else [s[..i]] + SplitLines(s[i + BreakLength(s, i)..])
  }

  /** Text made of `lines`, each followed by `\n` (what `print` writes). */
  function Terminated(lines: seq<string>): string {
    if lines == [] then "" else lines[0] + "\n" + Terminated(lines[1..])
  }

  /** `splitlines` undoes writing lines with a `\n` after each one. */
  lemma {:induction false} SplitLinesOfTerminated(lines: seq<string>)
    requires forall k :: 0 <= k < |lines| ==> NoLineBreak(lines[k])
    ensures SplitLines(Terminated(lines)) == lines
  {
    if lines != [] {
      var s := Terminated(lines);
      var l := lines[0];
      assert s == l + ("\n" + Terminated(lines[1..]));
      FirstBreakOfLine(l, "\n" + Terminated(lines[1..]));
      assert FirstBreak(s) == |l|;
      assert s[..|l|] == l;
      assert s[|l| + BreakLength(s, |l|)..] == Terminated(lines[1..]);
      SplitLinesOfTerminated(lines[1..]);
    }
  }

  /** A boundary-free prefix followed by a boundary: the first boundary is
      where the prefix ends. */
  lemma {:induction false} FirstBreakOfLine(l: string, rest: string)
    requires NoLineBreak(l)
    requires rest != [] && IsLineBreak(rest[0])
    ensures FirstBreak(l + rest) == |l|
  {
    if l != [] {
      assert (l + rest)[1..] == l[1..] + rest;
      FirstBreakOfLine(l[1..], rest);
    }
  }

  /** Whatever precedes it, a non-empty boundary-free text written after a
      line boundary is the last line `splitlines` returns. */
  lemma {:induction false} LastLineAfterBreak(prefix: string, line: string)
    requires prefix != [] && IsLineBreak(prefix[|prefix| - 1])
    requires line != [] && NoLineBreak(line)
    ensures var lines := SplitLines(prefix + line);
            |lines| > 0 && lines[|lines| - 1] == line
    decreases |prefix|
  {
    var s := prefix + line;
    var i := FirstBreak(s);
    assert s[|prefix| - 1] == prefix[|prefix| - 1];
    assert i < |prefix|;
    var n := BreakLength(s, i);
    assert i + n <= |prefix|;
    var rest := s[i + n..];
    if i + n == |prefix| {
      assert rest == line;
      assert FirstBreak(line) == |line|;
    } else {
      var p := prefix[i + n..];
      assert rest == p + line;
      assert p[|p| - 1] == prefix[|prefix| - 1];
      LastLineAfterBreak(p, line);
    }
  }

  // ---------------------------------------------------------------------
  // `str.split(sep)` for a one-character separator
  // ---------------------------------------------------------------------

  /** Python's `s.split(sep)` with a one-character separator: the pieces
      between separators, always at least one. */
  function Split(s: string, sep: char): (pieces: seq<string>)
    ensures |pieces| >= 1
    ensures forall k :: 0 <= k < |pieces| ==> sep !in pieces[k]
  {
    if s == [] then [""]
    else
      var tail := Split(s[1..], sep);
      if s[0] == sep then [""] + tail
      else [[s[0]] + tail[0]] + tail[1..]
  }

  /** Joining the pieces with the separator gives back the text:
      `sep.join(s.split(sep)) == s`. */
  function Join(pieces: seq<string>, sep: char): string
    requires |pieces| >= 1
  {
    if |pieces| == 1 then pieces[0] else pieces[0] + [sep] + Join(pieces[1..], sep)
  }

  lemma {:induction false} JoinSplit(s: string, sep: char)
    ensures Join(Split(s, sep), sep) == s
  {
    if s != [] {
      JoinSplit(s[1..], sep);
      var tail := Split(s[1..], sep);
      if s[0] != sep {
        var pieces := Split(s, sep);
        if |tail| == 1 {
          assert pieces == [[s[0]] + tail[0]];
        } else {
          assert pieces[1..] == tail[1..];
          assert Join(pieces, sep) == [s[0]] + tail[0] + [sep] + Join(tail[1..], sep);
        }
      }
    }
  }

  /** `s.split(sep)` has a second piece exactly when `sep` occurs in `s`. */
  lemma {:induction false} SplitHasSecondPiece(s: string, sep: char)
    ensures |Split(s, sep)| >= 2 <==> sep in s
  {
    if s != [] {
      SplitHasSecondPiece(s[1..], sep);
      assert s == [s[0]] + s[1..];
    }
  }

  // ---------------------------------------------------------------------
  // `str.strip()`
  // ---------------------------------------------------------------------

  /** The characters for which Python's `str.isspace()` holds. */
  predicate IsSpace(c: char) {
    c == ' ' || ('\t' <= c <= '\r') || ('\U{001C}' <= c <= '\U{001F}')
    || c == '\U{0085}' || c == '\U{00A0}' || c == '\U{1680}'
    || ('\U{2000}' <= c <= '\U{200A}') || c == '\U{2028}' || c == '\U{2029}'
    || c == '\U{202F}' || c == '\U{205F}' || c == '\U{3000}'
  }

  /** Number of whitespace characters `s` starts with. */
  function LeadingSpace(s: string): (n: nat)
    ensures n <= |s|
    ensures forall k :: 0 <= k < n ==> IsSpace(s[k])
    ensures n < |s| ==> !IsSpace(s[n])
  {
    if s == [] || !IsSpace(s[0]) then 0
    else
      var m := LeadingSpace(s[1..]);
      assert forall k :: 1 <= k < 1 + m ==> s[k] == s[1..][k - 1];
      1 + m
  }

  /** Number of whitespace characters `s` ends with. */
  function TrailingSpace(s: string): (n: nat)
    ensures n <= |s|
    ensures forall k :: |s| - n <= k < |s| ==> IsSpace(s[k])
    ensures n < |s| ==> !IsSpace(s[|s| - n - 1])
  {
    if s == [] || !IsSpace(s[|s| - 1]) then 0
    else 1 + TrailingSpace(s[..|s| - 1])
  }

  /** Python's `s.strip()`: `s` without leading and trailing whitespace. */
  function Strip(s: string): (r: string)
    ensures r == [] || (!IsSpace(r[0]) && !IsSpace(r[|r| - 1]))
    ensures |r| == |s| - LeadingSpace(s) - TrailingSpace(s[LeadingSpace(s)..])
    ensures forall k :: 0 <= k < |r| ==> r[k] == s[LeadingSpace(s) + k]
  {
    var a := LeadingSpace(s);
    var rest := s[a..];
    rest[..|rest| - TrailingSpace(rest)]
  }

  /** Stripping twice strips nothing more. */
  lemma StripIdempotent(s: string)
    ensures Strip(Strip(s)) == Strip(s)
  {
    var r := Strip(s);
    if r != [] {
      assert LeadingSpace(r) == 0;
      assert TrailingSpace(r) == 0;
    }
  }

  // ---------------------------------------------------------------------
  // Case mapping, prefixes, substrings
  // ---------------------------------------------------------------------

  function UpperChar(c: char): char {
    if 'a' <= c <= 'z' then (c as int - 'a' as int + 'A' as int) as char else c
  }

  function LowerChar(c: char): char {
    if 'A' <= c <= 'Z' then (c as int - 'A' as int + 'a' as int) as char else c
  }

  /** Python's `s.upper()` on ASCII letters. */
  function Upper(s: string): (r: string)
    ensures |r| == |s|
    ensures forall k :: 0 <= k < |s| ==> r[k] == UpperChar(s[k])
  {
    seq(|s|, k requires 0 <= k < |s| => UpperChar(s[k]))
  }

  /** Python's `s.capitalize()` on ASCII letters: first character upper
      case, every other one lower case. */
  function Capitalize(s: string): (r: string)
    ensures |r| == |s|
    ensures |s| > 0 ==> r[0] == UpperChar(s[0])
    ensures forall k :: 0 < k < |s| ==> r[k] == LowerChar(s[k])
  {
    seq(|s|, k requires 0 <= k < |s| => if k == 0 then UpperChar(s[k]) else LowerChar(s[k]))
  }

  /** Python's `needle in haystack` for strings. */
  predicate Contains(haystack: string, needle: string)
    decreases |haystack|
  {
    needle <= haystack || (haystack != [] && Contains(haystack[1..], needle))
  }

  function DigitChar(d: nat): char
    requires d < 10
  {
    "0123456789"[d]
  }

  function NatToString(n: nat): (r: string)
    ensures |r| >= 1
    ensures forall k :: 0 <= k < |r| ==> '0' <= r[k] <= '9'
  {
    if n < 10 then [DigitChar(n)] else NatToString(n / 10) + [DigitChar(n % 10)]
  }

  /** Python's `str(n)` for an integer: decimal digits, `-` when negative. */
  function IntToString(n: int): (r: string)
    ensures |r| >= 1
    ensures (r[0] == '-') <==> n < 0
  {
    if n < 0 then "-" + NatToString(-n) else NatToString(n)
  }
}
