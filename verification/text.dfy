/** Character classes and string helpers shared by the parser, the generator,
    the lint and the field validators.

    Strings are sequences of `char`. The character classes follow the
    JavaScript regular-expression classes the TypeScript sources use:
    `\s` (which is also the set `String.prototype.trim` strips), `\d`,
    `[a-zA-Z_]`, and the four line terminators that end a line for `.`,
    `^` and `$`. */
module Text {

  /** The characters that end a line for `.`, `^` and `$` in a JavaScript regular expression. */
  predicate IsLineTerminator(c: char) {
    c == '\n' || c == '\r' || c == '\U{2028}' || c == '\U{2029}'
  }

  /** JavaScript `\s`: the white-space characters plus the line terminators.
      Tab, line feed, vertical tab, form feed and carriage return are the
      contiguous range U+0009 to U+000D. */
  predicate IsSpace(c: char) {
    c == ' ' || ('\t' <= c <= '\r') || (c >= '\U{00A0}' && IsWideSpace(c))
  }

  /** The white space of `\s` above U+00A0. */
  predicate IsWideSpace(c: char) {
    c == '\U{00A0}' || c == '\U{1680}' || ('\U{2000}' <= c <= '\U{200A}') || c == '\U{2028}'
    || c == '\U{2029}' || c == '\U{202F}' || c == '\U{205F}' || c == '\U{3000}' || c == '\U{FEFF}'
  }

  /** JavaScript `\d`. */
  predicate IsDigit(c: char) {
    '0' <= c <= '9'
  }

  predicate IsLetter(c: char) {
    'a' <= c <= 'z' || 'A' <= c <= 'Z'
  }

  /** The class `[a-zA-Z_]` the sources use for nginx variable names. */
  predicate IsWordChar(c: char) {
    IsLetter(c) || c == '_'
  }

  predicate NotLineTerminator(c: char) {
    !IsLineTerminator(c)
  }

  /** Every character of `s` satisfies `p`. */
  predicate All(s: string, p: char -> bool) {
    forall k :: 0 <= k < |s| ==> p(s[k])
  }

  /** A non-empty run of decimal digits, the language of `\d+`. */
  predicate IsDigits(s: string) {
    |s| > 0 && All(s, IsDigit)
  }

  /** A non-empty run of `[a-zA-Z_]`, the language of `[a-zA-Z_]+`. */
  predicate IsWord(s: string) {
    |s| > 0 && All(s, IsWordChar)
  }

  /** The end of the longest run of characters satisfying `p` that starts at
      `i`: what a greedy `p*` consumes from position `i`. */
  function RunEnd(s: string, i: nat, p: char -> bool): (j: nat)
    requires i <= |s|
    ensures i <= j <= |s|
    ensures forall k :: i <= k < j ==> p(s[k])
    ensures j == |s| || !p(s[j])
    decreases |s| - i
  {
    if i < |s| && p(s[i]) then RunEnd(s, i + 1, p) else i
  }

  /** A run end depends only on the characters it looks at. */
  lemma {:induction false} RunEndUnique(s: string, i: nat, j: nat, p: char -> bool)
    requires i <= j <= |s|
    requires forall k :: i <= k < j ==> p(s[k])
    requires j == |s| || !p(s[j])
    ensures RunEnd(s, i, p) == j
    decreases j - i
  {
    if i < j {
      RunEndUnique(s, i + 1, j, p);
    }
  }

  /** A run from the start of `a + b` ends where it ends in `a`, unless it
      takes in all of `a`; then it goes on into `b`. */
  lemma RunEndJoin(a: string, b: string, p: char -> bool)
    ensures RunEnd(a, 0, p) < |a| ==> RunEnd(a + b, 0, p) == RunEnd(a, 0, p)
    ensures RunEnd(a, 0, p) == |a| ==> RunEnd(a + b, 0, p) == |a| + RunEnd(b, 0, p)
  {
    var r := RunEnd(a, 0, p);
    var s := a + b;
    if r < |a| {
      assert s[r] == a[r];
      assert forall k :: 0 <= k < r ==> s[k] == a[k];
      RunEndUnique(s, 0, r, p);
    } else {
      var q := RunEnd(b, 0, p);
      forall k | 0 <= k < r + q
        ensures p(s[k])
      {
        if k < r {
          assert s[k] == a[k];
        } else {
          assert s[k] == b[k - r];
        }
      }
      if r + q < |s| {
        assert s[r + q] == b[q];
      }
      RunEndUnique(s, 0, r + q, p);
    }
  }

  /** A stretch whose characters all satisfy `p`. */
  lemma RunAll(s: string, i: nat, j: nat, p: char -> bool)
    requires i <= j <= |s| && forall k :: i <= k < j ==> p(s[k])
    ensures All(s[i..j], p)
  {
  }

  /** `s` begins with `prefix`. */
  predicate StartsWith(s: string, prefix: string) {
    |prefix| <= |s| && s[..|prefix|] == prefix
  }

  /** `s` ends with `suffix`. */
  predicate EndsWith(s: string, suffix: string) {
    |suffix| <= |s| && s[|s| - |suffix|..] == suffix
  }

  /** `needle` occurs in `s` starting at position `i`. */
  predicate OccursAt(s: string, needle: string, i: nat) {
    i + |needle| <= |s| && s[i..i + |needle|] == needle
  }

  /** JavaScript `String.prototype.includes`. */
  predicate Contains(s: string, needle: string) {
    exists i: nat | i <= |s| :: OccursAt(s, needle, i)
  }

  /** The number of occurrences of `c` in `s`: the length of the result of
      `s.match(/c/g) || []`. */
  function Count(s: string, c: char): (n: nat)
    ensures n <= |s|
    ensures n == 0 <==> c !in s
    ensures n == |s| <==> forall k :: 0 <= k < |s| ==> s[k] == c
  {
    if |s| == 0 then 0 else (if s[0] == c then 1 else 0) + Count(s[1..], c)
  }

  lemma {:induction false} CountAppend(a: string, b: string, c: char)
    ensures Count(a + b, c) == Count(a, c) + Count(b, c)
    decreases |a|
  {
    if |a| > 0 {
      assert (a + b)[0] == a[0] && (a + b)[1..] == a[1..] + b;
      CountAppend(a[1..], b, c);
    } else {
      assert a + b == b;
    }
  }

  /** A string with a character outside `\s` is not blank. */
  lemma NotBlank(s: string, k: nat)
    requires k < |s| && !IsSpace(s[k])
    ensures !All(s, IsSpace)
  {
  }

  /** JavaScript `String.prototype.trimStart`: drops the leading `\s` characters. */
  function TrimStart(s: string): (r: string)
    ensures |r| <= |s| && r == s[|s| - |r|..]
    ensures forall k :: 0 <= k < |s| - |r| ==> IsSpace(s[k])
    ensures |r| == 0 || !IsSpace(r[0])
  {
    s[RunEnd(s, 0, IsSpace)..]
  }

  /** JavaScript `String.prototype.trimEnd`: drops the trailing `\s` characters. */
  function TrimEnd(s: string): (r: string)
    ensures |r| <= |s| && r == s[..|r|]
    ensures forall k :: |r| <= k < |s| ==> IsSpace(s[k])
    ensures |r| == 0 || !IsSpace(r[|r| - 1])
    decreases |s|
  {
    if |s| > 0 && IsSpace(s[|s| - 1]) then TrimEnd(s[..|s| - 1]) else s
  }

  /** JavaScript `String.prototype.trim`. */
  function Trim(s: string): (r: string)
    ensures |r| == 0 || (!IsSpace(r[0]) && !IsSpace(r[|r| - 1]))
    ensures |r| == 0 <==> All(s, IsSpace)
    ensures Contains(s, r)
  {
    var t := TrimStart(s);
    var r := TrimEnd(t);
    assert OccursAt(s, r, |s| - |t|);
    r
  }

  /** Trimming a trimmed string changes nothing. */
  lemma TrimTrimmed(s: string)
    ensures Trim(Trim(s)) == Trim(s)
  {
    var r := Trim(s);
    if |r| > 0 {
      RunEndUnique(r, 0, 0, IsSpace);
      assert TrimStart(r) == r;
    }
  }

  /** The first position of `c` in `s`, when there is one. */
  function IndexOf(s: string, c: char): (i: nat)
    requires c in s
    ensures i < |s| && s[i] == c && c !in s[..i]
  {
    if s[0] == c then 0 else 1 + IndexOf(s[1..], c)
  }

  /** JavaScript `String.prototype.split` with a one-character separator. */
  function Split(s: string, sep: char): (parts: seq<string>)
    ensures |parts| >= 1
    ensures forall k :: 0 <= k < |parts| ==> sep !in parts[k]
    decreases |s|
  {
    if sep !in s then
      [s]
    else
      var i := IndexOf(s, sep);
      [s[..i]] + Split(s[i + 1..], sep)
  }

  /** The inverse of `Split`: the parts glued back with the separator. */
  function Join(parts: seq<string>, sep: char): string
    requires |parts| >= 1
  {
    if |parts| == 1 then parts[0] else parts[0] + [sep] + Join(parts[1..], sep)
  }

  lemma {:induction false} JoinSplit(s: string, sep: char)
    ensures Join(Split(s, sep), sep) == s
    decreases |s|
  {
    if sep in s {
      var i := IndexOf(s, sep);
      var rest := Split(s[i + 1..], sep);
      var parts := Split(s, sep);
      assert parts == [s[..i]] + rest;
      assert parts[1..] == rest;
      JoinSplit(s[i + 1..], sep);
      calc {
        Join(parts, sep);
        parts[0] + [sep] + Join(rest, sep);
        s[..i] + [sep] + s[i + 1..];
        s;
      }
    }
  }

  lemma {:induction false} SplitJoin(parts: seq<string>, sep: char)
    requires |parts| >= 1
    requires forall k :: 0 <= k < |parts| ==> sep !in parts[k]
    ensures Split(Join(parts, sep), sep) == parts
    decreases |parts|
  {
    if |parts| > 1 {
      var s := Join(parts, sep);
      SplitJoin(parts[1..], sep);
      assert s == parts[0] + [sep] + Join(parts[1..], sep);
      assert s[|parts[0]|] == sep;
      assert sep in s;
      var i := IndexOf(s, sep);
      assert s[..|parts[0]|] == parts[0];
      assert i == |parts[0]|;
      assert s[i + 1..] == Join(parts[1..], sep);
    }
  }

  /** Splitting two separator-free strings glued by the separator gives them back. */
  lemma SplitPair(a: string, b: string, sep: char)
    requires sep !in a && sep !in b
    ensures Split(a + [sep] + b, sep) == [a, b]
  {
    var s := a + [sep] + b;
    assert s[|a|] == sep;
    var i := IndexOf(s, sep);
    assert s[..i] == a;
    assert s[i + 1..] == b;
  }

  /** A string of `n` spaces. */
  function Spaces(n: nat): (r: string)
    ensures |r| == n && forall k :: 0 <= k < n ==> r[k] == ' '
  {
    if n == 0 then "" else Spaces(n - 1) + " "
  }

  /** JavaScript `String.prototype.padEnd(width)` with the default space filler. */
  function PadEnd(s: string, width: nat): (r: string)
    ensures StartsWith(r, s)
    ensures |r| == if |s| >= width then |s| else width
    ensures forall k :: |s| <= k < |r| ==> r[k] == ' '
  {
    if |s| >= width then s else s + Spaces(width - |s|)
  }

  /** The value of a string of decimal digits, as `parseInt(s, 10)` reads it. */
  function DigitsValue(s: string): (n: nat)
    requires All(s, IsDigit)
    decreases |s|
  {
    if |s| == 0 then 0 else DigitsValue(s[..|s| - 1]) * 10 + (s[|s| - 1] - '0') as nat
  }

  /** Decimal text of a natural number, as a template literal prints it. */
  function NatToString(n: nat): (s: string)
    ensures IsDigits(s)
    ensures DigitsValue(s) == n
    ensures |s| == 1 || s[0] != '0'
    decreases n
  {
    var d := [(('0' as int) + n % 10) as char];
    if n < 10 then d else
      var t := NatToString(n / 10) + d;
      assert t[..|t| - 1] == NatToString(n / 10);
      t
  }
}
