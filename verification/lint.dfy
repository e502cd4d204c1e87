/** The configuration lint and its automatic repairs.

    The lint looks for two spellings of an nginx condition that compares a
    variable with `=` (which nginx does not accept in the places the editor
    writes them), counts braces, and runs a per-line heuristic for missing
    semicolons. The repairs rewrite the comparison with zero into `!= 1`.

    Every regular expression involved is anchored on a literal first
    character and has a single way to match at a given position, so each is
    modelled as a matcher on the text that starts at that position. The
    global search of a JavaScript `/g` expression is a left-to-right scan that
    resumes at the end of each match. */
module Lint {
  import opened Text
  import opened Types
  import opened Search

  /** The fixed expressions of the lint (the first two) and of the repairs. */
  datatype Pattern =
    | IfEquals          // if=\$([a-zA-Z_]+)\s*=\s*(\d+)
    | ParenEquals       // if\s*\(\$([a-zA-Z_]+)\s*=\s*(\d+)\)
    | IfEqualsZero      // if=\$([a-zA-Z_]+)\s*=\s*0
    | ParenEqualsZero   // if\s*\(\$([a-zA-Z_]+)\s*=\s*0\)
    | AccessLogIf       // access_log.*if=\$([a-zA-Z_]+)\s*=\s*(\d+)
  {
    predicate IsRepair() {
      IfEqualsZero? || ParenEqualsZero? || AccessLogIf?
    }
  }

  /** A match at the start of a text: how many characters it spans and its
      two captures, the variable name and the number. */
  datatype Match = Match(len: nat, variable: string, number: string)

  /** The variable of `\$([a-zA-Z_]+)\s*=\s*` and the position where the
      compared value starts. */
  datatype Assign = Assign(variable: string, valueStart: nat)

  /** `([a-zA-Z_]+)\s*=\s*` at position `i`. The greedy runs never need to
      give characters back: a shorter name or space run would leave a name or
      space character where `=` or the value must follow. */
  function AssignmentAt(u: string, i: nat): (r: Option<Assign>)
    requires i <= |u|
    ensures r.Some? ==> i < r.value.valueStart <= |u| && IsWord(r.value.variable)
    ensures r.Some? ==> forall k :: i <= k < r.value.valueStart ==> u[k] != '!' && u[k] != ')'
    ensures r.Some? ==> r.value.valueStart == |u| || !IsSpace(u[r.value.valueStart])
  {
    var a := RunEnd(u, i, IsWordChar);
    var b := RunEnd(u, a, IsSpace);
    if a > i && b < |u| && u[b] == '=' then
      RunAll(u, i, a, IsWordChar);
      Some(Assign(u[i..a], RunEnd(u, b + 1, IsSpace)))
    else
      None
  }

  /** `if\s*\(\$`: the position just after the `$`. */
  function ParenOpen(u: string): (r: Option<nat>)
    ensures r.Some? ==> 4 <= r.value <= |u| && u[0] == 'i' && u[r.value - 1] == '$'
    ensures r.Some? ==> forall k :: 0 <= k < r.value ==> u[k] != '!' && u[k] != ')'
  {
    if |u| >= 2 && u[0] == 'i' && u[1] == 'f' then
      var w := RunEnd(u, 2, IsSpace);
      if w + 1 < |u| && u[w] == '(' && u[w + 1] == '$' then Some(w + 2) else None
    else
      None
  }

  /** `if=\$([a-zA-Z_]+)\s*=\s*(\d+)` at the start of `u`. */
  function IfEqualsAt(u: string): (r: Option<Match>)
    ensures r.Some? ==> 0 < r.value.len <= |u| && IsWord(r.value.variable) && IsDigits(r.value.number)
    ensures r.Some? ==> StartsWith(u, "if=$") && u[0] == 'i'
  {
    if StartsWith(u, "if=$") then
      assert u[0] == "if=$"[0];
      match AssignmentAt(u, 4)
      case None => None
      case Some(a) =>
        var d := RunEnd(u, a.valueStart, IsDigit);
        if d > a.valueStart then
          RunAll(u, a.valueStart, d, IsDigit);
          Some(Match(d, a.variable, u[a.valueStart..d]))
        else None
    else
      None
  }

  /** `if=\$([a-zA-Z_]+)\s*=\s*0` at the start of `u`. */
  function IfEqualsZeroAt(u: string): (r: Option<Match>)
    ensures r.Some? ==> 0 < r.value.len <= |u| && IsWord(r.value.variable) && r.value.number == "0"
    ensures r.Some? ==> u[r.value.len - 1] == '0' && '0' in u
  {
    if StartsWith(u, "if=$") then
      match AssignmentAt(u, 4)
      case None => None
      case Some(a) =>
        if a.valueStart < |u| && u[a.valueStart] == '0' then Some(Match(a.valueStart + 1, a.variable, "0")) else None
    else
      None
  }

  /** `if\s*\(\$([a-zA-Z_]+)\s*=\s*(\d+)\)` at the start of `u`. */
  function ParenEqualsAt(u: string): (r: Option<Match>)
    ensures r.Some? ==> 0 < r.value.len <= |u| && IsWord(r.value.variable) && IsDigits(r.value.number)
    ensures r.Some? ==> u[r.value.len - 1] == ')'
  {
    match ParenOpen(u)
    case None => None
    case Some(o) =>
      match AssignmentAt(u, o)
      case None => None
      case Some(a) =>
        var d := RunEnd(u, a.valueStart, IsDigit);
        if d > a.valueStart && d < |u| && u[d] == ')' then
          RunAll(u, a.valueStart, d, IsDigit);
          Some(Match(d + 1, a.variable, u[a.valueStart..d]))
        else None
  }

  /** `if\s*\(\$([a-zA-Z_]+)\s*=\s*0\)` at the start of `u`. A match begins
      with `i`, ends with `)`, and contains no other `)` and no `!`. */
  function ParenEqualsZeroAt(u: string): (r: Option<Match>)
    ensures r.Some? ==> 2 <= r.value.len <= |u| && IsWord(r.value.variable) && r.value.number == "0"
    ensures r.Some? ==> u[0] == 'i' && u[r.value.len - 1] == ')' && u[r.value.len - 2] == '0'
    ensures r.Some? ==> forall k :: 0 <= k < r.value.len ==> u[k] != '!'
    ensures r.Some? ==> forall k :: 0 <= k < r.value.len - 1 ==> u[k] != ')'
    ensures r.Some? ==> ')' in u
  {
    match ParenOpen(u)
    case None => None
    case Some(o) =>
      match AssignmentAt(u, o)
      case None => None
      case Some(a) =>
        if a.valueStart + 1 < |u| && u[a.valueStart] == '0' && u[a.valueStart + 1] == ')' then
          Some(Match(a.valueStart + 2, a.variable, "0"))
        else None
  }

  /** `access_log.*if=\$([a-zA-Z_]+)\s*=\s*(\d+)` at the start of `u`: `.*`
      stops at the first line terminator and gives characters back until the
      tail `if=...` matches; the match runs to the end of that tail. */
  function AccessLogIfAt(u: string): (r: Option<Match>)
    ensures r.Some? ==> 0 < r.value.len <= |u| && IsWord(r.value.variable) && IsDigits(r.value.number)
    ensures r.Some? ==> u[0] == 'a' && 'a' in u
    ensures r.Some? ==> exists j :: 0 <= j <= |u| && IfEqualsAt(u[j..]).Some?
  {
    if StartsWith(u, "access_log") then
      assert u[0] == "access_log"[0];
      match TailStart(u)
      case None => None
      case Some(k) =>
        var m := IfEqualsAt(u[k..]).value;
        Some(Match(k + m.len, m.variable, m.number))
    else
      None
  }

  /** Where the tail of an `access_log` match starts: the last position from
      10 to the end of the first line at which `if=...` matches. */
  function TailStart(u: string): (r: Option<nat>)
    requires |u| >= 10
    ensures r.Some? ==> 10 <= r.value <= |u| && IfEqualsAt(u[r.value..]).Some?
  {
    LastWhere((k: nat) => k <= |u| && IfEqualsAt(u[k..]).Some?, 10, RunEnd(u, 10, NotLineTerminator))
  }

  function MatchAt(p: Pattern, u: string): (r: Option<Match>)
    ensures r.Some? ==> 0 < r.value.len <= |u| && IsWord(r.value.variable)
  {
    match p
    case IfEquals => IfEqualsAt(u)
    case ParenEquals => ParenEqualsAt(u)
    case IfEqualsZero => IfEqualsZeroAt(u)
    case ParenEqualsZero => ParenEqualsZeroAt(u)
    case AccessLogIf => AccessLogIfAt(u)
  }

  /** `p` matches at no position of `t`. */
  predicate Clean(p: Pattern, t: string) {
    forall j :: 0 <= j <= |t| ==> MatchAt(p, t[j..]).None?
  }

  // ---------------------------------------------------------------------
  // The global search
  // ---------------------------------------------------------------------

  /** The span of a match. */
  function Span(m: Match): nat {
    m.len
  }

  /** The search of a lint expression over a whole text. */
  function Scan(p: Pattern, t: string): seq<Hit<Match>> {
    Find(u => MatchAt(p, u), Span, false, t, 0)
  }

  /** The search reports nothing exactly when the pattern matches nowhere. */
  lemma ScanEmpty(p: Pattern, t: string)
    ensures |Scan(p, t)| == 0 <==> Clean(p, t)
  {
    var r := Scan(p, t);
    if |r| > 0 {
      assert MatchAt(p, t[r[0].pos..]).Some?;
    }
    if !Clean(p, t) {
      var j :| 0 <= j <= |t| && MatchAt(p, t[j..]).Some?;
      assert HitAt(u => MatchAt(p, u), Span, false, t, j);
      var k := FindCovers(u => MatchAt(p, u), Span, false, t, 0, j);
    }
  }

  // ---------------------------------------------------------------------
  // The replacement
  // ---------------------------------------------------------------------

  /** The replacement strings, with `$$` read as `$` and `$1` as the
      variable. */
  function Replacement(p: Pattern, variable: string): string
    requires p.IsRepair()
  {
    match p
    case IfEqualsZero => "if=$" + variable + " != 1"
    case ParenEqualsZero => "if ($" + variable + " != 1)"
    case AccessLogIf => "access_log" + " /var/log/nginx/denied.log denied" + " if=$" + variable + " != 1"
  }

  /** `t.replace(re, replacement)` for a `/g` expression: every match the
      search finds is replaced, every other character is copied. */
  function ReplaceAll(p: Pattern, t: string): string
    requires p.IsRepair()
    decreases |t|
  {
    if |t| == 0 then
      ""
    else
      match MatchAt(p, t)
      case Some(m) => Replacement(p, m.variable) + ReplaceAll(p, t[m.len..])
      case None => [t[0]] + ReplaceAll(p, t[1..])
  }

  /** A text in which the pattern matches nowhere is left as it is. */
  lemma {:induction false} ReplaceAllClean(p: Pattern, t: string)
    requires p.IsRepair() && Clean(p, t)
    ensures ReplaceAll(p, t) == t
    decreases |t|
  {
    if |t| > 0 {
      assert t[0..] == t;
      assert Clean(p, t[1..]) by {
        forall j | 0 <= j <= |t[1..]| ensures MatchAt(p, t[1..][j..]).None? {
          assert t[1..][j..] == t[1 + j..];
        }
      }
      ReplaceAllClean(p, t[1..]);
    }
  }

  // ---------------------------------------------------------------------
  // The lint
  // ---------------------------------------------------------------------

  /** One finding of the lint; `Message` renders it as the text the editor shows. */
  datatype LintError =
    | EqualsAfterIf(variable: string, number: string)
    | EqualsInParens(variable: string, number: string)
    | UnbalancedBraces(opening: nat, closing: nat)
    | MissingSemicolon(lineNumber: nat, line: string)

  function Message(e: LintError): string {
    match e
    case EqualsAfterIf(v, n) => "Line contains invalid \"=\" in condition: if=$" + v + " = " + n
    case EqualsInParens(v, n) => "Line contains invalid \"=\" in condition: if ($" + v + " = " + n + ")"
    case UnbalancedBraces(o, c) =>
      "Unbalanced braces: " + NatToString(o) + " opening vs " + NatToString(c) + " closing"
    case MissingSemicolon(n, l) => "Line " + NatToString(n) + " might be missing a semicolon: " + l
  }

  datatype Validation = Validation(isValid: bool, errors: seq<LintError>)

  /** One error per reported match of a comparison pattern, in order. */
  function ComparisonErrors(found: seq<Hit<Match>>, inParens: bool): (r: seq<LintError>)
    ensures |r| == |found|
    ensures forall k :: 0 <= k < |r| ==>
              r[k] == (if inParens then EqualsInParens(found[k].item.variable, found[k].item.number)
                       else EqualsAfterIf(found[k].item.variable, found[k].item.number))
  {
    if |found| == 0 then []
    else
      var e := if inParens then EqualsInParens(found[0].item.variable, found[0].item.number)
               else EqualsAfterIf(found[0].item.variable, found[0].item.number);
      [e] + ComparisonErrors(found[1..], inParens)
  }

  /** The error for unequal numbers of `{` and `}`, when there is one. */
  function BraceErrors(t: string): (r: seq<LintError>)
    ensures |r| <= 1
    ensures |r| == 1 <==> Count(t, '{') != Count(t, '}')
    ensures |r| == 1 ==> r[0] == UnbalancedBraces(Count(t, '{'), Count(t, '}'))
  {
    var o := Count(t, '{');
    var c := Count(t, '}');
    if o != c then [UnbalancedBraces(o, c)] else []
  }

  /** Trimmed lines the semicolon check skips: comments, blank lines and lone braces. */
  predicate SkippedLine(line: string) {
    StartsWith(line, "#") || line == "" || line == "{" || line == "}"
  }

  /** A trimmed line that is not skipped and looks like a directive without
      its semicolon: it ends with neither `;` nor `{`, contains no ` {`, and
      does not start with `if`. */
  predicate LacksSemicolon(line: string) {
    !SkippedLine(line) && !EndsWith(line, ";") && !EndsWith(line, "{") && !Contains(line, " {")
    && !StartsWith(line, "if")
  }

  /** One error for each line of `lines[i..]` whose trimmed text `lacks`
      holds of, numbering lines from one. */
  function LineErrors(lines: seq<string>, i: nat, lacks: string -> bool): (r: seq<LintError>)
    requires i <= |lines|
    decreases |lines| - i
  {
    if i == |lines| then
      []
    else
      var line := Trim(lines[i]);
      (if lacks(line) then [MissingSemicolon(i + 1, line)] else []) + LineErrors(lines, i + 1, lacks)
  }

  /** The semicolon check. */
  function SemicolonErrors(lines: seq<string>): seq<LintError> {
    LineErrors(lines, 0, LacksSemicolon)
  }

  /** A line error names line `n` with its trimmed text exactly when `lacks`
      holds of that trimmed line; every error is of that kind. */
  lemma {:induction false} LineErrorsExact(lines: seq<string>, i: nat, n: nat, l: string, lacks: string -> bool)
    requires i <= |lines|
    ensures MissingSemicolon(n, l) in LineErrors(lines, i, lacks) <==>
              i < n <= |lines| && l == Trim(lines[n - 1]) && lacks(l)
    ensures forall e :: e in LineErrors(lines, i, lacks) ==> e.MissingSemicolon? && i < e.lineNumber <= |lines|
    decreases |lines| - i
  {
    if i < |lines| {
      LineErrorsExact(lines, i + 1, n, l, lacks);
      var line := Trim(lines[i]);
      var head: seq<LintError> := if lacks(line) then [MissingSemicolon(i + 1, line)] else [];
      var rest := LineErrors(lines, i + 1, lacks);
      assert LineErrors(lines, i, lacks) == head + rest;
      forall e: LintError | e in head + rest
        ensures e.MissingSemicolon? && i < e.lineNumber <= |lines|
      {
        if e !in rest {
          assert e in head;
        }
      }
      assert MissingSemicolon(n, l) in head <==> n == i + 1 && l == line && lacks(line);
    }
  }

  /** `validateNginxConfig`: the errors of the two comparison searches, the
      brace count and the semicolon check, in that order. */
  function Validate(t: string): (v: Validation)
    ensures v.isValid <==> |v.errors| == 0
  {
    var errors := ComparisonErrors(Scan(IfEquals, t), false) + ComparisonErrors(Scan(ParenEquals, t), true)
                  + BraceErrors(t) + SemicolonErrors(Split(t, '\n'));
    Validation(|errors| == 0, errors)
  }

  /** The line check reports nothing exactly when `lacks` holds of no trimmed line. */
  lemma LineErrorsAbsent(lines: seq<string>, lacks: string -> bool)
    ensures |LineErrors(lines, 0, lacks)| == 0 <==> forall k :: 0 <= k < |lines| ==> !lacks(Trim(lines[k]))
  {
    var errs := LineErrors(lines, 0, lacks);
    if |errs| > 0 {
      LineErrorsExact(lines, 0, 0, "", lacks);
      var e := errs[0];
      assert e in errs;
      LineErrorsExact(lines, 0, e.lineNumber, e.line, lacks);
    }
    forall k | 0 <= k < |lines| && lacks(Trim(lines[k])) ensures |errs| > 0 {
      LineErrorsExact(lines, 0, k + 1, Trim(lines[k]), lacks);
    }
  }

  /** The verdict is the conjunction of the four checks' verdicts. */
  lemma ValidParts(t: string)
    ensures Validate(t).isValid <==>
              |Scan(IfEquals, t)| == 0 && |Scan(ParenEquals, t)| == 0 && |BraceErrors(t)| == 0
              && |SemicolonErrors(Split(t, '\n'))| == 0
  {
  }

  /** A text passes the lint exactly when neither comparison pattern occurs
      anywhere, the braces are as many opening as closing, and no line lacks
      a semicolon. */
  lemma ValidExactly(t: string)
    ensures Validate(t).isValid <==>
              Clean(IfEquals, t) && Clean(ParenEquals, t) && Count(t, '{') == Count(t, '}')
              && forall k :: 0 <= k < |Split(t, '\n')| ==> !LacksSemicolon(Trim(Split(t, '\n')[k]))
  {
    ValidParts(t);
    ScanEmpty(IfEquals, t);
    ScanEmpty(ParenEquals, t);
    LineErrorsAbsent(Split(t, '\n'), LacksSemicolon);
  }

  // ---------------------------------------------------------------------
  // The repairs
  // ---------------------------------------------------------------------

  /** `fixNginxConfig`: the three rewrites, in order. */
  function FixConfig(t: string): string {
    ReplaceAll(AccessLogIf, ReplaceAll(ParenEqualsZero, ReplaceAll(IfEqualsZero, t)))
  }

  /** `fixNginxSyntaxErrors`: the parenthesised rewrite alone. */
  function FixSyntax(t: string): string {
    ReplaceAll(ParenEqualsZero, t)
  }

  /** `validateAndFixNginxConfig`, without its warning output. */
  function ValidateAndFix(t: string): string {
    if Validate(t).isValid then t else FixConfig(t)
  }

  // ---------------------------------------------------------------------
  // Every repair is also a lint finding
  // ---------------------------------------------------------------------

  lemma ZeroAfterIfDetected(u: string)
    ensures IfEqualsZeroAt(u).Some? ==> IfEqualsAt(u).Some?
  {
  }

  lemma ZeroInParensDetected(u: string)
    ensures ParenEqualsZeroAt(u).Some? ==> ParenEqualsAt(u).Some?
  {
    if ParenEqualsZeroAt(u).Some? {
      var o := ParenOpen(u).value;
      var a := AssignmentAt(u, o).value;
      RunEndUnique(u, a.valueStart, a.valueStart + 1, IsDigit);
    }
  }

  /** Where no lint pattern matches, no repair pattern matches either: each
      repair match is a lint match at the same position, or (for the
      `access_log` rewrite) at the position of its `if=` tail. */
  lemma RepairsDetected(t: string)
    ensures Clean(IfEquals, t) ==> Clean(IfEqualsZero, t) && Clean(AccessLogIf, t)
    ensures Clean(ParenEquals, t) ==> Clean(ParenEqualsZero, t)
  {
    if Clean(IfEquals, t) {
      forall j | 0 <= j <= |t| ensures MatchAt(IfEqualsZero, t[j..]).None? {
        assert MatchAt(IfEquals, t[j..]).None?;
        ZeroAfterIfDetected(t[j..]);
      }
      forall j | 0 <= j <= |t| ensures MatchAt(AccessLogIf, t[j..]).None? {
        forall i | 0 <= i <= |t[j..]| ensures IfEqualsAt(t[j..][i..]).None? {
          assert t[j..][i..] == t[j + i..];
          assert MatchAt(IfEquals, t[j + i..]).None?;
        }
      }
    }
    if Clean(ParenEquals, t) {
      forall j | 0 <= j <= |t| ensures MatchAt(ParenEqualsZero, t[j..]).None? {
        assert MatchAt(ParenEquals, t[j..]).None?;
        ZeroInParensDetected(t[j..]);
      }
    }
  }

  /** A text in which none of the three repair patterns matches is left as it is. */
  lemma FixNoOp(t: string)
    requires Clean(IfEqualsZero, t) && Clean(ParenEqualsZero, t) && Clean(AccessLogIf, t)
    ensures FixConfig(t) == t
  {
    ReplaceAllClean(IfEqualsZero, t);
    ReplaceAllClean(ParenEqualsZero, t);
    ReplaceAllClean(AccessLogIf, t);
  }

  /** `validateAndFixNginxConfig` always returns what `fixNginxConfig` would:
      a text the lint accepts contains no repair pattern, so fixing it changes
      nothing. */
  lemma ValidateAndFixIsFix(t: string)
    ensures ValidateAndFix(t) == FixConfig(t)
  {
    if Validate(t).isValid {
      ValidExactly(t);
      RepairsDetected(t);
      FixNoOp(t);
    }
  }

  // ---------------------------------------------------------------------
  // The parenthesised rewrite is idempotent
  // ---------------------------------------------------------------------

  /** `if ($v != 1)`, the text the parenthesised rewrite writes. */
  function ParenRepair(v: string): string {
    Replacement(ParenEqualsZero, v)
  }

  /** The rewritten text has its `!` at `|v| + 6`, no `)` before it and no
      `i` after it. */
  lemma ParenRepairShape(v: string)
    requires IsWord(v)
    ensures |ParenRepair(v)| == |v| + 11
    ensures ParenRepair(v)[|v| + 6] == '!'
    ensures forall k :: 0 <= k < |v| + 6 ==> ParenRepair(v)[k] != ')'
    ensures forall k :: |v| + 6 < k < |v| + 11 ==> ParenRepair(v)[k] != 'i'
  {
    var r := ParenRepair(v);
    assert r == "if ($" + v + " != 1)";
    forall k | 0 <= k < |v| + 6 ensures r[k] != ')' {
      if 5 <= k < 5 + |v| {
        assert r[k] == v[k - 5];
      }
    }
  }

  /** `u` and `w` have the same first `n` characters. */
  predicate Agree(u: string, w: string, n: nat) {
    n <= |u| && n <= |w| && forall k :: 0 <= k < n ==> w[k] == u[k]
  }

  lemma AssignmentLocal(u: string, w: string, i: nat, n: nat)
    requires i <= |u| && AssignmentAt(u, i).Some?
    requires AssignmentAt(u, i).value.valueStart < n && Agree(u, w, n)
    ensures AssignmentAt(w, i) == AssignmentAt(u, i)
  {
    var a := RunEnd(u, i, IsWordChar);
    var b := RunEnd(u, a, IsSpace);
    var v := RunEnd(u, b + 1, IsSpace);
    assert v == AssignmentAt(u, i).value.valueStart;
    assert w[a] == u[a] && w[b] == u[b] && w[v] == u[v];
    RunEndUnique(w, i, a, IsWordChar);
    RunEndUnique(w, a, b, IsSpace);
    RunEndUnique(w, b + 1, v, IsSpace);
    assert w[i..a] == u[i..a];
  }

  lemma ParenOpenLocal(u: string, w: string, n: nat)
    requires ParenOpen(u).Some? && ParenOpen(u).value <= n && Agree(u, w, n)
    ensures ParenOpen(w) == ParenOpen(u)
  {
    var ws := RunEnd(u, 2, IsSpace);
    RunEndUnique(w, 2, ws, IsSpace);
  }

  /** A parenthesised zero comparison is decided by the characters it spans. */
  lemma ParenZeroLocal(u: string, w: string)
    requires ParenEqualsZeroAt(u).Some? && Agree(u, w, ParenEqualsZeroAt(u).value.len)
    ensures ParenEqualsZeroAt(w) == ParenEqualsZeroAt(u)
  {
    var n := ParenEqualsZeroAt(u).value.len;
    var o := ParenOpen(u).value;
    ParenOpenLocal(u, w, n);
    AssignmentLocal(u, w, o, n);
  }

  /** A parenthesised zero comparison cannot span a `!`, and it ends with a
      `)`: so when a `!` follows at `q` with no `)` between `p` and `q`, the
      comparison ends by `p`. */
  lemma ParenZeroBlocked(w: string, p: nat, q: nat)
    requires p <= q < |w| && w[q] == '!'
    requires forall k :: p <= k < q ==> w[k] != ')'
    requires ParenEqualsZeroAt(w).Some?
    ensures ParenEqualsZeroAt(w).value.len <= p
  {
  }

  /** With a `!` at `q` and no `)` before it, no parenthesised zero
      comparison starts at the beginning. */
  lemma ParenZeroAbsent(w: string, q: nat)
    requires q < |w| && w[q] == '!'
    requires forall k :: 0 <= k < q ==> w[k] != ')'
    ensures ParenEqualsZeroAt(w).None?
  {
  }

  function Fixed(t: string): string {
    ReplaceAll(ParenEqualsZero, t)
  }

  /** The rewrite copies `t` up to its first match `j`, where it writes the
      repair of variable `v`; without a match it copies all of `t`. */
  lemma {:induction false} FirstRepair(t: string) returns (j: nat, v: string)
    ensures j <= |t| && j <= |Fixed(t)| && Fixed(t)[..j] == t[..j]
    ensures j == |t| ==> Fixed(t) == t
    ensures j < |t| ==> IsWord(v) && OccursAt(Fixed(t), ParenRepair(v), j)
    decreases |t|
  {
    if |t| == 0 {
      j, v := 0, "";
    } else if MatchAt(ParenEqualsZero, t).Some? {
      var m := MatchAt(ParenEqualsZero, t).value;
      j, v := 0, m.variable;
      assert Fixed(t) == ParenRepair(v) + Fixed(t[m.len..]);
    } else {
      var j', v' := FirstRepair(t[1..]);
      j, v := j' + 1, v';
      FirstRepairStep(t, j', v');
    }
  }

  /** `FirstRepair` one character further left, past a position where
      nothing matches. */
  lemma FirstRepairStep(t: string, j: nat, v: string)
    requires |t| > 0 && MatchAt(ParenEqualsZero, t).None?
    requires j <= |t| - 1 && j <= |Fixed(t[1..])| && Fixed(t[1..])[..j] == t[1..][..j]
    requires j == |t| - 1 ==> Fixed(t[1..]) == t[1..]
    requires j < |t| - 1 ==> IsWord(v) && OccursAt(Fixed(t[1..]), ParenRepair(v), j)
    ensures j + 1 <= |Fixed(t)| && Fixed(t)[..j + 1] == t[..j + 1]
    ensures j + 1 == |t| ==> Fixed(t) == t
    ensures j + 1 < |t| ==> OccursAt(Fixed(t), ParenRepair(v), j + 1)
  {
    assert Fixed(t) == [t[0]] + Fixed(t[1..]);
    assert Fixed(t)[..j + 1] == [t[0]] + Fixed(t[1..])[..j];
    assert t[..j + 1] == [t[0]] + t[1..][..j];
    if j + 1 < |t| {
      assert Fixed(t)[j + 1..j + 1 + |ParenRepair(v)|] == Fixed(t[1..])[j..j + |ParenRepair(v)|];
    } else {
      assert t == [t[0]] + t[1..];
    }
  }

  predicate CleanParenZero(t: string) {
    forall j :: 0 <= j <= |t| ==> ParenEqualsZeroAt(t[j..]).None?
  }

  /** No parenthesised zero comparison starts inside a written repair. */
  lemma RepairInert(v: string, rest: string, j: nat)
    requires IsWord(v) && j < |ParenRepair(v)|
    ensures ParenEqualsZeroAt((ParenRepair(v) + rest)[j..]).None?
  {
    var r := ParenRepair(v);
    var w := (r + rest)[j..];
    ParenRepairShape(v);
    if j <= |v| + 6 {
      assert w[|v| + 6 - j] == r[|v| + 6];
      forall k | 0 <= k < |v| + 6 - j ensures w[k] != ')' {
        assert w[k] == r[j + k];
      }
      ParenZeroAbsent(w, |v| + 6 - j);
    } else {
      assert w[0] == r[j];
    }
  }

  /** A text the rewrite produced contains nothing more to rewrite. */
  lemma {:induction false} FixedIsClean(t: string)
    ensures CleanParenZero(Fixed(t))
    decreases |t|
  {
    if |t| > 0 {
      if MatchAt(ParenEqualsZero, t).Some? {
        var m := MatchAt(ParenEqualsZero, t).value;
        var r := ParenRepair(m.variable);
        var o := Fixed(t[m.len..]);
        FixedIsClean(t[m.len..]);
        assert Fixed(t) == r + o;
        forall j | 0 <= j <= |r + o| ensures ParenEqualsZeroAt((r + o)[j..]).None? {
          if j < |r| {
            RepairInert(m.variable, o, j);
          } else {
            assert (r + o)[j..] == o[j - |r|..];
          }
        }
      } else {
        var o := Fixed(t[1..]);
        FixedIsClean(t[1..]);
        assert Fixed(t) == [t[0]] + o;
        forall j | 0 <= j <= |[t[0]] + o| ensures ParenEqualsZeroAt(([t[0]] + o)[j..]).None? {
          if j == 0 {
            FirstUnchanged(t);
          } else {
            assert ([t[0]] + o)[j..] == o[j - 1..];
          }
        }
      }
    }
  }

  /** The rewrite of a text that does not match at its first character
      copies that character and agrees with the text up to the first repair
      of the rest, which it writes at `1 + j`. */
  lemma CopiedPrefix(t: string) returns (j: nat, v: string)
    requires |t| > 0 && MatchAt(ParenEqualsZero, t).None?
    ensures j <= |t| - 1
    ensures j == |t| - 1 ==> Fixed(t) == t
    ensures Agree(Fixed(t), t, 1 + j)
    ensures j < |t| - 1 ==> IsWord(v) && OccursAt(Fixed(t), ParenRepair(v), 1 + j)
  {
    var w := Fixed(t);
    assert w == [t[0]] + Fixed(t[1..]);
    j, v := FirstRepair(t[1..]);
    if j == |t| - 1 {
      assert w == [t[0]] + t[1..] == t;
    } else {
      assert w[1 + j..1 + j + |ParenRepair(v)|] == Fixed(t[1..])[j..j + |ParenRepair(v)|];
    }
    assert w[..1 + j] == [t[0]] + Fixed(t[1..])[..j];
    assert t[..1 + j] == [t[0]] + t[1..][..j];
    forall k | 0 <= k < 1 + j ensures t[k] == w[k] {
      assert w[..1 + j][k] == t[..1 + j][k];
    }
  }

  /** A repair written at `p` stops every comparison that starts before it. */
  lemma RepairBlocks(w: string, p: nat, v: string)
    requires IsWord(v) && OccursAt(w, ParenRepair(v), p)
    ensures p + |v| + 6 < |w| && w[p + |v| + 6] == '!'
    ensures forall k :: p <= k < p + |v| + 6 ==> w[k] != ')'
  {
    ParenRepairShape(v);
    assert w[p + |v| + 6] == w[p..p + |ParenRepair(v)|][|v| + 6];
    forall k | p <= k < p + |v| + 6 ensures w[k] != ')' {
      assert w[k] == w[p..p + |ParenRepair(v)|][k - p];
    }
  }

  /** When no comparison starts at the first character, none starts there
      after the rewrite either. */
  lemma FirstUnchanged(t: string)
    requires |t| > 0 && MatchAt(ParenEqualsZero, t).None?
    ensures ParenEqualsZeroAt(Fixed(t)).None?
  {
    var w := Fixed(t);
    var j, v := CopiedPrefix(t);
    if j < |t| - 1 {
      var p := 1 + j;
      RepairBlocks(w, p, v);
      if ParenEqualsZeroAt(w).Some? {
        ParenZeroBlocked(w, p, p + |v| + 6);
        ParenZeroLocal(w, t);
      }
    }
  }

  /** `fixNginxSyntaxErrors` is idempotent. */
  lemma FixSyntaxIdempotent(t: string)
    ensures FixSyntax(FixSyntax(t)) == FixSyntax(t)
  {
    var f := FixSyntax(t);
    FixedIsClean(t);
    assert Clean(ParenEqualsZero, f) by {
      forall j | 0 <= j <= |f| ensures MatchAt(ParenEqualsZero, f[j..]).None? {
        assert ParenEqualsZeroAt(f[j..]).None?;
      }
    }
    ReplaceAllClean(ParenEqualsZero, f);
  }

  // ---------------------------------------------------------------------
  // What the repairs do to particular texts
  // ---------------------------------------------------------------------

  /** Each repair pattern needs a particular character: a text without `0`
      has no zero comparison, one without `)` no parenthesised one, one
      without `a` no `access_log` line. */
  lemma CleanWithout(t: string)
    ensures '0' !in t ==> Clean(IfEqualsZero, t)
    ensures ')' !in t ==> Clean(ParenEqualsZero, t)
    ensures 'a' !in t ==> Clean(AccessLogIf, t)
  {
    forall j, c | 0 <= j <= |t| && c !in t ensures c !in t[j..] {
      assert forall k :: 0 <= k < |t[j..]| ==> t[j..][k] == t[j + k];
    }
  }

  lemma ZeroPrefixMatch()
    ensures IfEqualsZeroAt("if=$v = 05") == Some(Match(9, "v", "0"))
  {
    var t := "if=$v = 05";
    assert StartsWith(t, "if=$");
    RunEndUnique(t, 4, 5, IsWordChar);
    RunEndUnique(t, 5, 6, IsSpace);
    RunEndUnique(t, 7, 8, IsSpace);
    assert t[4..5] == "v";
    assert AssignmentAt(t, 4) == Some(Assign("v", 8));
  }

  lemma ZeroPrefixFirstPass()
    ensures ReplaceAll(IfEqualsZero, "if=$v = 05") == "if=$v != 15"
  {
    var t := "if=$v = 05";
    ZeroPrefixMatch();
    assert t[9..] == "5";
    CleanWithout("5");
    ReplaceAllClean(IfEqualsZero, "5");
    assert ReplaceAll(IfEqualsZero, t) == Replacement(IfEqualsZero, "v") + ReplaceAll(IfEqualsZero, "5");
  }

  /** Without `)` or `a`, only the zero rewrite can change a text. */
  lemma OnlyZeroRewrite(t: string)
    requires ')' !in ReplaceAll(IfEqualsZero, t) && 'a' !in ReplaceAll(IfEqualsZero, t)
    ensures FixConfig(t) == ReplaceAll(IfEqualsZero, t)
  {
    var f := ReplaceAll(IfEqualsZero, t);
    CleanWithout(f);
    ReplaceAllClean(ParenEqualsZero, f);
    ReplaceAllClean(AccessLogIf, f);
  }

  /** `if=$v = 05` becomes `if=$v != 15`: the zero rewrite does not require
      the number to end after the `0`. */
  lemma ZeroPrefixRewritten()
    ensures FixConfig("if=$v = 05") == "if=$v != 15"
  {
    ZeroPrefixFirstPass();
    ZeroPrefixChars();
    OnlyZeroRewrite("if=$v = 05");
  }

  lemma ZeroPrefixChars()
    ensures ')' !in "if=$v != 15" && 'a' !in "if=$v != 15"
  {
  }

  /** `access_log /var/log/nginx/denied.log denied if=$v != 1`, the line the
      `access_log` rewrite writes. */
  function AccessLogRepair(v: string): string {
    Replacement(AccessLogIf, v)
  }

  /** The characters the `access_log` rewrite writes around the variable. */
  predicate RepairChar(c: char) {
    IsWordChar(c) || c == ' ' || c == '/' || c == '.' || c == '=' || c == '$' || c == '!' || c == '1'
  }

  lemma AllAppend(a: string, b: string, p: char -> bool)
    requires All(a, p) && All(b, p)
    ensures All(a + b, p)
  {
    assert forall k :: 0 <= k < |a + b| ==> (a + b)[k] == if k < |a| then a[k] else b[k - |a|];
  }

  lemma RepairCharsFixed()
    ensures All("access_log", RepairChar) && All(" /var/log/nginx/denied.log denied", RepairChar)
    ensures All(" if=$", RepairChar) && All(" != 1", RepairChar)
  {
  }

  lemma AccessLogRepairChars(v: string)
    requires IsWord(v)
    ensures StartsWith(AccessLogRepair(v), "access_log")
    ensures All(AccessLogRepair(v), RepairChar)
  {
    var head := "access_log";
    var path := " /var/log/nginx/denied.log denied";
    RepairCharsFixed();
    assert All(v, RepairChar);
    AllAppend(head, path, RepairChar);
    AllAppend(head + path, " if=$", RepairChar);
    AllAppend(head + path + " if=$", v, RepairChar);
    AllAppend(head + path + " if=$" + v, " != 1", RepairChar);
    assert AccessLogRepair(v) == head + (path + " if=$" + v + " != 1");
  }

  lemma CounterexampleTails()
    ensures IfEqualsAt("if=$b\n=1if=$c=1") == Some(Match(8, "b", "1"))
    ensures IfEqualsAt("if=$c=1") == Some(Match(7, "c", "1"))
  {
    CounterexampleFirstTail();
    CounterexampleLastTail();
  }

  lemma CounterexampleFirstTail()
    ensures IfEqualsAt("if=$b\n=1if=$c=1") == Some(Match(8, "b", "1"))
  {
    var u := "if=$b\n=1if=$c=1";
    assert StartsWith(u, "if=$");
    RunEndUnique(u, 4, 5, IsWordChar);
    RunEndUnique(u, 5, 6, IsSpace);
    RunEndUnique(u, 7, 7, IsSpace);
    RunEndUnique(u, 7, 8, IsDigit);
    assert u[4..5] == "b" && u[7..8] == "1";
    assert AssignmentAt(u, 4) == Some(Assign("b", 7));
  }

  lemma CounterexampleLastTail()
    ensures IfEqualsAt("if=$c=1") == Some(Match(7, "c", "1"))
  {
    var w := "if=$c=1";
    assert StartsWith(w, "if=$");
    RunEndUnique(w, 4, 5, IsWordChar);
    RunEndUnique(w, 5, 5, IsSpace);
    RunEndUnique(w, 6, 6, IsSpace);
    RunEndUnique(w, 6, 7, IsDigit);
    assert w[4..5] == "c" && w[6..7] == "1";
    assert AssignmentAt(w, 4) == Some(Assign("c", 6));
  }


  /** The first line of `access_logif=$b<newline>=1if=$c=1` ends at 15. */
  lemma CounterexampleLineEnd()
    ensures RunEnd("access_logif=$b\n=1if=$c=1", 10, NotLineTerminator) == 15
  {
    RunEndUnique("access_logif=$b\n=1if=$c=1", 10, 15, NotLineTerminator);
  }

  lemma CounterexampleTailAt10()
    ensures IfEqualsAt("access_logif=$b\n=1if=$c=1"[10..]) == Some(Match(8, "b", "1"))
  {
    CounterexampleTails();
    CounterexampleSlice10();
  }

  lemma CounterexampleSlice10()
    ensures "access_logif=$b\n=1if=$c=1"[10..] == "if=$b\n=1if=$c=1"
  {
  }


  lemma CounterexampleNoLaterTail()
    ensures forall j | 10 < j <= 15 :: IfEqualsAt("access_logif=$b\n=1if=$c=1"[j..]).None?
  {
    var t := "access_logif=$b\n=1if=$c=1";
    forall j | 10 < j <= 15 ensures IfEqualsAt(t[j..]).None? {
      assert t[j..][0] == t[j] != 'i';
    }
  }

  /** Only position 10 of the first line starts an `if=` comparison. */
  lemma CounterexampleTailStart()
    ensures TailStart("access_logif=$b\n=1if=$c=1") == Some(10)
  {
    var t := "access_logif=$b\n=1if=$c=1";
    CounterexampleLineEnd();
    CounterexampleTailAt10();
    CounterexampleNoLaterTail();
    LastWhereAt((k: nat) => k <= |t| && IfEqualsAt(t[k..]).Some?, 10, 10, 15);
  }

  lemma CounterexampleFirstMatch()
    ensures AccessLogIfAt("access_logif=$b\n=1if=$c=1") == Some(Match(18, "b", "1"))
  {
    var t := "access_logif=$b\n=1if=$c=1";
    assert StartsWith(t, "access_log");
    CounterexampleTailStart();
    CounterexampleTailAt10();
  }

  /** Without `0` or `)`, only the `access_log` rewrite can change a text. */
  lemma OnlyAccessLogRewrite(t: string)
    requires '0' !in t && ')' !in t
    ensures FixConfig(t) == ReplaceAll(AccessLogIf, t)
  {
    CleanWithout(t);
    ReplaceAllClean(IfEqualsZero, t);
    ReplaceAllClean(ParenEqualsZero, t);
  }

  /** One step of the replacement at a position where the pattern matches. */
  lemma ReplaceAllStep(p: Pattern, t: string, m: Match)
    requires p.IsRepair() && |t| > 0 && MatchAt(p, t) == Some(m)
    ensures ReplaceAll(p, t) == Replacement(p, m.variable) + ReplaceAll(p, t[m.len..])
  {
  }

  /** A text with one `access_log` match at its start and no `a` after it
      is rewritten once. */
  lemma RewriteOnce(t: string, m: Match)
    requires |t| > 0 && AccessLogIfAt(t) == Some(m) && 'a' !in t[m.len..]
    ensures ReplaceAll(AccessLogIf, t) == AccessLogRepair(m.variable) + t[m.len..]
  {
    ReplaceAllStep(AccessLogIf, t, m);
    CleanWithout(t[m.len..]);
    ReplaceAllClean(AccessLogIf, t[m.len..]);
  }

  lemma CounterexampleRewrite(t: string)
    requires |t| == 25 && t[18..] == "if=$c=1"
    requires AccessLogIfAt(t) == Some(Match(18, "b", "1"))
    ensures ReplaceAll(AccessLogIf, t) == AccessLogRepair("b") + "if=$c=1"
  {
    CounterexampleTailChars();
    RewriteOnce(t, Match(18, "b", "1"));
  }

  lemma CounterexampleTailChars()
    ensures 'a' !in "if=$c=1"
  {
  }

  lemma CounterexampleRewritten()
    ensures ReplaceAll(AccessLogIf, "access_logif=$b\n=1if=$c=1") == AccessLogRepair("b") + "if=$c=1"
  {
    CounterexampleFirstMatch();
    CounterexampleRest();
    CounterexampleRewrite("access_logif=$b\n=1if=$c=1");
  }

  lemma CounterexampleRest()
    ensures "access_logif=$b\n=1if=$c=1"[18..] == "if=$c=1"
  {
  }

  /** First pass over `access_logif=$b<newline>=1if=$c=1`: the `\s*` of the
      tail crosses the line break, so the line is rewritten for `$b` and the
      text after the match is kept. */
  lemma CounterexampleFirstPass()
    ensures FixConfig("access_logif=$b\n=1if=$c=1") == AccessLogRepair("b") + "if=$c=1"
  {
    var t := "access_logif=$b\n=1if=$c=1";
    assert '0' !in t && ')' !in t;
    OnlyAccessLogRewrite(t);
    CounterexampleRewritten();
  }

  /** The first pass's result holds only characters the rewrite writes. */
  lemma CounterexampleSecondChars(f: string)
    requires f == AccessLogRepair("b") + "if=$c=1"
    ensures StartsWith(f, "access_log") && All(f, RepairChar)
    ensures |f| >= 17 && f[|f| - 7..] == "if=$c=1"
  {
    var r := AccessLogRepair("b");
    AccessLogRepairChars("b");
    assert All("if=$c=1", RepairChar);
    AllAppend(r, "if=$c=1", RepairChar);
    assert f[..10] == r[..10];
  }

  lemma RepairCharsExclude(f: string)
    requires All(f, RepairChar)
    ensures '0' !in f && ')' !in f
    ensures forall k :: 0 <= k < |f| ==> NotLineTerminator(f[k])
  {
  }

  lemma CounterexampleSecondNoLaterTail(f: string)
    requires |f| >= 7 && f[|f| - 7..] == "if=$c=1"
    ensures forall j | |f| - 7 < j <= |f| :: IfEqualsAt(f[j..]).None?
  {
    var p := |f| - 7;
    forall j | p < j <= |f| ensures IfEqualsAt(f[j..]).None? {
      if j < |f| {
        assert f[j..][0] == f[j] == "if=$c=1"[j - p];
      }
    }
  }

  /** An `access_log` line without line breaks whose last `if=` is the one
      of `$c` at the very end. */
  lemma CounterexampleSecondTail(f: string)
    requires StartsWith(f, "access_log") && All(f, RepairChar)
    requires |f| >= 17 && f[|f| - 7..] == "if=$c=1"
    ensures TailStart(f) == Some(|f| - 7)
  {
    RepairCharsExclude(f);
    RunEndUnique(f, 10, |f|, NotLineTerminator);
    CounterexampleTails();
    CounterexampleSecondNoLaterTail(f);
    LastWhereAt((k: nat) => k <= |f| && IfEqualsAt(f[k..]).Some?, 10, |f| - 7, |f|);
  }

  /** Second pass: the rewritten line is one line now, and its last
      comparison is the one of `$c`, so the whole text is replaced. */
  lemma CounterexampleSecondPass()
    ensures FixConfig(AccessLogRepair("b") + "if=$c=1") == AccessLogRepair("c")
  {
    var f := AccessLogRepair("b") + "if=$c=1";
    CounterexampleSecondChars(f);
    RepairCharsExclude(f);
    CounterexampleSecondTail(f);
    OnlyAccessLogRewrite(f);
    CounterexampleTails();
    assert AccessLogIfAt(f) == Some(Match(|f|, "c", "1"));
    ReplaceAllStep(AccessLogIf, f, Match(|f|, "c", "1"));
    assert f[|f|..] == "";
  }

  /** `fixNginxConfig` is not idempotent: fixing its own output can rewrite
      it again. */
  lemma FixConfigNotIdempotent()
    ensures var t := "access_logif=$b\n=1if=$c=1"; FixConfig(FixConfig(t)) != FixConfig(t)
  {
    CounterexampleFirstPass();
    CounterexampleSecondPass();
    assert |AccessLogRepair("c")| == |AccessLogRepair("b")|;
  }
}
