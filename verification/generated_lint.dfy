/** What the lint makes of the configurations the generator writes.

    The fixed server section tests `if ($access_granted = 0)` twice, once at
    server level and once in `location /`. That is the parenthesised
    comparison the lint reports, so no generated configuration passes the
    lint, whatever the model; both tests are also what the parenthesised
    repair rewrites. */
module GeneratedLint {
  import opened Text
  import opened Types
  import opened Generator
  import opened Lint
  import opened ServerText

  /** `if ($v = 0)`, spelled out character by character, is a target of
      the parenthesised repair. */
  lemma ZeroTestChars(u: string, v: string)
    requires IsWord(v) && |u| >= |v| + 10
    requires u[0] == 'i' && u[1] == 'f' && u[2] == ' ' && u[3] == '(' && u[4] == '$'
    requires forall k :: 0 <= k < |v| ==> u[5 + k] == v[k]
    requires u[5 + |v|] == ' ' && u[6 + |v|] == '=' && u[7 + |v|] == ' ' && u[8 + |v|] == '0' && u[9 + |v|] == ')'
    ensures ParenEqualsZeroAt(u) == Some(Match(|v| + 10, v, "0"))
  {
    RunEndUnique(u, 2, 3, IsSpace);
    assert ParenOpen(u) == Some(5);
    forall k | 5 <= k < 5 + |v|
      ensures IsWordChar(u[k])
    {
      assert u[k] == v[k - 5];
    }
    RunEndUnique(u, 5, 5 + |v|, IsWordChar);
    RunEndUnique(u, 5 + |v|, 6 + |v|, IsSpace);
    RunEndUnique(u, 7 + |v|, 8 + |v|, IsSpace);
    assert u[5..5 + |v|] == v;
    assert AssignmentAt(u, 5) == Some(Assign(v, 8 + |v|));
  }

  /** `if ($v = 0)` is both a lint finding and a repair target. */
  lemma ZeroTest(v: string, rest: string)
    requires IsWord(v)
    ensures ParenEqualsZeroAt("if ($" + v + " = 0)" + rest) == Some(Match(|v| + 10, v, "0"))
    ensures ParenEqualsAt("if ($" + v + " = 0)" + rest).Some?
  {
    var u := "if ($" + v + " = 0)" + rest;
    assert u[0] == 'i' && u[1] == 'f' && u[2] == ' ' && u[3] == '(' && u[4] == '$';
    assert forall k :: 0 <= k < |v| ==> u[5 + k] == v[k];
    assert u[5 + |v|] == ' ' && u[6 + |v|] == '=' && u[7 + |v|] == ' ' && u[8 + |v|] == '0' && u[9 + |v|] == ')';
    ZeroTestChars(u, v);
    ZeroInParensDetected(u);
  }

  /** Where the server-level test sits in a text assembled like a
      generated configuration. */
  lemma ServerTestIn(p: string, h: string, b: string) returns (k: nat)
    ensures var t := p + ((h + ("        " + "if ($" + "access_granted" + " = 0)" + " {\n")) + b);
            k <= |t| && ParenEqualsZeroAt(t[k..]).Some? && ParenEqualsAt(t[k..]).Some?
  {
    var t := p + ((h + ("        " + "if ($" + "access_granted" + " = 0)" + " {\n")) + b);
    k := |p| + |h| + 8;
    assert t[k..] == "if ($" + "access_granted" + " = 0)" + (" {\n" + b);
    ZeroTest("access_granted", " {\n" + b);
  }

  /** A text in which the parenthesised comparison occurs fails the lint. */
  lemma FindingRejects(t: string, k: nat)
    requires k <= |t| && ParenEqualsAt(t[k..]).Some?
    ensures !Validate(t).isValid
  {
    assert MatchAt(ParenEquals, t[k..]).Some?;
    ValidExactly(t);
  }

  /** A text assembled like a generated configuration fails the lint. */
  lemma ServerTestRejects(p: string, h: string, b: string)
    ensures !Validate(p + ((h + ("        " + "if ($" + "access_granted" + " = 0)" + " {\n")) + b)).isValid
  {
    var k := ServerTestIn(p, h, b);
    FindingRejects(p + ((h + ("        " + "if ($" + "access_granted" + " = 0)" + " {\n")) + b), k);
  }

  /** The lint rejects every configuration the generator writes: the
      server-level `$access_granted` test is reported. */
  lemma GeneratedNeverValid(c: NginxConfig)
    ensures !Validate(Generate(c)).isValid
  {
    ServerTestRejects(Prefix() + Sections(c), ServerHead(), ServerBody());
  }

  /** What `fixNginxSyntaxErrors` leaves of a text assembled like a
      generated configuration: no `if ($v = 0)`, where there was one. */
  lemma ServerTestRepaired(p: string, h: string, b: string)
    ensures !CleanParenZero(p + ((h + ("        " + "if ($" + "access_granted" + " = 0)" + " {\n")) + b))
    ensures CleanParenZero(FixSyntax(p + ((h + ("        " + "if ($" + "access_granted" + " = 0)" + " {\n")) + b)))
  {
    var t := p + ((h + ("        " + "if ($" + "access_granted" + " = 0)" + " {\n")) + b);
    var k := ServerTestIn(p, h, b);
    FixedIsClean(t);
  }

  // ---------------------------------------------------------------------
  // What the repair does to the server section
  // ---------------------------------------------------------------------

  /** No parenthesised zero comparison starts before position `n`. */
  predicate NoRepairBefore(t: string, n: int) {
    forall j :: 0 <= j < n && j <= |t| ==> ParenEqualsZeroAt(t[j..]).None?
  }

  /** Text at which no repair starts is copied as it is. */
  lemma {:induction false} CopiedUpTo(a: string, b: string)
    requires NoRepairBefore(a + b, |a|)
    ensures FixSyntax(a + b) == a + FixSyntax(b)
    decreases |a|
  {
    if |a| == 0 {
      assert a + b == b;
    } else {
      var t := a + b;
      assert t[0..] == t;
      assert t[1..] == a[1..] + b;
      forall j | 0 <= j < |a| - 1 && j <= |a[1..] + b|
        ensures ParenEqualsZeroAt((a[1..] + b)[j..]).None?
      {
        assert (a[1..] + b)[j..] == t[j + 1..];
      }
      CopiedUpTo(a[1..], b);
      assert a == [a[0]] + a[1..];
    }
  }

  /** No repair starts in a text without an `i`. */
  lemma NoIfInert(a: string, b: string)
    requires 'i' !in a
    ensures NoRepairBefore(a + b, |a|)
  {
    forall j | 0 <= j < |a| && j <= |a + b|
      ensures ParenEqualsZeroAt((a + b)[j..]).None?
    {
      assert (a + b)[j..][0] == a[j];
    }
  }

  /** No repair starts in a text without a `(` when what follows it, if
      anything, begins with `i`: the white space after an `if` would have to
      run into that `i`. */
  lemma ParenFreeInert(a: string, b: string)
    requires '(' !in a && (|b| == 0 || b[0] == 'i')
    ensures NoRepairBefore(a + b, |a|)
  {
    var t := a + b;
    forall j | 0 <= j < |a| && j <= |t|
      ensures ParenEqualsZeroAt(t[j..]).None?
    {
      var u := t[j..];
      var k := |a| - j;
      assert forall m :: 0 <= m < k ==> u[m] == a[j + m];
      assert k < |u| ==> u[k] == 'i';
      if |u| >= 2 && u[0] == 'i' && u[1] == 'f' {
        var w := RunEnd(u, 2, IsSpace);
        assert w <= k;
        assert w < k ==> u[w] != '(';
      }
    }
  }

  /** Text followed by more text drops off the front. */
  lemma DropFront(x: string, rest: string)
    ensures (x + rest)[|x|..] == rest
  {
  }

  /** The repair rewrites one test and goes on after it. */
  lemma TestRewritten(v: string, rest: string)
    requires IsWord(v)
    ensures FixSyntax("if ($" + v + " = 0)" + rest) == "if ($" + v + " != 1)" + FixSyntax(rest)
  {
    var x := "if ($" + v + " = 0)";
    ZeroTest(v, rest);
    ReplaceAllStep(ParenEqualsZero, x + rest, Match(|v| + 10, v, "0"));
    DropFront(x, rest);
  }

  /** A text that holds one `(`, with no `i` before it and no `(` after
      it, is left as it is. */
  lemma OneParenKept(a: string, d: string)
    requires 'i' !in a && '(' !in d
    ensures FixSyntax(a + ("(" + d)) == a + ("(" + d)
  {
    NoIfInert(a, "(" + d);
    CopiedUpTo(a, "(" + d);
    NoIfInert("(", d);
    CopiedUpTo("(", d);
    ParenFreeInert(d, []);
    assert d + [] == d;
    CopiedUpTo(d, []);
  }

  /** The location body is left as it is: its one `(` has no `if` before
      it. */
  lemma LocationBodyKept()
    ensures FixSyntax(LocationBody()) == LocationBody()
  {
    var a, d := LocationBodyParen();
    OneParenKept(a, d);
  }

  /** The pieces around the two tests, regrouped. */
  lemma AroundTests(p: string, h: string, i1: string, x: string, e: string, r: string, l: string, i2: string, b: string)
    ensures p + ((h + (i1 + x + e)) + (r + ((l + (i2 + x + e)) + b)))
         == p + ((h + i1) + (x + ((e + r + l + i2) + (x + (e + b)))))
  {
  }

  /** An indented test is its indentation and then the test. */
  lemma Indented(i: string, a: string, v: string, z: string)
    ensures i + a + v + z == i + (a + v + z)
  {
  }

  /** A text laid out like the server section: the parenthesised repair
      rewrites both tests and copies every other character, provided no
      repair starts before them. */
  lemma TestsRewritten(p: string, h: string, i1: string, v: string, r: string, l: string, i2: string, b: string)
    requires IsWord(v) && '(' !in h + i1 && '(' !in " {\n" + r + l + i2
    requires FixSyntax(" {\n" + b) == " {\n" + b
    requires NoRepairBefore(p + ((h + (i1 + "if ($" + v + " = 0)" + " {\n"))
                                 + (r + ((l + (i2 + "if ($" + v + " = 0)" + " {\n")) + b))), |p|)
    ensures FixSyntax(p + ((h + (i1 + "if ($" + v + " = 0)" + " {\n"))
                           + (r + ((l + (i2 + "if ($" + v + " = 0)" + " {\n")) + b))))
         == p + ((h + (i1 + "if ($" + v + " != 1)" + " {\n"))
                 + (r + ((l + (i2 + "if ($" + v + " != 1)" + " {\n")) + b)))
  {
    var e := " {\n";
    var x := "if ($" + v + " = 0)";
    var y := "if ($" + v + " != 1)";
    Indented(i1, "if ($", v, " = 0)");
    Indented(i2, "if ($", v, " = 0)");
    Indented(i1, "if ($", v, " != 1)");
    Indented(i2, "if ($", v, " != 1)");
    AroundTests(p, h, i1, x, e, r, l, i2, b);
    AroundTests(p, h, i1, y, e, r, l, i2, b);
    var n := (e + r + l + i2) + (x + (e + b));
    var m := (h + i1) + (x + n);
    CopiedUpTo(p, m);
    ParenFreeInert(h + i1, x + n);
    CopiedUpTo(h + i1, x + n);
    TestRewritten(v, n);
    ParenFreeInert(e + r + l + i2, x + (e + b));
    CopiedUpTo(e + r + l + i2, x + (e + b));
    TestRewritten(v, e + b);
  }

  /** A test of `$access_granted` as the repair writes it. */
  function Repaired(indent: string): string {
    indent + "if ($" + "access_granted" + " != 1)" + " {\n"
  }

  /** The server section as the parenthesised repair leaves it: both tests
      of `$access_granted` read `!= 1`, all else is as written. */
  function RepairedSuffix(): string {
    ServerHead() + Repaired("        ") + (ServerRules() + ((LocationStart() + Repaired("            ")) + LocationBody()))
  }

  /** `s` is laid out like the server section, around its two tests. */
  predicate ServerLaid(s: string, h: string, r: string, l: string, b: string) {
    s == (h + ("        " + "if ($" + "access_granted" + " = 0)" + " {\n"))
         + (r + ((l + ("            " + "if ($" + "access_granted" + " = 0)" + " {\n")) + b))
  }

  /** No repair can start in the pieces around the two tests. */
  predicate QuietPieces(h: string, r: string, l: string, b: string) {
    '(' !in h && '(' !in r && '(' !in l && FixSyntax(b) == b
  }

  lemma SuffixLaid()
    ensures ServerLaid(Suffix(), ServerHead(), ServerRules(), LocationStart(), LocationBody())
  {
  }

  lemma SuffixPiecesQuiet()
    ensures QuietPieces(ServerHead(), ServerRules(), LocationStart(), LocationBody())
  {
    ServerHeadNoParen();
    ServerRulesNoParen();
    LocationStartNoParen();
    LocationBodyKept();
  }

  lemma RepairedLaid()
    ensures RepairedSuffix() == (ServerHead() + Repaired("        "))
                                + (ServerRules() + ((LocationStart() + Repaired("            ")) + LocationBody()))
  {
  }

  /** A text laid out like the server section, from quiet pieces, is
      rewritten at its two tests only. */
  lemma LaidRewritten(p: string, s: string, h: string, r: string, l: string, b: string)
    requires ServerLaid(s, h, r, l, b) && QuietPieces(h, r, l, b)
    requires NoRepairBefore(p + s, |p|)
    ensures FixSyntax(p + s) == p + ((h + Repaired("        ")) + (r + ((l + Repaired("            ")) + b)))
  {
    NoIfInert(" {\n", b);
    CopiedUpTo(" {\n", b);
    TestsRewritten(p, h, "        ", "access_granted", r, l, "            ", b);
  }

  /** The same, as an implication. */
  lemma LaidRewrittenIf(p: string, s: string, h: string, r: string, l: string, b: string)
    ensures ServerLaid(s, h, r, l, b) && QuietPieces(h, r, l, b) && NoRepairBefore(p + s, |p|)
            ==> FixSyntax(p + s) == p + ((h + Repaired("        ")) + (r + ((l + Repaired("            ")) + b)))
  {
    if ServerLaid(s, h, r, l, b) && QuietPieces(h, r, l, b) && NoRepairBefore(p + s, |p|) {
      LaidRewritten(p, s, h, r, l, b);
    }
  }

  /** The server section, rewritten, is `RepairedSuffix`. */
  lemma SuffixRewritten(p: string)
    ensures NoRepairBefore(p + Suffix(), |p|) ==> FixSyntax(p + Suffix()) == p + RepairedSuffix()
  {
    SuffixLaid();
    SuffixPiecesQuiet();
    RepairedLaid();
    LaidRewrittenIf(p, Suffix(), ServerHead(), ServerRules(), LocationStart(), LocationBody());
  }

  /** A text that ends with the server section, rewritten. */
  lemma RewrittenAfter(g: string, p: string)
    ensures g == p + Suffix() && NoRepairBefore(g, |p|) ==> FixSyntax(g) == p + RepairedSuffix()
  {
    SuffixRewritten(p);
  }

  /** A generated configuration holds `if ($v = 0)` tests, and after
      `fixNginxSyntaxErrors` none is left. */
  lemma GeneratedTestsRepaired(c: NginxConfig)
    ensures !CleanParenZero(Generate(c))
    ensures CleanParenZero(FixSyntax(Generate(c)))
  {
    ServerTestRepaired(Prefix() + Sections(c), ServerHead(), ServerBody());
  }

  /** When the parenthesised repair finds nothing in the header and the
      model-dependent sections of a generated configuration, it rewrites
      exactly the two `$access_granted` tests to `!= 1` and leaves every
      other character. */
  lemma GeneratedTestsRewritten(c: NginxConfig)
    ensures NoRepairBefore(Generate(c), |Prefix() + Sections(c)|)
            ==> FixSyntax(Generate(c)) == Prefix() + Sections(c) + RepairedSuffix()
  {
    RewrittenAfter(Generate(c), Prefix() + Sections(c));
  }
}
