/** Blocks read back: the `geo` and `map $host` blocks that
    `generateNginxConfig` writes are the blocks `parseNginxConfig` finds, and
    nothing else the generator writes opens a block.

    The second half rests on the piece-by-piece view of `Keywords`: every
    fixed piece of the text is free of openings, and the text the user types
    (descriptions, URL keys, the parts of combined ACLs) is required to be
    free of them too. */
module BlocksBack {
  import opened Text
  import opened Types
  import opened Search
  import opened Parser
  import opened ParserFacts
  import opened Generator
  import opened Keywords
  import opened EntriesBack

  // ---------------------------------------------------------------------
  // Lines hold no opening
  // ---------------------------------------------------------------------

  /** What may follow a piece of user text: no opening starts in it, and its
      first character outside `\s` is not `$`. */
  predicate Follows(r: string, keyword: string)
    requires |keyword| == 3
  {
    Unopened(r, keyword) && Led(r)
  }

  /** A line break in front of text that follows. */
  lemma BreakFollows(r: string, keyword: string)
    requires IsKeyword(keyword) && Follows(r, keyword)
    ensures Unopened("\n" + r, keyword) && Leads("\n" + r, keyword)
  {
    PrependPlain("\n", r, keyword);
    LedAfterSpaces("\n", r);
  }

  /** Joining strings is associative; stated once so that proofs can
      regroup a line one piece at a time. */
  lemma Regroup(a: string, b: string, c: string)
    ensures a + b + c == a + (b + c)
  {
  }

  /** A description, in its comment, in front of the line break. */
  lemma CommentFollows(d: string, r: string, keyword: string)
    requires IsKeyword(keyword) && Unopened(d, keyword) && Follows(r, keyword)
    ensures Unopened(Comment(d) + ("\n" + r), keyword)
  {
    BreakFollows(r, keyword);
    if d == "" {
      assert Comment(d) + ("\n" + r) == "\n" + r;
    } else {
      Prepend(d, "\n" + r, keyword);
      PrependPlain("  # ", d + ("\n" + r), keyword);
      Regroup("  # ", d, "\n" + r);
    }
  }

  /** The characters of a `geo` key are digits, dots and a slash. */
  lemma CidrLetterFree(k: string, keyword: string)
    requires IsKeyword(keyword) && IsCidrKey(k)
    ensures keyword[0] !in k && '}' !in k && !IsSpace(k[0]) && k[0] != '$'
  {
    var c := RunEnd(k, 0, IsDigitOrDot);
    forall m | 0 <= m < |k|
      ensures IsDigitOrDot(k[m]) || k[m] == '/'
    {
      if c < m {
        assert k[m] == k[c + 1..][m - c - 1];
      }
    }
  }

  /** Digits hold no letter of a keyword. */
  lemma DigitsLetterFree(v: string, keyword: string)
    requires IsKeyword(keyword) && IsDigits(v)
    ensures keyword[0] !in v
  {
    forall m | 0 <= m < |v|
      ensures v[m] != keyword[0]
    {
      assert IsDigit(v[m]);
    }
  }

  /** An IP entry line in front of text that follows. */
  lemma IpLineFollows(e: IpAclEntry, r: string, keyword: string)
    requires IsKeyword(keyword) && IsCidrKey(e.cidr) && IsDigits(e.value)
    requires Unopened(e.description, keyword) && Follows(r, keyword)
    ensures Follows(IpEntryLine(e) + r, keyword)
  {
    var r3 := Comment(e.description) + ("\n" + r);
    CommentFollows(e.description, r, keyword);
    PrependPlain(";", r3, keyword);
    DigitsLetterFree(e.value, keyword);
    PrependPlain(e.value, ";" + r3, keyword);
    PrependPlain(" ", e.value + (";" + r3), keyword);
    var r6 := e.cidr + (" " + (e.value + (";" + r3)));
    CidrLetterFree(e.cidr, keyword);
    PrependPlain(e.cidr, " " + (e.value + (";" + r3)), keyword);
    PrependPlain("        ", r6, keyword);
    LedAtStart(r6);
    LedAfterSpaces("        ", r6);
    IpLineRegroup(e, r);
  }

  /** An IP entry line and what follows, grouped from the right. */
  lemma IpLineRegroup(e: IpAclEntry, r: string)
    ensures IpEntryLine(e) + r
            == "        " + (e.cidr + (" " + (e.value + (";" + (Comment(e.description) + ("\n" + r))))))
  {
    var a2 := "        " + e.cidr;
    var a3 := a2 + " ";
    var a4 := a3 + e.value;
    var a5 := a4 + ";";
    var a6 := a5 + Comment(e.description);
    Regroup(a6, "\n", r);
    var r3 := Comment(e.description) + ("\n" + r);
    Regroup(a5, Comment(e.description), "\n" + r);
    Regroup(a4, ";", r3);
    Regroup(a3, e.value, ";" + r3);
    Regroup(a2, " ", e.value + (";" + r3));
    Regroup("        ", e.cidr, " " + (e.value + (";" + r3)));
  }

  /** The IP entry lines in front of text that follows. */
  lemma {:induction false} IpLinesFollow(entries: seq<IpAclEntry>, r: string, keyword: string)
    requires IsKeyword(keyword) && Follows(r, keyword)
    requires forall k :: 0 <= k < |entries| ==> IsCidrKey(entries[k].cidr) && IsDigits(entries[k].value)
    requires forall k :: 0 <= k < |entries| ==> Unopened(entries[k].description, keyword)
    ensures Follows(IpEntryLines(entries) + r, keyword)
    decreases |entries|
  {
    if |entries| == 0 {
      assert IpEntryLines(entries) + r == r;
    } else {
      IpLinesFollow(entries[1..], r, keyword);
      IpLineFollows(entries[0], IpEntryLines(entries[1..]) + r, keyword);
      assert IpEntryLines(entries) + r == IpEntryLine(entries[0]) + (IpEntryLines(entries[1..]) + r);
    }
  }

  /** The end of a block follows, and no end of it can grow into an
      opening. */
  lemma BlockEndFollows(keyword: string)
    requires IsKeyword(keyword)
    ensures Follows(BlockEnd(), keyword) && Sealed(BlockEnd(), keyword) && Stops(BlockEnd(), keyword)
  {
    LetterFree(BlockEnd(), keyword);
    LedAtStart("}\n\n");
    LedAfterSpaces("    ", "}\n\n");
    assert BlockEnd() == "    " + "}\n\n";
    RunEndUnique(BlockEnd(), 0, 4, IsSpace);
  }

  /** A block's text that ends with the end of a block cannot end inside an
      opening. */
  lemma EndSealed(x: string, keyword: string)
    requires IsKeyword(keyword)
    ensures Sealed(x + BlockEnd(), keyword)
  {
    BlockEndFollows(keyword);
    SealedJoin(x, BlockEnd(), keyword);
  }

  /** The head of a block, from the space before `{`, in front of its
      lines. */
  lemma HeadFollows(lines: string, keyword: string)
    requires IsKeyword(keyword) && Follows(lines, keyword)
    ensures Unopened(" {\n" + DefaultLine() + lines, keyword) && Leads(" {\n" + DefaultLine() + lines, keyword)
  {
    LetterFree(DefaultLine(), keyword);
    PrependPlain(DefaultLine(), lines, keyword);
    PrependPlain(" {\n", DefaultLine() + lines, keyword);
    var w := "{\n" + DefaultLine() + lines;
    LedAtStart(w);
    LedAfterSpaces(" ", w);
    assert " {\n" + DefaultLine() + lines == " {\n" + (DefaultLine() + lines);
    assert " {\n" + DefaultLine() + lines == " " + w;
  }

  // ---------------------------------------------------------------------
  // The `geo` block of an IP group
  // ---------------------------------------------------------------------

  /** An IP group whose `geo` block is read back whole: its variable is a
      name, its entries are read back by the line expression, no
      description closes the block early with `}`, and none opens a `map`
      block. */
  predicate GeoWritable(g: IpAclGroup) {
    IsWord(g.name)
    && (forall k :: 0 <= k < |g.entries| ==> IpWritable(g.entries[k]))
    && (forall k :: 0 <= k < |g.entries| ==> '}' !in g.entries[k].description)
    && (forall k :: 0 <= k < |g.entries| ==> Unopened(g.entries[k].description, "map"))
  }

  /** A block that opens with letter-free text, a name and ` {`, followed
      by the lines of its body, holds no opening. */
  lemma NamedBlockUnopened(head: string, name: string, lines: string, keyword: string)
    requires IsKeyword(keyword) && keyword[0] !in head && IsWord(name) && Follows(lines, keyword)
    ensures Unopened(head + name + " {\n" + DefaultLine() + lines, keyword)
  {
    HeadFollows(lines, keyword);
    var h := " {\n" + DefaultLine() + lines;
    WordUnopened(name, keyword);
    Prepend(name, h, keyword);
    PrependPlain(head, name + h, keyword);
    assert head + name + " {\n" + DefaultLine() + lines == head + (name + h);
  }

  /** No `map` block opens in the `geo` block of an IP group, and no end of
      it can grow into one. */
  lemma GeoTextUnopened(g: IpAclGroup)
    requires GeoWritable(g)
    ensures Unopened(GeoText(g), "map") && Sealed(GeoText(g), "map")
  {
    BlockEndFollows("map");
    IpLinesFollow(g.entries, BlockEnd(), "map");
    NamedBlockUnopened("    geo $", g.name, IpEntryLines(g.entries) + BlockEnd(), "map");
    assert GeoText(g) == "    geo $" + g.name + " {\n" + DefaultLine() + (IpEntryLines(g.entries) + BlockEnd());
    EndSealed("    geo $" + g.name + " {\n" + DefaultLine() + IpEntryLines(g.entries), "map");
  }

  // ---------------------------------------------------------------------
  // The `map $host` block of a URL group
  // ---------------------------------------------------------------------

  /** The padding `PadEnd` adds is white space after the padded text. */
  lemma PadSplit(q: string, width: nat) returns (pad: string)
    ensures PadEnd(q, width) == q + pad && forall k :: 0 <= k < |pad| ==> pad[k] == ' '
  {
    var p := PadEnd(q, width);
    pad := p[|q|..];
    assert p == p[..|q|] + pad;
    forall k | 0 <= k < |pad|
      ensures pad[k] == ' '
    {
      assert pad[k] == p[|q| + k];
    }
  }

  /** The padded, quoted key of a URL entry line in front of the rest of
      the line. */
  lemma QuotedFollows(k: string, w: string, keyword: string)
    requires IsKeyword(keyword) && Unopened(k, keyword) && Unopened(w, keyword)
    ensures Unopened(PadEnd("\"" + k + "\"", 30) + w, keyword)
  {
    var q := "\"" + k + "\"";
    var pad := PadSplit(q, 30);
    PrependPlain(pad, w, keyword);
    PrependPlain("\"", pad + w, keyword);
    LedAtStart("\"" + (pad + w));
    Prepend(k, "\"" + (pad + w), keyword);
    PrependPlain("\"", k + ("\"" + (pad + w)), keyword);
    Regroup(q, pad, w);
    Regroup("\"" + k, "\"", pad + w);
    Regroup("\"", k, "\"" + (pad + w));
  }

  /** A URL entry line in front of text that follows. */
  lemma UrlLineFollows(e: UrlAclEntry, r: string, keyword: string)
    requires IsKeyword(keyword) && |UrlKey(e)| > 0 && IsDigits(e.value)
    requires Unopened(UrlKey(e), keyword) && Unopened(e.description, keyword) && Follows(r, keyword)
    ensures Follows(UrlEntryLine(e) + r, keyword)
  {
    var r3 := Comment(e.description) + ("\n" + r);
    CommentFollows(e.description, r, keyword);
    PrependPlain(";", r3, keyword);
    DigitsLetterFree(e.value, keyword);
    PrependPlain(e.value, ";" + r3, keyword);
    PrependPlain(" ", e.value + (";" + r3), keyword);
    var w := " " + (e.value + (";" + r3));
    var q := PadEnd("\"" + UrlKey(e) + "\"", 30);
    QuotedFollows(UrlKey(e), w, keyword);
    PrependPlain("        ", q + w, keyword);
    assert (q + w)[0] == '"';
    LedAtStart(q + w);
    LedAfterSpaces("        ", q + w);
    UrlLineRegroup(e, r);
  }

  /** A URL entry line and what follows, grouped from the right. */
  lemma UrlLineRegroup(e: UrlAclEntry, r: string)
    ensures UrlEntryLine(e) + r
            == "        " + (PadEnd("\"" + UrlKey(e) + "\"", 30) + (" " + (e.value + (";" + (Comment(e.description) + ("\n" + r))))))
  {
    var q := PadEnd("\"" + UrlKey(e) + "\"", 30);
    var a2 := "        " + q;
    var a3 := a2 + " ";
    var a4 := a3 + e.value;
    var a5 := a4 + ";";
    var a6 := a5 + Comment(e.description);
    Regroup(a6, "\n", r);
    var r3 := Comment(e.description) + ("\n" + r);
    Regroup(a5, Comment(e.description), "\n" + r);
    Regroup(a4, ";", r3);
    Regroup(a3, e.value, ";" + r3);
    Regroup(a2, " ", e.value + (";" + r3));
    Regroup("        ", q, " " + (e.value + (";" + r3)));
  }

  /** The URL entry lines in front of text that follows. */
  lemma {:induction false} UrlLinesFollow(entries: seq<UrlAclEntry>, r: string, keyword: string)
    requires IsKeyword(keyword) && Follows(r, keyword)
    requires forall k :: 0 <= k < |entries| ==> |UrlKey(entries[k])| > 0 && IsDigits(entries[k].value)
    requires forall k :: 0 <= k < |entries| ==> Unopened(UrlKey(entries[k]), keyword) && Unopened(entries[k].description, keyword)
    ensures Follows(UrlEntryLines(entries) + r, keyword)
    decreases |entries|
  {
    if |entries| == 0 {
      assert UrlEntryLines(entries) + r == r;
    } else {
      UrlLinesFollow(entries[1..], r, keyword);
      UrlLineFollows(entries[0], UrlEntryLines(entries[1..]) + r, keyword);
      assert UrlEntryLines(entries) + r == UrlEntryLine(entries[0]) + (UrlEntryLines(entries[1..]) + r);
    }
  }

  /** A URL group whose `map $host` block is read back whole: its variable
      is a name, its entries are read back by the line expression, no key
      or description closes the block early with `}`, and none opens a
      `geo` block. */
  predicate MapWritable(g: UrlAclGroup) {
    IsWord(g.name)
    && (forall k :: 0 <= k < |g.entries| ==> UrlWritable(g.entries[k]))
    && (forall k :: 0 <= k < |g.entries| ==> '}' !in UrlKey(g.entries[k]) && '}' !in g.entries[k].description)
    && (forall k :: 0 <= k < |g.entries| ==> Unopened(UrlKey(g.entries[k]), "geo") && Unopened(g.entries[k].description, "geo"))
  }

  /** No `geo` block opens in the `map $host` block of a URL group, and no
      end of it can grow into one. */
  lemma MapTextUnopened(g: UrlAclGroup)
    requires MapWritable(g)
    ensures Unopened(MapText(g), "geo") && Sealed(MapText(g), "geo")
  {
    BlockEndFollows("geo");
    UrlLinesFollow(g.entries, BlockEnd(), "geo");
    NamedBlockUnopened("    map $host $", g.name, UrlEntryLines(g.entries) + BlockEnd(), "geo");
    assert MapText(g) == "    map $host $" + g.name + " {\n" + DefaultLine() + (UrlEntryLines(g.entries) + BlockEnd());
    EndSealed("    map $host $" + g.name + " {\n" + DefaultLine() + UrlEntryLines(g.entries), "geo");
  }

  // ---------------------------------------------------------------------
  // The `map` block of a combined ACL
  // ---------------------------------------------------------------------

  /** A rule line and what follows, grouped from the right. */
  lemma RuleLineRegroup(r: CombinedAclRule, rest: string)
    ensures RuleLine(r) + rest
            == "        " + ("\"" + (r.pattern + ("\" " + (r.value + (";" + (Comment(r.description) + ("\n" + rest)))))))
  {
    var a2 := "        \"" + r.pattern;
    var a3 := a2 + "\" ";
    var a4 := a3 + r.value;
    var a5 := a4 + ";";
    var a6 := a5 + Comment(r.description);
    Regroup(a6, "\n", rest);
    var r3 := Comment(r.description) + ("\n" + rest);
    Regroup(a5, Comment(r.description), "\n" + rest);
    Regroup(a4, ";", r3);
    Regroup(a3, r.value, ";" + r3);
    var w := "\" " + (r.value + (";" + r3));
    Regroup(a2, "\" ", r.value + (";" + r3));
    Regroup("        \"", r.pattern, w);
    Regroup("        ", "\"", r.pattern + w);
  }

  /** A rule line in front of text that follows. */
  lemma RuleLineFollows(r: CombinedAclRule, rest: string, keyword: string)
    requires IsKeyword(keyword) && Follows(rest, keyword)
    requires Unopened(r.pattern, keyword) && Unopened(r.value, keyword) && Unopened(r.description, keyword)
    ensures Follows(RuleLine(r) + rest, keyword)
  {
    var r3 := Comment(r.description) + ("\n" + rest);
    CommentFollows(r.description, rest, keyword);
    PrependPlain(";", r3, keyword);
    LedAtStart(";" + r3);
    Prepend(r.value, ";" + r3, keyword);
    var w := "\" " + (r.value + (";" + r3));
    PrependPlain("\" ", r.value + (";" + r3), keyword);
    LedAtStart(w);
    Prepend(r.pattern, w, keyword);
    PrependPlain("\"", r.pattern + w, keyword);
    PrependPlain("        ", "\"" + (r.pattern + w), keyword);
    LedAtStart("\"" + (r.pattern + w));
    LedAfterSpaces("        ", "\"" + (r.pattern + w));
    RuleLineRegroup(r, rest);
  }

  /** The rule lines in front of text that follows. */
  lemma {:induction false} RuleLinesFollow(rules: seq<CombinedAclRule>, rest: string, keyword: string)
    requires IsKeyword(keyword) && Follows(rest, keyword)
    requires forall k :: 0 <= k < |rules| ==> Unopened(rules[k].pattern, keyword) && Unopened(rules[k].value, keyword)
    requires forall k :: 0 <= k < |rules| ==> Unopened(rules[k].description, keyword)
    ensures Follows(RuleLines(rules) + rest, keyword)
    decreases |rules|
  {
    if |rules| == 0 {
      assert RuleLines(rules) + rest == rest;
    } else {
      RuleLinesFollow(rules[1..], rest, keyword);
      RuleLineFollows(rules[0], RuleLines(rules[1..]) + rest, keyword);
      assert RuleLines(rules) + rest == RuleLine(rules[0]) + (RuleLines(rules[1..]) + rest);
    }
  }

  /** A source group that does not end in white space: a keyword at its end
      cannot reach the `$` of the next group. */
  predicate Solid(group: string) {
    group == "" || !IsSpace(group[|group| - 1])
  }

  /** The source expression in front of text that starts with `"`. */
  lemma {:induction false} SourceFollows(groups: seq<string>, z: string, keyword: string)
    requires IsKeyword(keyword) && Unopened(z, keyword) && Leads(z, keyword)
    requires forall k :: 0 <= k < |groups| ==> Unopened(groups[k], keyword) && Solid(groups[k])
    ensures Unopened(SourceExpression(groups) + z, keyword)
    ensures Leads(SourceExpression(groups) + z, keyword) || (SourceExpression(groups) + z)[0] == '$'
    decreases |groups|
  {
    if |groups| == 0 {
      assert SourceExpression(groups) + z == z;
    } else {
      var w := SourceExpression(groups[1..]) + z;
      SourceFollows(groups[1..], z, keyword);
      var g := groups[0];
      if g == "" {
        assert g + w == w;
      } else {
        UnopenedJoin(g, w, keyword);
      }
      PrependPlain("$", g + w, keyword);
      Regroup("$", g, w);
      Regroup("$" + g, SourceExpression(groups[1..]), z);
    }
  }

  /** A combined ACL whose block opens no block of either kind: its name,
      source groups and rules hold no opening, and no source group ends in
      white space. */
  predicate CombinedWritable(a: CombinedAcl) {
    Closed(a.name)
    && (forall k :: 0 <= k < |a.sourceGroups| ==> Closed(a.sourceGroups[k]) && Solid(a.sourceGroups[k]))
    && (forall k :: 0 <= k < |a.rules| ==> Closed(a.rules[k].pattern) && Closed(a.rules[k].value))
    && (forall k :: 0 <= k < |a.rules| ==> Closed(a.rules[k].description))
  }

  /** The name of a block and its lines, from the name on. */
  lemma NamedTailUnopened(name: string, lines: string, keyword: string)
    requires IsKeyword(keyword) && Unopened(name, keyword) && Follows(lines, keyword)
    ensures Unopened(name + (" {\n" + DefaultLine() + lines), keyword)
  {
    HeadFollows(lines, keyword);
    Prepend(name, " {\n" + DefaultLine() + lines, keyword);
  }

  /** The opening of a combined map, `map "`, is no block opening and cannot
      grow into one. */
  lemma MapQuoteSealed()
    ensures Unopened("    map \"", "map") && Sealed("    map \"", "map")
  {
    var s := "    map \"";
    forall k | 0 <= k < |s|
      ensures !OpensBlock(s[k..], "map") && !OpenEnd(s, k, "map")
    {
      if k == 4 {
        assert s[4..] == "map \"";
        RunEndUnique(s[4..], 3, 4, IsSpace);
        assert s[7..] == " \"";
        NotBlank(s[7..], 1);
      } else {
        assert s[k..][0] == s[k];
        if |s| - k >= 3 {
          assert s[k..k + 3][0] == s[k];
        }
      }
    }
  }

  /** The block of a combined ACL opens no block of the kind `keyword`. */
  lemma CombinedTextFollows(a: CombinedAcl, keyword: string)
    requires IsKeyword(keyword)
    requires Unopened(a.name, keyword)
    requires forall k :: 0 <= k < |a.sourceGroups| ==> Unopened(a.sourceGroups[k], keyword) && Solid(a.sourceGroups[k])
    requires forall k :: 0 <= k < |a.rules| ==> Unopened(a.rules[k].pattern, keyword) && Unopened(a.rules[k].value, keyword)
    requires forall k :: 0 <= k < |a.rules| ==> Unopened(a.rules[k].description, keyword)
    ensures Unopened(CombinedText(a), keyword) && Sealed(CombinedText(a), keyword)
  {
    BlockEndFollows(keyword);
    var lines := RuleLines(a.rules) + BlockEnd();
    RuleLinesFollow(a.rules, BlockEnd(), keyword);
    var n := a.name + (" {\n" + DefaultLine() + lines);
    NamedTailUnopened(a.name, lines, keyword);
    var z := "\" $" + n;
    PrependPlain("\" $", n, keyword);
    LedAtStart(z);
    SourceFollows(a.sourceGroups, z, keyword);
    var v := SourceExpression(a.sourceGroups) + z;
    if keyword == "map" {
      MapQuoteSealed();
    } else {
      LetterFree("    map \"", keyword);
    }
    Prepend("    map \"", v, keyword);
    CombinedRegroup(a);
    EndSealed("    map \"" + SourceExpression(a.sourceGroups) + "\" $" + a.name + " {\n" + DefaultLine() + RuleLines(a.rules), keyword);
  }

  lemma CombinedRegroup(a: CombinedAcl)
    ensures CombinedText(a)
            == "    map \"" + (SourceExpression(a.sourceGroups) + ("\" $" + (a.name + (" {\n" + DefaultLine() + (RuleLines(a.rules) + BlockEnd())))))
  {
    var h := " {\n" + DefaultLine() + (RuleLines(a.rules) + BlockEnd());
    var se := SourceExpression(a.sourceGroups);
    var a1 := "    map \"" + se;
    var a2 := a1 + "\" $";
    var a3 := a2 + a.name;
    assert CombinedText(a) == a3 + h;
    Regroup(a2, a.name, h);
    Regroup(a1, "\" $", a.name + h);
    Regroup("    map \"", se, "\" $" + (a.name + h));
  }

  /** The block of a combined ACL opens no block of either kind. */
  lemma CombinedTextClosed(a: CombinedAcl)
    requires CombinedWritable(a)
    ensures Closed(CombinedText(a)) && Shut(CombinedText(a))
  {
    CombinedTextFollows(a, "geo");
    CombinedTextFollows(a, "map");
  }

  // ---------------------------------------------------------------------
  // The block searches find the generated blocks
  // ---------------------------------------------------------------------

  /** A text that holds `a + b` from `j` on holds `b` and then the rest from
      `j + |a|` on. */
  lemma SplitAt(t: string, j: nat, j2: nat, a: string, b: string)
    requires j <= j2 <= |t| && t[j..j2] == a + b
    ensures j + |a| <= |t| && t[j + |a|..] == b + t[j2..]
  {
    assert t[j..] == t[j..j2] + t[j2..];
    assert t[j + |a|..] == t[j..][|a|..];
    assert (a + b + t[j2..])[|a|..] == b + t[j2..];
  }

  /** The `geo` block an IP group is read back as. */
  function GeoBlock(g: IpAclGroup): Block {
    Block(|g.name| + |GeoBody(g.entries)| + 8, "", g.name, GeoBody(g.entries))
  }

  /** No `}` closes the body of the `geo` block of a writable group early. */
  lemma {:induction false} IpLinesNoBrace(entries: seq<IpAclEntry>)
    requires forall k :: 0 <= k < |entries| ==> IsCidrKey(entries[k].cidr) && IsDigits(entries[k].value)
    requires forall k :: 0 <= k < |entries| ==> '}' !in entries[k].description
    ensures '}' !in IpEntryLines(entries)
    decreases |entries|
  {
    if |entries| > 0 {
      var e := entries[0];
      CidrLetterFree(e.cidr, "geo");
      assert forall m :: 0 <= m < |e.value| ==> IsDigit(e.value[m]);
      assert '}' !in e.value;
      IpLinesNoBrace(entries[1..]);
    }
  }

  /** The `geo` block of an IP group, cut where the block expression sees
      it: indentation, the keyword and a space, then the named body. */
  lemma GeoTextShape(g: IpAclGroup)
    ensures GeoText(g) == "    " + ("geo " + ("$" + g.name + " {" + GeoBody(g.entries) + "}" + "\n\n"))
  {
    var n := g.name;
    var d := DefaultLine();
    var ln := IpEntryLines(g.entries);
    var w := "}" + "\n\n";
    var v := "\n" + (d + (ln + ("    " + w)));
    BlockShape("    geo $", n, ln, "    " + ("geo " + "$"), v);
    BodyShape(ln, w);
    Regroup("$" + n, " {", GeoBody(g.entries) + w);
    Regroup("$", n, " {" + v);
    Regroup("$" + n + " {", GeoBody(g.entries), w);
    Regroup("$" + n + " {" + GeoBody(g.entries), "}", "\n\n");
    Regroup("    ", "geo ", "$" + (n + (" {" + v)));
  }

  /** A block written as a head, a name, ` {`, the default line, the body
      lines and the end, grouped from the right. */
  lemma BlockShape(head: string, n: string, ln: string, h: string, v: string)
    requires head == h && v == "\n" + (DefaultLine() + (ln + ("    " + ("}" + "\n\n"))))
    ensures head + n + " {\n" + DefaultLine() + ln + BlockEnd() == h + (n + (" {" + v))
  {
    var d := DefaultLine();
    var l3 := "    " + ("}" + "\n\n");
    assert BlockEnd() == l3;
    var x3 := head + n + " {\n";
    Regroup(x3 + d, ln, l3);
    Regroup(x3, d, ln + l3);
    Regroup(head + n, " {\n", d + (ln + l3));
    Regroup(head, n, " {\n" + (d + (ln + l3)));
    assert " {\n" == " {" + "\n";
    Regroup(" {", "\n", d + (ln + l3));
  }

  /** The body of a block followed by its `}` and blank line, grouped from
      the right. */
  lemma BodyShape(ln: string, w: string)
    ensures "\n" + DefaultLine() + ln + "    " + w == "\n" + (DefaultLine() + (ln + ("    " + w)))
  {
    Regroup("\n" + DefaultLine() + ln, "    ", w);
    Regroup("\n" + DefaultLine(), ln, "    " + w);
    Regroup("\n", DefaultLine(), ln + ("    " + w));
  }

  /** What follows the indentation of the `geo` block of a writable IP
      group: the keyword, a space and a `$name {body}` match `x`. */
  lemma GeoTextSplit(t: string, j: nat, g: IpAclGroup, j2: nat) returns (x: string)
    requires IsWord(g.name) && '}' !in GeoBody(g.entries) && |GeoBody(g.entries)| > 0
    requires j2 == j + |GeoText(g)| && j2 <= |t| && t[j..j2] == GeoText(g)
    ensures j + 4 <= |t| && t[j + 4..] == "geo " + x
    ensures NamedAt(x) == Some(Named(g.name, GeoBody(g.entries), |g.name| + |GeoBody(g.entries)| + 4))
  {
    x := GeoTextCut(t, j, g, j2);
    GeoNamed(g, "\n\n" + t[j2..]);
  }

  /** The cut of `GeoTextShape`, in the text that holds the block. */
  lemma GeoTextCut(t: string, j: nat, g: IpAclGroup, j2: nat) returns (x: string)
    requires j2 == j + |GeoText(g)| && j2 <= |t| && t[j..j2] == GeoText(g)
    ensures j + 4 <= |t| && t[j + 4..] == "geo " + x
    ensures x == "$" + g.name + " {" + GeoBody(g.entries) + "}" + ("\n\n" + t[j2..])
  {
    GeoTextShape(g);
    var y := "$" + g.name + " {" + GeoBody(g.entries) + "}";
    x := y + ("\n\n" + t[j2..]);
    SplitAt(t, j, j2, "    ", "geo " + (y + "\n\n"));
    Regroup("geo ", y + "\n\n", t[j2..]);
    Regroup(y, "\n\n", t[j2..]);
  }

  /** The named body of the `geo` block of a writable IP group. */
  lemma GeoNamed(g: IpAclGroup, rest: string)
    requires IsWord(g.name) && '}' !in GeoBody(g.entries) && |GeoBody(g.entries)| > 0
    ensures NamedAt("$" + g.name + " {" + GeoBody(g.entries) + "}" + rest)
            == Some(Named(g.name, GeoBody(g.entries), |g.name| + |GeoBody(g.entries)| + 4))
  {
    NamedBody(g.name, GeoBody(g.entries), rest);
  }

  lemma GeoTextLength(g: IpAclGroup)
    ensures |GeoText(g)| == |g.name| + |GeoBody(g.entries)| + 14
  {
    GeoTextShape(g);
    var y := "$" + g.name + " {" + GeoBody(g.entries) + "}";
    assert |y| == |g.name| + |GeoBody(g.entries)| + 4;
  }

  /** No `}` in the body of the `geo` block of a writable IP group. */
  lemma GeoBodyNoBrace(g: IpAclGroup)
    requires GeoWritable(g)
    ensures '}' !in GeoBody(g.entries) && |GeoBody(g.entries)| > 0
  {
    IpLinesNoBrace(g.entries);
    LinesBody(IpEntryLines(g.entries));
  }

  /** The search for `geo` blocks reports the block of a writable IP group
      at its keyword and goes on after the blank line that follows it. */
  lemma GeoTextHit(t: string, j: nat, g: IpAclGroup, j2: nat)
    requires GeoWritable(g) && j2 == j + |GeoText(g)| && j2 <= |t| && t[j..j2] == GeoText(g)
    ensures Find(GeoBlockAt, BlockLen, false, t, j) == [Hit(j + 4, GeoBlock(g))] + Find(GeoBlockAt, BlockLen, false, t, j2)
  {
    GeoBodyNoBrace(g);
    var x := GeoTextSplit(t, j, g, j2);
    GeoTextLength(g);
    GeoTextEdges(t, j, g, j2);
    var m := Named(g.name, GeoBody(g.entries), |g.name| + |GeoBody(g.entries)| + 4);
    GeoAfter(t[j + 4..], x, m, GeoBlock(g));
    BlockHit(GeoBlockAt, "geo", t, j, GeoBlock(g), j2);
  }

  /** `GeoBlockAfter`, for a text known to be `geo ` and a named body. */
  lemma GeoAfter(u: string, x: string, m: Named, b: Block)
    requires u == "geo " + x && NamedAt(x) == Some(m) && b == Block(4 + m.end, "", m.name, m.body)
    ensures GeoBlockAt(u) == Some(b)
  {
    GeoBlockAfter(x, m);
  }

  /** A block that the search meets after four spaces, and that two line
      breaks follow, is reported, and the search goes on after them. */
  lemma BlockHit(matcher: string -> Option<Block>, keyword: string, t: string, j: nat, b: Block, j2: nat)
    requires |keyword| == 3 && !IsSpace(keyword[0])
    requires forall u :: matcher(u).Some? ==> OpensBlock(u, keyword)
    requires j + 4 + b.len + 2 == j2 <= |t| && 0 < b.len && matcher(t[j + 4..]) == Some(b)
    requires forall m :: j <= m < j + 4 ==> t[m] == ' '
    requires t[j2 - 2] == '\n' && t[j2 - 1] == '\n'
    ensures Find(matcher, BlockLen, false, t, j) == [Hit(j + 4, b)] + Find(matcher, BlockLen, false, t, j2)
  {
    var i := j + 4;
    var e := j2 - 2;
    SpacesMiss(matcher, keyword, t, j, i);
    FindHit(matcher, BlockLen, false, t, i, b);
    assert i + BlockLen(b) == e;
    SpacesMiss(matcher, keyword, t, e, j2);
  }

  /** The search passes over white space. */
  lemma SpacesMiss(matcher: string -> Option<Block>, keyword: string, t: string, i: nat, j: nat)
    requires |keyword| == 3 && !IsSpace(keyword[0])
    requires forall u :: matcher(u).Some? ==> OpensBlock(u, keyword)
    requires i <= j <= |t| && forall m :: i <= m < j ==> IsSpace(t[m])
    ensures Find(matcher, BlockLen, false, t, i) == Find(matcher, BlockLen, false, t, j)
  {
    forall m | i <= m < j
      ensures !HitAt(matcher, BlockLen, false, t, m)
    {
      assert t[m..][0] == t[m];
    }
    FindSkip(matcher, BlockLen, false, t, i, j);
  }

  /** The `geo` block of an IP group starts with four spaces and ends with
      two line breaks. */
  lemma GeoTextEdges(t: string, j: nat, g: IpAclGroup, j2: nat)
    requires j2 == j + |GeoText(g)| && j2 <= |t| && t[j..j2] == GeoText(g)
    ensures forall m :: j <= m < j + 4 ==> t[m] == ' '
    ensures t[j2 - 2] == '\n' && t[j2 - 1] == '\n'
  {
    var s := GeoText(g);
    assert s == "    geo $" + g.name + " {\n" + DefaultLine() + IpEntryLines(g.entries) + "    }\n\n";
    assert forall m :: j <= m < j2 ==> t[m] == s[m - j];
  }

  // ---------------------------------------------------------------------
  // The search meets the `map $host` block of a URL group
  // ---------------------------------------------------------------------

  /** The `map` block a URL group is read back as. */
  function MapBlock(g: UrlAclGroup): Block {
    HostBlock(g.name, MapBody(g.entries))
  }

  /** The `map` block read from a `HostText`. */
  function HostBlock(name: string, body: string): Block {
    Block(|name| + |body| + 14, "host", name, body)
  }

  /** No `}` closes the body of the `map $host` block of a writable group
      early. */
  lemma {:induction false} UrlLinesNoBrace(entries: seq<UrlAclEntry>)
    requires forall k :: 0 <= k < |entries| ==> IsDigits(entries[k].value)
    requires forall k :: 0 <= k < |entries| ==> '}' !in UrlKey(entries[k]) && '}' !in entries[k].description
    ensures '}' !in UrlEntryLines(entries)
    decreases |entries|
  {
    if |entries| > 0 {
      var e := entries[0];
      var q := "\"" + UrlKey(e) + "\"";
      var pad := PadSplit(q, 30);
      assert '}' !in pad;
      assert forall m :: 0 <= m < |e.value| ==> IsDigit(e.value[m]);
      assert '}' !in e.value;
      UrlLinesNoBrace(entries[1..]);
    }
  }

  /** No `}` in the body of the `map $host` block of a writable URL group. */
  lemma MapBodyNoBrace(g: UrlAclGroup)
    requires MapWritable(g)
    ensures '}' !in MapBody(g.entries) && |MapBody(g.entries)| > 0
  {
    assert forall k :: 0 <= k < |g.entries| ==> IsDigits(g.entries[k].value);
    UrlLinesNoBrace(g.entries);
    LinesBody(UrlEntryLines(g.entries));
  }

  /** The body of a block holds a `}` only where its lines do. */
  lemma LinesBody(ln: string)
    requires '}' !in ln
    ensures '}' !in "\n" + DefaultLine() + ln + "    " && |"\n" + DefaultLine() + ln + "    "| > 0
  {
  }

  /** The text of a `map $host` block with variable `name` and body `body`,
      cut where the block expression sees it: indentation, the keyword, its
      source and a space, then the named body. */
  function HostText(name: string, body: string): string {
    "    " + ("map $host " + ("$" + name + " {" + body + "}" + "\n\n"))
  }

  lemma MapTextShape(g: UrlAclGroup)
    ensures MapText(g) == HostText(g.name, MapBody(g.entries))
  {
    var n := g.name;
    var d := DefaultLine();
    var ln := UrlEntryLines(g.entries);
    var w := "}" + "\n\n";
    var v := "\n" + (d + (ln + ("    " + w)));
    BlockShape("    map $host $", n, ln, "    " + ("map $host " + "$"), v);
    BodyShape(ln, w);
    Regroup("$" + n, " {", MapBody(g.entries) + w);
    Regroup("$", n, " {" + v);
    Regroup("$" + n + " {", MapBody(g.entries), w);
    Regroup("$" + n + " {" + MapBody(g.entries), "}", "\n\n");
    Regroup("    ", "map $host ", "$" + (n + (" {" + v)));
  }

  /** A text that holds a `HostText` from `j` on holds `map $host ` and a
      named body from `j + 4` on. */
  lemma HostCut(t: string, j: nat, name: string, body: string, j2: nat) returns (x: string)
    requires j2 == j + |HostText(name, body)| && j2 <= |t| && t[j..j2] == HostText(name, body)
    ensures j + 4 <= |t| && t[j + 4..] == "map $host " + x
    ensures x == "$" + name + " {" + body + "}" + ("\n\n" + t[j2..])
  {
    var y := "$" + name + " {" + body + "}";
    x := y + ("\n\n" + t[j2..]);
    SplitAt(t, j, j2, "    ", "map $host " + (y + "\n\n"));
    Regroup("map $host ", y + "\n\n", t[j2..]);
    Regroup(y, "\n\n", t[j2..]);
  }

  /** `NamedShape`, out of the way of what the caller knows. */
  lemma NamedBody(name: string, body: string, rest: string)
    requires IsWord(name) && |body| > 0 && '}' !in body
    ensures NamedAt("$" + name + " {" + body + "}" + rest) == Some(Named(name, body, |name| + |body| + 4))
  {
    NamedShape(name, body, rest);
  }

  /** What follows the indentation of a `map $host` block: the keyword, its
      source and a space, and a `$name {body}` that matches `x`. */
  lemma HostSplit(t: string, j: nat, name: string, body: string, j2: nat) returns (x: string)
    requires IsWord(name) && '}' !in body && |body| > 0
    requires j2 == j + |HostText(name, body)| && j2 <= |t| && t[j..j2] == HostText(name, body)
    ensures j + 4 <= |t| && t[j + 4..] == "map $host " + x
    ensures NamedAt(x) == Some(Named(name, body, |name| + |body| + 4))
    ensures |x| > |name| + 2 && x[0] == '$' && x[|name| + 1] == ' ' && x[|name| + 2] == '{'
    ensures forall k :: 1 <= k <= |name| ==> IsWordChar(x[k])
  {
    x := HostCut(t, j, name, body, j2);
    NamedBody(name, body, "\n\n" + t[j2..]);
    NameChars(x, name, body + "}" + ("\n\n" + t[j2..]));
  }

  /** `MapBlockChars`, for a text known to be `map $host ` and a named body. */
  lemma MapAfter(u: string, x: string, m: Named, b: Block)
    requires u == "map $host " + x && NamedAt(x) == Some(m) && b == Block(10 + m.end, "host", m.name, m.body)
    requires |x| > |m.name| + 2 && x[0] == '$' && x[|m.name| + 1] == ' ' && x[|m.name| + 2] == '{'
    requires forall k :: 1 <= k <= |m.name| ==> IsWordChar(x[k])
    ensures MapBlockAt(u) == Some(b)
  {
    HostChars(u, x, |m.name|);
    assert u[9..] == " " + x;
    MapTailAfter(x, m);
    HostMatch(u, |m.name|, Named(m.name, m.body, 1 + m.end), b);
  }

  /** `MapBlockChars` with the source `host`. */
  lemma HostMatch(u: string, n: nat, m: Named, b: Block)
    requires n + 12 < |u| && u[5..9] == "host"
    requires u[0] == 'm' && u[1] == 'a' && u[2] == 'p' && u[3] == ' ' && u[4] == '$'
    requires u[10] == '$' && u[n + 11] == ' ' && u[n + 12] == '{'
    requires forall k :: 5 <= k < n + 12 ==> NotOpenBrace(u[k])
    requires forall k :: 10 < k < n + 11 ==> !IsSpace(u[k])
    requires MapTailAt(u[9..]) == Some(m) && b == Block(9 + m.end, "host", m.name, m.body)
    ensures MapBlockAt(u) == Some(b)
  {
    MapBlockChars(u, 9, n + 12, m);
  }

  /** The characters `MapBlockChars` looks at in `map $host $name {`. */
  lemma HostChars(u: string, x: string, n: nat)
    requires u == "map $host " + x
    requires |x| > n + 2 && x[0] == '$' && x[n + 1] == ' ' && x[n + 2] == '{'
    requires forall k :: 1 <= k <= n ==> IsWordChar(x[k])
    ensures n + 12 < |u| && u[5..9] == "host"
    ensures u[0] == 'm' && u[1] == 'a' && u[2] == 'p' && u[3] == ' ' && u[4] == '$'
    ensures u[10] == '$' && u[n + 11] == ' ' && u[n + 12] == '{'
    ensures forall k :: 5 <= k < n + 12 ==> NotOpenBrace(u[k])
    ensures forall k :: 10 < k < n + 11 ==> !IsSpace(u[k])
  {
    forall k | 10 <= k < |u|
      ensures u[k] == x[k - 10]
    {
    }
  }

  /** A `map $host` block starts with four spaces and ends with two line
      breaks. */
  lemma HostEdges(t: string, j: nat, name: string, body: string, j2: nat)
    requires j2 == j + |HostText(name, body)| && j2 <= |t| && t[j..j2] == HostText(name, body)
    ensures |HostText(name, body)| == |name| + |body| + 20
    ensures forall m :: j <= m < j + 4 ==> t[m] == ' '
    ensures t[j2 - 2] == '\n' && t[j2 - 1] == '\n'
  {
    var s := HostText(name, body);
    assert forall m :: j <= m < j2 ==> t[m] == s[m - j];
  }

  /** The search for `map` blocks reports a `map $host` block at its keyword
      and goes on after the blank line that follows it. */
  lemma HostHit(t: string, j: nat, name: string, body: string, j2: nat)
    requires IsWord(name) && '}' !in body && |body| > 0
    requires j2 == j + |HostText(name, body)| && j2 <= |t| && t[j..j2] == HostText(name, body)
    ensures Find(MapBlockAt, BlockLen, false, t, j)
            == [Hit(j + 4, HostBlock(name, body))] + Find(MapBlockAt, BlockLen, false, t, j2)
  {
    var x := HostSplit(t, j, name, body, j2);
    HostEdges(t, j, name, body, j2);
    var b := HostBlock(name, body);
    MapAfter(t[j + 4..], x, Named(name, body, |name| + |body| + 4), b);
    BlockHit(MapBlockAt, "map", t, j, b, j2);
  }

  /** The search for `map` blocks reports the block of a writable URL group
      at its keyword and goes on after the blank line that follows it. */
  lemma MapTextHit(t: string, j: nat, g: UrlAclGroup, j2: nat)
    requires MapWritable(g) && j2 == j + |MapText(g)| && j2 <= |t| && t[j..j2] == MapText(g)
    ensures Find(MapBlockAt, BlockLen, false, t, j) == [Hit(j + 4, MapBlock(g))] + Find(MapBlockAt, BlockLen, false, t, j2)
  {
    MapBodyNoBrace(g);
    MapTextShape(g);
    HostHit(t, j, g.name, MapBody(g.entries), j2);
  }

  // ---------------------------------------------------------------------
  // Whole sections
  // ---------------------------------------------------------------------

  /** A text that holds `a + b` from `j` to `j2` holds `a` and then `b`. */
  lemma SliceSplit(t: string, j: nat, m: nat, j2: nat, a: string, b: string)
    requires j <= m <= j2 <= |t| && m == j + |a| && t[j..j2] == a + b
    ensures t[j..m] == a && t[m..j2] == b
  {
    assert t[j..m] == t[j..j2][..|a|];
    assert t[m..j2] == t[j..j2][|a|..];
  }

  /** The `geo` blocks the IP groups are read back as, in order. */
  function GeoBlocksOf(gs: seq<IpAclGroup>): (r: seq<Block>)
    ensures |r| == |gs|
  {
    if |gs| == 0 then [] else [GeoBlock(gs[0])] + GeoBlocksOf(gs[1..])
  }

  /** The `map` blocks the URL groups are read back as, in order. */
  function MapBlocksOf(gs: seq<UrlAclGroup>): (r: seq<Block>)
    ensures |r| == |gs|
  {
    if |gs| == 0 then [] else [MapBlock(gs[0])] + MapBlocksOf(gs[1..])
  }

  lemma SeqRegroup<T>(a: seq<T>, b: seq<T>, c: seq<T>)
    ensures a + b + c == a + (b + c)
  {
  }

  /** The search for `geo` blocks reports the blocks of the IP section, one
      per group, and goes on after it. */
  lemma {:induction false} IpSectionHits(t: string, j: nat, gs: seq<IpAclGroup>, j2: nat)
    requires forall k :: 0 <= k < |gs| ==> GeoWritable(gs[k])
    requires j2 == j + |IpSection(gs)| && j2 <= |t| && t[j..j2] == IpSection(gs)
    ensures Items(Find(GeoBlockAt, BlockLen, false, t, j)) == GeoBlocksOf(gs) + Items(Find(GeoBlockAt, BlockLen, false, t, j2))
    decreases |gs|
  {
    if |gs| > 0 {
      var g := gs[0];
      var m := j + |GeoText(g)|;
      SliceSplit(t, j, m, j2, GeoText(g), IpSection(gs[1..]));
      GeoTextHit(t, j, g, m);
      IpSectionHits(t, m, gs[1..], j2);
      ItemsCons(Hit(j + 4, GeoBlock(g)), Find(GeoBlockAt, BlockLen, false, t, m));
      SeqRegroup([GeoBlock(g)], GeoBlocksOf(gs[1..]), Items(Find(GeoBlockAt, BlockLen, false, t, j2)));
    }
  }

  /** The search for `map` blocks reports the blocks of the URL groups, one
      per group, and goes on after them. */
  lemma {:induction false} UrlBlocksHits(t: string, j: nat, gs: seq<UrlAclGroup>, j2: nat)
    requires forall k :: 0 <= k < |gs| ==> MapWritable(gs[k])
    requires j2 == j + |UrlBlocks(gs)| && j2 <= |t| && t[j..j2] == UrlBlocks(gs)
    ensures Items(Find(MapBlockAt, BlockLen, false, t, j)) == MapBlocksOf(gs) + Items(Find(MapBlockAt, BlockLen, false, t, j2))
    decreases |gs|
  {
    if |gs| > 0 {
      var g := gs[0];
      var m := j + |MapText(g)|;
      SliceSplit(t, j, m, j2, MapText(g), UrlBlocks(gs[1..]));
      MapTextHit(t, j, g, m);
      UrlBlocksHits(t, m, gs[1..], j2);
      ItemsCons(Hit(j + 4, MapBlock(g)), Find(MapBlockAt, BlockLen, false, t, m));
      SeqRegroup([MapBlock(g)], MapBlocksOf(gs[1..]), Items(Find(MapBlockAt, BlockLen, false, t, j2)));
    }
  }
}
