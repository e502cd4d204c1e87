/** What the parser makes of block headers, of map source expressions and of
    the lines it reads: the shape of a match, how maps are classified, and
    which groups and entries it keeps. */
module ParserFacts {
  import opened Text
  import opened Types
  import opened Search
  import opened Parser

  // ---------------------------------------------------------------------
  // Block headers
  // ---------------------------------------------------------------------

  /** `\$([a-zA-Z_]+)\s+\{([^}]+)\}` read run by run: a `$`, word
      characters up to `n`, white space up to `b`, `{`, a body free of `}`
      up to `f`, and `}`. */
  lemma NamedRuns(u: string, n: nat, b: nat, f: nat)
    requires 1 < n < b && b + 1 < f < |u|
    requires u[0] == '$' && u[b] == '{' && u[f] == '}'
    requires RunEnd(u, 1, IsWordChar) == n
    requires RunEnd(u, n, IsSpace) == b
    requires RunEnd(u, b + 1, NotCloseBrace) == f
    ensures NamedAt(u) == Some(Named(u[1..n], u[b + 1..f], f + 1))
  {
  }

  /** The same, read character by character, with one space before `{`. */
  lemma NamedChars(u: string, n: nat, f: nat)
    requires 1 < n && n + 2 < f < |u|
    requires u[0] == '$' && u[n] == ' ' && u[n + 1] == '{' && u[f] == '}'
    requires forall k :: 1 <= k < n ==> IsWordChar(u[k])
    requires forall k :: n + 2 <= k < f ==> NotCloseBrace(u[k])
    ensures NamedAt(u) == Some(Named(u[1..n], u[n + 2..f], f + 1))
  {
    RunEndUnique(u, 1, n, IsWordChar);
    RunEndUnique(u, n, n + 1, IsSpace);
    RunEndUnique(u, n + 2, f, NotCloseBrace);
    NamedRuns(u, n, n + 1, f);
  }

  /** `$name {body}`: the variable capture is the name and the body capture
      is everything up to the closing brace. */
  lemma NamedShape(name: string, body: string, rest: string)
    requires IsWord(name) && |body| > 0 && '}' !in body
    ensures NamedAt("$" + name + " {" + body + "}" + rest) == Some(Named(name, body, |name| + |body| + 4))
  {
    var u := "$" + name + " {" + body + "}" + rest;
    var n := 1 + |name|;
    var f := n + 2 + |body|;
    assert u[1..n] == name;
    assert u[n + 2..f] == body;
    assert u[0] == '$' && u[n] == ' ' && u[n + 1] == '{' && u[f] == '}';
    forall k | 1 <= k < n
      ensures IsWordChar(u[k])
    {
      assert u[k] == name[k - 1];
    }
    forall k | n + 2 <= k < f
      ensures NotCloseBrace(u[k])
    {
      assert u[k] == body[k - n - 2];
    }
    NamedChars(u, n, f);
  }

  /** A `geo` match read piece by piece: `geo`, white space up to `a`, and a
      `$name {body}` match from there. */
  lemma GeoBlockRuns(u: string, a: nat, m: Named)
    requires StartsWith(u, "geo") && 3 < a <= |u| && RunEnd(u, 3, IsSpace) == a && NamedAt(u[a..]) == Some(m)
    ensures GeoBlockAt(u) == Some(Block(a + m.end, "", m.name, m.body))
  {
  }

  /** `geo ` followed by a `$name {body}` match is a `geo` block match. */
  lemma GeoBlockAfter(x: string, m: Named)
    requires NamedAt(x) == Some(m)
    ensures GeoBlockAt("geo " + x) == Some(Block(4 + m.end, "", m.name, m.body))
  {
    var u := "geo " + x;
    assert u[..3] == "geo" && u[4..] == x;
    assert u[3] == ' ' && u[4] == '$';
    RunEndUnique(u, 3, 4, IsSpace);
    GeoBlockRuns(u, 4, m);
  }

  /** Where the tail of a `map` expression cannot start: at a character
      outside `\s`, or at a single white-space character not followed by `$`. */
  lemma MapTailMiss(u: string)
    requires 0 < |u|
    requires !IsSpace(u[0]) || (1 < |u| && RunEnd(u, 0, IsSpace) == 1 && u[1] != '$')
    ensures MapTailAt(u) == None
  {
    if !IsSpace(u[0]) {
      RunEndUnique(u, 0, 0, IsSpace);
    }
  }

  /** The tail of a `map` expression read piece by piece. */
  lemma MapTailRuns(u: string, m: Named)
    requires 1 < |u| && RunEnd(u, 0, IsSpace) == 1 && NamedAt(u[1..]) == Some(m)
    ensures MapTailAt(u) == Some(Named(m.name, m.body, 1 + m.end))
  {
  }

  /** A space followed by a `$name {body}` match is a tail match. */
  lemma MapTailAfter(x: string, m: Named)
    requires NamedAt(x) == Some(m)
    ensures MapTailAt(" " + x) == Some(Named(m.name, m.body, 1 + m.end))
  {
    var u := " " + x;
    assert u[1..] == x && u[0] == ' ' && u[1] == '$';
    RunEndUnique(u, 0, 1, IsSpace);
    MapTailRuns(u, m);
  }

  /** Between a tail match at `g` and the `{` at `o`, the tail matches
      nowhere else: the characters after ` $` up to the space before `{`
      are not white space, and that space is followed by `{`, not `$`. */
  lemma SourceEndChars(u: string, s: nat, g: nat, o: nat)
    requires s < g && g + 3 <= o < |u|
    requires u[g + 1] == '$' && u[o - 1] == ' ' && u[o] == '{'
    requires forall k :: g + 1 < k < o - 1 ==> !IsSpace(u[k])
    requires MapTailAt(u[g..]).Some?
    ensures LastMatch(MapTailAt, u, s, o) == Some(g)
  {
    forall j | g < j <= o
      ensures MapTailAt(u[j..]).None?
    {
      var v := u[j..];
      assert v[0] == u[j];
      if j == o - 1 {
        assert v[1] == '{';
        RunEndUnique(v, 0, 1, IsSpace);
      }
      MapTailMiss(v);
    }
    LastMatchAt(MapTailAt, u, s, g, o);
  }

  /** A `map` match read piece by piece: `map`, white space up to the `$`,
      the source up to `g`, and a tail match from `g`. */
  lemma MapBlockRuns(u: string, e: nat, g: nat, m: Named)
    requires StartsWith(u, "map") && 4 < |u| && RunEnd(u, 3, IsSpace) == 4 && u[4] == '$'
    requires RunEnd(u, 5, NotOpenBrace) == e && LastMatch(MapTailAt, u, 5, e) == Some(g) && MapTailAt(u[g..]) == Some(m)
    ensures MapBlockAt(u) == Some(Block(g + m.end, u[5..g], m.name, m.body))
  {
  }

  /** A `map` match read character by character: `map $`, a source free of
      `{` up to `g`, and there a tail match that runs past the `{` at `o`,
      after a space and a variable. */
  lemma MapBlockChars(u: string, g: nat, o: nat, m: Named)
    requires 5 < g && g + 3 <= o < |u|
    requires u[0] == 'm' && u[1] == 'a' && u[2] == 'p' && u[3] == ' ' && u[4] == '$'
    requires u[g + 1] == '$' && u[o - 1] == ' ' && u[o] == '{'
    requires forall k :: 5 <= k < o ==> NotOpenBrace(u[k])
    requires forall k :: g + 1 < k < o - 1 ==> !IsSpace(u[k])
    requires MapTailAt(u[g..]) == Some(m)
    ensures MapBlockAt(u) == Some(Block(g + m.end, u[5..g], m.name, m.body))
  {
    assert u[..3] == "map";
    RunEndUnique(u, 3, 4, IsSpace);
    RunEndUnique(u, 5, o, NotOpenBrace);
    SourceEndChars(u, 5, g, o);
    MapBlockRuns(u, o, g, m);
  }

  // ---------------------------------------------------------------------
  // Body lines
  // ---------------------------------------------------------------------

  /** `  # d` at `p`, up to a line terminator or the end at `e`: the comment
      is `d`, which starts outside `\s` and holds no line terminator. */
  lemma TrailerComment(u: string, p: nat, e: nat)
    requires p + 4 < e <= |u| && (e == |u| || IsLineTerminator(u[e]))
    requires u[p] == ' ' && u[p + 1] == ' ' && u[p + 2] == '#' && u[p + 3] == ' ' && !IsSpace(u[p + 4])
    requires forall m :: p + 4 <= m < e ==> NotLineTerminator(u[m])
    ensures TrailerAt(u, p) == Some(Trailer(e, u[p + 4..e]))
  {
    RunEndUnique(u, p, p + 2, IsSpace);
    RunEndUnique(u, p + 3, p + 4, IsSpace);
    RunEndUnique(u, p + 4, e, NotLineTerminator);
  }

  /** A line terminator at `p`, after which the white space up to `h` is not
      followed by `#`: the line ends at `p` without a comment. */
  lemma TrailerBare(u: string, p: nat, h: nat)
    requires p < h <= |u| && IsLineTerminator(u[p])
    requires forall m :: p <= m < h ==> IsSpace(u[m])
    requires h == |u| || (!IsSpace(u[h]) && u[h] != '#')
    ensures TrailerAt(u, p) == Some(Trailer(p, ""))
  {
    RunEndUnique(u, p, h, IsSpace);
  }

  /** A `geo` key from `a` up to the white space at `k` is read whole. */
  lemma CidrEndChars(u: string, a: nat, k: nat)
    requires a < k < |u| && IsCidrKey(u[a..k]) && IsSpace(u[k])
    ensures IsDigitOrDot(u[a]) && CidrEnd(u, a) == k
  {
    var key := u[a..k];
    var c := RunEnd(key, 0, IsDigitOrDot);
    assert forall m :: 0 <= m < |key| ==> key[m] == u[a + m];
    RunEndUnique(u, a, a + c, IsDigitOrDot);
    if c < |key| {
      assert forall m :: c + 1 <= m < |key| ==> key[c + 1..][m - c - 1] == key[m];
      RunEndUnique(u, a + c + 1, k, IsDigit);
    }
  }

  /** A `geo` line read run by run. */
  lemma GeoLineRuns(u: string, a: nat, k: nat, v: nat, t: Trailer)
    requires a < k && k + 1 < v < |u| && IsDigitOrDot(u[a]) && u[v] == ';'
    requires RunEnd(u, 0, IsSpace) == a && CidrEnd(u, a) == k
    requires RunEnd(u, k, IsSpace) == k + 1 && RunEnd(u, k + 1, IsDigit) == v
    requires TrailerAt(u, v + 1) == Some(t)
    ensures GeoLineAt(u) == Some(Line(t.end, u[a..k], u[k + 1..v], t.comment))
  {
  }

  /** A `geo` line read character by character: white space up to `a`, the
      key up to `k`, one space, the value up to `v`, `;` and a trailer. */
  lemma GeoLineChars(u: string, a: nat, k: nat, v: nat, t: Trailer)
    requires a < k && k + 1 < v < |u|
    requires forall m :: 0 <= m < a ==> IsSpace(u[m])
    requires IsCidrKey(u[a..k]) && u[k] == ' ' && u[v] == ';'
    requires forall m :: k + 1 <= m < v ==> IsDigit(u[m])
    requires TrailerAt(u, v + 1) == Some(t)
    ensures GeoLineAt(u) == Some(Line(t.end, u[a..k], u[k + 1..v], t.comment))
  {
    CidrEndChars(u, a, k);
    RunEndUnique(u, 0, a, IsSpace);
    RunEndUnique(u, k, k + 1, IsSpace);
    RunEndUnique(u, k + 1, v, IsDigit);
    GeoLineRuns(u, a, k, v, t);
  }

  /** Digits up to `;` at `v` are a value, for either value expression. */
  lemma ValueDigits(u: string, s: nat, v: nat, digitsOnly: bool)
    requires s < v < |u| && IsDigit(u[s]) && u[v] == ';' && RunEnd(u, s, IsDigit) == v
    ensures ValueAt(u, s, digitsOnly) == Some(Value(u[s..v], v))
  {
  }

  /** The rest of a map line after its key, read run by run. */
  lemma MapLineRestRuns(u: string, e: nat, s: nat, w: Value, t: Trailer, digitsOnly: bool)
    requires e + 1 < s <= |u| && u[e] == '"'
    requires RunEnd(u, e + 1, IsSpace) == s && ValueAt(u, s, digitsOnly) == Some(w)
    requires TrailerAt(u, w.semicolon + 1) == Some(t)
    ensures MapLineRest(u, e, digitsOnly) == Some((w, t))
  {
    var h := if e < |u| && u[e] == '"' then e + 1 else e;
    assert h == e + 1 && RunEnd(u, h, IsSpace) == s;
  }

  /** A map line read run by run. */
  lemma MapLineRuns(u: string, q: nat, e: nat, s: nat, v: nat, t: Trailer, digitsOnly: bool)
    requires 0 < q < e && e + 1 < s < v < |u| && u[q - 1] == '"'
    requires RunEnd(u, 0, IsSpace) == q - 1 && RunEnd(u, q, NotQuote) == e
    requires MapLineRest(u, e, digitsOnly) == Some((Value(u[s..v], v), t))
    ensures MapLineAt(u, digitsOnly) == Some(Line(t.end, u[q..e], u[s..v], t.comment))
  {
    var p := q - 1;
    var q1 := if p < |u| && u[p] == '"' then p + 1 else p;
    assert q1 == q && KeyFits(u, q, digitsOnly)(e);
    assert KeyEnd(u, q, e, digitsOnly) == Some(e);
    assert MapLineFrom(u, p, digitsOnly) == Some(Line(t.end, u[q..e], u[s..v], t.comment));
    assert IndentFits(u, digitsOnly)(p);
  }

  /** A map line read character by character: white space up to the quote
      at `q - 1`, a key free of quotes up to the quote at `e`, white space up
      to `s`, digits up to `v`, `;` and a trailer. The key capture takes the
      whole key, with either value expression. */
  lemma MapLineChars(u: string, q: nat, e: nat, s: nat, v: nat, t: Trailer, digitsOnly: bool)
    requires 0 < q < e && e + 1 < s < v < |u|
    requires forall m :: 0 <= m < q - 1 ==> IsSpace(u[m])
    requires u[q - 1] == '"' && u[e] == '"' && u[v] == ';'
    requires forall m :: q <= m < e ==> NotQuote(u[m])
    requires forall m :: e + 1 <= m < s ==> IsSpace(u[m])
    requires forall m :: s <= m < v ==> IsDigit(u[m])
    requires TrailerAt(u, v + 1) == Some(t)
    ensures MapLineAt(u, digitsOnly) == Some(Line(t.end, u[q..e], u[s..v], t.comment))
  {
    RunEndUnique(u, 0, q - 1, IsSpace);
    RunEndUnique(u, q, e, NotQuote);
    RunEndUnique(u, e + 1, s, IsSpace);
    RunEndUnique(u, s, v, IsDigit);
    ValueDigits(u, s, v, digitsOnly);
    MapLineRestRuns(u, e, s, Value(u[s..v], v), t, digitsOnly);
    MapLineRuns(u, q, e, s, v, t, digitsOnly);
  }

  // ---------------------------------------------------------------------
  // Classification of maps
  // ---------------------------------------------------------------------

  /** The characters of a `$name {` that starts a text. */
  lemma NameChars(x: string, name: string, y: string)
    requires x == "$" + name + " {" + y
    ensures |x| == |name| + 3 + |y| && x[0] == '$' && x[|name| + 1] == ' ' && x[|name| + 2] == '{'
    ensures forall k :: 1 <= k <= |name| ==> x[k] == name[k - 1]
  {
  }

  /** `geo $name {body}` is read as a block with that variable and that body,
      and gives an IP group, under the label of its variable and with the
      entries of its body, exactly when the variable starts with `acl_`. */
  lemma OneGeoBlock(name: string, body: string, rest: string)
    requires IsWord(name) && |body| > 0 && '}' !in body
    ensures var b := GeoBlockAt("geo " + ("$" + name + " {" + body + "}" + rest));
      b == Some(Block(|name| + |body| + 8, "", name, body))
      && (|IpGroupOf(b.value)| == 1 <==> StartsWith(name, "acl_"))
      && (StartsWith(name, "acl_") ==> IpGroupOf(b.value) == [IpAclGroup(name, GroupDescription(name), IpEntries(GeoLines(body)))])
  {
    GeoOpens(name, body, rest);
    var b := Block(|name| + |body| + 8, "", name, body);
    assert b.name == name && b.body == body;
  }

  /** The block match of `geo $name {body}`. */
  lemma GeoOpens(name: string, body: string, rest: string)
    requires IsWord(name) && |body| > 0 && '}' !in body
    ensures GeoBlockAt("geo " + ("$" + name + " {" + body + "}" + rest)) == Some(Block(|name| + |body| + 8, "", name, body))
  {
    var x := "$" + name + " {" + body + "}" + rest;
    var m := Named(name, body, |name| + |body| + 4);
    NamedShape(name, body, rest);
    GeoBlockAfter(x, m);
    var b := Block(4 + m.end, "", name, body);
    assert b == Block(|name| + |body| + 8, "", name, body);
  }

  /** `map $src $name {body}` is read as a block with source `src`, that
      variable and that body. It gives a combined ACL exactly when `src` holds
      more than one `$`, and otherwise a URL group exactly when the variable
      starts with `acl_`. */
  lemma OneMapBlock(src: string, name: string, body: string, rest: string)
    requires |src| > 0 && '{' !in src && IsWord(name) && |body| > 0 && '}' !in body
    ensures var b := MapBlockAt("map $" + src + " " + ("$" + name + " {" + body + "}" + rest));
      b == Some(Block(|src| + |name| + |body| + 10, src, name, body))
      && (|CombinedAclOf(b.value)| == 1 <==> Count(src, '$') > 1)
      && (|UrlGroupOf(b.value)| == 1 <==> Count(src, '$') <= 1 && StartsWith(name, "acl_"))
  {
    MapOpens(src, name, body, rest);
  }

  /** The block match of `map $src $name {body}`. */
  lemma MapOpens(src: string, name: string, body: string, rest: string)
    requires |src| > 0 && '{' !in src && IsWord(name) && |body| > 0 && '}' !in body
    ensures MapBlockAt("map $" + src + " " + ("$" + name + " {" + body + "}" + rest))
            == Some(Block(|src| + |name| + |body| + 10, src, name, body))
  {
    var x := "$" + name + " {" + body + "}" + rest;
    var m := Named(name, body, |name| + |body| + 4);
    NamedText(name, body, rest);
    MapAfterSource("map $" + src + " " + x, src, x, m);
    var b := Block(|src| + 6 + m.end, src, name, body);
    assert b == Block(|src| + |name| + |body| + 10, src, name, body);
  }

  /** `$name {body}` read as a named body, with the characters a `map`
      match looks at. */
  lemma NamedText(name: string, body: string, rest: string)
    requires IsWord(name) && |body| > 0 && '}' !in body
    ensures var x := "$" + name + " {" + body + "}" + rest;
      NamedAt(x) == Some(Named(name, body, |name| + |body| + 4))
      && |x| > |name| + 2 && x[0] == '$' && x[|name| + 1] == ' ' && x[|name| + 2] == '{'
      && forall k :: 1 <= k <= |name| ==> IsWordChar(x[k])
  {
    var x := "$" + name + " {" + body + "}" + rest;
    NamedShape(name, body, rest);
    NameChars(x, name, body + "}" + rest);
  }

  /** `MapBlockChars` for a text known to be `map $src ` and a named body. */
  lemma MapAfterSource(u: string, src: string, x: string, m: Named)
    requires u == "map $" + src + " " + x && |src| > 0 && '{' !in src && NamedAt(x) == Some(m)
    requires |x| > |m.name| + 2 && x[0] == '$' && x[|m.name| + 1] == ' ' && x[|m.name| + 2] == '{'
    requires forall k :: 1 <= k <= |m.name| ==> IsWordChar(x[k])
    ensures MapBlockAt(u) == Some(Block(|src| + 6 + m.end, src, m.name, m.body))
  {
    var g := 5 + |src|;
    var o := g + |m.name| + 3;
    var tail := Named(m.name, m.body, 1 + m.end);
    SourceChars(u, src, x, |m.name|, g, o);
    MapTailAfter(x, m);
    TailAtSource(u, g, x, tail);
    MapBlockChars(u, g, o, tail);
    SourceBlock(u, src, g, tail, m);
  }

  /** The tail match of ` x` found at `g`, where `u` goes on with ` x`. */
  lemma TailAtSource(u: string, g: nat, x: string, tail: Named)
    requires g <= |u| && u[g..] == " " + x && MapTailAt(" " + x) == Some(tail)
    ensures MapTailAt(u[g..]) == Some(tail)
  {
  }

  /** The block `MapBlockChars` reports, in terms of the source and the
      named body. */
  lemma SourceBlock(u: string, src: string, g: nat, tail: Named, m: Named)
    requires g == 5 + |src| && g <= |u| && u[5..g] == src
    requires tail == Named(m.name, m.body, 1 + m.end)
    requires MapBlockAt(u) == Some(Block(g + tail.end, u[5..g], tail.name, tail.body))
    ensures MapBlockAt(u) == Some(Block(|src| + 6 + m.end, src, m.name, m.body))
  {
  }

  /** The characters `MapBlockChars` looks at in `map $src $name {`. */
  lemma SourceChars(u: string, src: string, x: string, n: nat, g: nat, o: nat)
    requires u == "map $" + src + " " + x && |src| > 0 && '{' !in src
    requires |x| > n + 2 && x[0] == '$' && x[n + 1] == ' ' && x[n + 2] == '{'
    requires forall k :: 1 <= k <= n ==> IsWordChar(x[k])
    requires g == 5 + |src| && o == g + n + 3
    ensures 5 < g && g + 3 <= o < |u| && u[5..g] == src && u[g..] == " " + x
      && u[0] == 'm' && u[1] == 'a' && u[2] == 'p' && u[3] == ' ' && u[4] == '$'
      && u[g + 1] == '$' && u[o - 1] == ' ' && u[o] == '{'
      && (forall k :: 5 <= k < o ==> NotOpenBrace(u[k]))
      && (forall k :: g + 1 < k < o - 1 ==> !IsSpace(u[k]))
  {
    forall k | 5 <= k < g
      ensures u[k] == src[k - 5]
    {
    }
    forall k | g + 1 <= k < |u|
      ensures u[k] == x[k - g - 1]
    {
    }
    assert u[5..g] == src;
    assert u[g..] == " " + x;
  }

  /** A source with one `$` after its first variable, such as `a$b` (from
      `$a$b`), is not combined, and gives a URL group exactly when its
      variable starts with `acl_`. */
  lemma TwoVariablesNotCombined(b: Block, a: string, x: string)
    requires b.source == a + "$" + x && '$' !in a && '$' !in x
    ensures !IsCombined(b) && CombinedAclOf(b) == []
    ensures |UrlGroupOf(b)| == 1 <==> StartsWith(b.name, "acl_")
  {
    DollarCount(a, x, "", 1);
    assert a + "$" + x + "" == b.source;
  }

  /** A source with two `$` after its first variable, such as `a$b$c` (from
      `$a$b$c`), is combined, gives no URL group, and its source groups are
      the variables after the first. */
  lemma ThreeVariablesCombined(b: Block, a: string, x: string, y: string)
    requires b.source == a + "$" + x + "$" + y && '$' !in a && IsWord(x) && IsWord(y)
    ensures IsCombined(b) && UrlGroupOf(b) == []
    ensures CombinedAclOf(b) == [CombinedAcl(b.name, GroupDescription(b.name), [x, y], CombinedRules(MapLines(b.body, true)))]
  {
    WordHasNoDollar(x);
    WordHasNoDollar(y);
    DollarCount(a, x, "$" + y, 2);
    assert a + "$" + x + ("$" + y) == b.source;
    ThreeSourceGroups(a, x, y);
  }

  /** The `$` of `a$x` plus those of a tail that holds `n - 1` of them. */
  lemma DollarCount(a: string, x: string, r: string, n: nat)
    requires '$' !in a && '$' !in x && 1 <= n <= 2
    requires n == 1 ==> r == ""
    requires n == 2 ==> |r| > 0 && r[0] == '$' && '$' !in r[1..]
    ensures Count(a + "$" + x + r, '$') == n
  {
    CountAppend(a, "$", '$');
    CountAppend(a + "$", x, '$');
    CountAppend(a + "$" + x, r, '$');
    assert Count("$", '$') == 1;
    if n == 2 {
      assert r == "$" + r[1..];
      CountAppend("$", r[1..], '$');
    }
  }

  /** No word holds a `$`. */
  lemma WordHasNoDollar(x: string)
    requires IsWord(x)
    ensures '$' !in x
  {
    forall k | 0 <= k < |x|
      ensures x[k] != '$'
    {
      assert IsWordChar(x[k]);
    }
  }

  /** A variable reference `$x` followed by something that does not go on
      with a word character reads as `x`. */
  lemma WordVar(u: string, x: string, r: string)
    requires u == "$" + x + r && IsWord(x) && (r == [] || !IsWordChar(r[0]))
    ensures VarAt(u) == Some(Var(|x| + 1, x))
  {
    var n := |x| + 1;
    assert forall k :: 1 <= k < n ==> u[k] == x[k - 1];
    assert n < |u| ==> u[n] == r[0];
    RunEndUnique(u, 1, n, IsWordChar);
    assert u[1..n] == x;
  }

  /** The variables of `a$b$c`, read with `\$([a-zA-Z_]+)`: `b` and `c`. */
  lemma ThreeSourceGroups(a: string, x: string, y: string)
    requires '$' !in a && IsWord(x) && IsWord(y)
    ensures SourceGroups(a + "$" + x + "$" + y) == [x, y]
  {
    SourceShape(a, x, y);
    SourceVars(a + "$" + x + "$" + y, |a|, x, y);
  }

  /** Where the pieces of `a$x$y` sit. */
  lemma SourceShape(a: string, x: string, y: string)
    requires '$' !in a
    ensures var s := a + "$" + x + "$" + y;
      |s| == |a| + |x| + |y| + 2
      && s[|a|..] == "$" + x + ("$" + y)
      && s[|a| + |x| + 1..] == "$" + y + ""
      && forall k :: 0 <= k < |a| ==> s[k] != '$'
  {
    var s := a + "$" + x + "$" + y;
    assert forall k :: 0 <= k < |a| ==> s[k] == a[k];
  }

  /** The variables of a source that holds no `$` before `p`, then `$x$y`. */
  lemma SourceVars(s: string, p: nat, x: string, y: string)
    requires IsWord(x) && IsWord(y)
    requires |s| == p + |x| + |y| + 2
    requires s[p..] == "$" + x + ("$" + y) && s[p + |x| + 1..] == "$" + y + ""
    requires forall k :: 0 <= k < p ==> s[k] != '$'
    ensures SourceGroups(s) == [x, y]
  {
    VarsFound(s, p, x, y);
    var names := SourceGroups(s);
    assert |names| == 2 && names[0] == x && names[1] == y;
  }

  /** The search for variables in such a source finds `$x`, then `$y`. */
  lemma VarsFound(s: string, p: nat, x: string, y: string)
    requires IsWord(x) && IsWord(y)
    requires |s| == p + |x| + |y| + 2
    requires s[p..] == "$" + x + ("$" + y) && s[p + |x| + 1..] == "$" + y + ""
    requires forall k :: 0 <= k < p ==> s[k] != '$'
    ensures Items(Find(VarAt, VarLen, false, s, 0)) == [Var(|x| + 1, x), Var(|y| + 1, y)]
  {
    var p2 := p + |x| + 1;
    FirstVarFound(s, p, x, y, p2);
    var v2 := LastVarFound(s, p2, y);
    TwoItems(Find(VarAt, VarLen, false, s, 0), Hit(p, Var(|x| + 1, x)), Find(VarAt, VarLen, false, s, p2), v2);
  }

  /** The search for variables in such a source first finds `$x`, and goes
      on at the `$` of `$y`. */
  lemma FirstVarFound(s: string, p: nat, x: string, y: string, p2: nat)
    requires IsWord(x) && p2 == p + |x| + 1 && p2 + |y| + 1 == |s|
    requires s[p..] == "$" + x + ("$" + y)
    requires forall k :: 0 <= k < p ==> s[k] != '$'
    ensures Find(VarAt, VarLen, false, s, 0) == [Hit(p, Var(|x| + 1, x))] + Find(VarAt, VarLen, false, s, p2)
  {
    NoVarBefore(s, p);
    var v1 := VarFound(s, p, x, "$" + y, p2);
  }

  /** A search that reports `h` and then exactly one more match `w` yields
      their two items. */
  lemma TwoItems<T>(f: seq<Hit<T>>, h: Hit<T>, g: seq<Hit<T>>, w: T)
    requires f == [h] + g && Items(g) == [w]
    ensures Items(f) == [h.item, w]
  {
    ItemsCons(h, g);
  }

  /** No variable is found before the first `$`. */
  lemma NoVarBefore(s: string, p: nat)
    requires p <= |s| && forall k :: 0 <= k < p ==> s[k] != '$'
    ensures Find(VarAt, VarLen, false, s, 0) == Find(VarAt, VarLen, false, s, p)
  {
    forall k | 0 <= k < p
      ensures !HitAt(VarAt, VarLen, false, s, k)
    {
      assert s[k..][0] == s[k];
    }
    FindSkip(VarAt, VarLen, false, s, 0, p);
  }

  /** The search for variables finds `$y` at the end of the source, and
      nothing after it. */
  lemma LastVarFound(s: string, p: nat, y: string) returns (v: Var)
    requires IsWord(y) && p + |y| + 1 == |s| && s[p..] == "$" + y + ""
    ensures v == Var(|y| + 1, y)
    ensures Find(VarAt, VarLen, false, s, p) == [Hit(p, v)]
    ensures Items(Find(VarAt, VarLen, false, s, p)) == [v]
  {
    v := VarFound(s, p, y, "", |s|);
    assert Find(VarAt, VarLen, false, s, |s|) == [];
    ItemsOne(Hit(p, v));
  }

  /** The search for variables finds `$x` at `p` and goes on after it. */
  lemma VarFound(s: string, p: nat, x: string, r: string, q: nat) returns (v: Var)
    requires IsWord(x) && (r == [] || !IsWordChar(r[0]))
    requires q == p + |x| + 1 && q + |r| == |s| && s[p..] == "$" + x + r
    ensures v == Var(|x| + 1, x)
    ensures Find(VarAt, VarLen, false, s, p) == [Hit(p, v)] + Find(VarAt, VarLen, false, s, q)
  {
    v := Var(|x| + 1, x);
    WordVar(s[p..], x, r);
    VarStep(s, p, v, q);
  }

  /** A variable `v` read at `p` is reported, and the search goes on after it. */
  lemma VarStep(s: string, p: nat, v: Var, q: nat)
    requires p < |s| && VarAt(s[p..]) == Some(v) && q == p + v.len && q <= |s|
    ensures Find(VarAt, VarLen, false, s, p) == [Hit(p, v)] + Find(VarAt, VarLen, false, s, q)
  {
    FindHitTo(VarAt, VarLen, false, s, p, v, q);
  }

  // ---------------------------------------------------------------------
  // Groups and entries, block by block and line by line
  // ---------------------------------------------------------------------

  /** IP groups come one block at a time: each block gives its own, if any. */
  lemma {:induction false} IpGroupsFlat(blocks: seq<Block>)
    ensures IpGroups(blocks) == FlatMap(IpGroupOf, blocks)
    decreases |blocks|
  {
    if |blocks| > 0 {
      IpGroupsFlat(blocks[1..]);
    }
  }

  /** IP groups are collected block by block, in text order. */
  lemma IpGroupsAppend(a: seq<Block>, b: seq<Block>)
    ensures IpGroups(a + b) == IpGroups(a) + IpGroups(b)
  {
    IpGroupsFlat(a + b);
    IpGroupsFlat(a);
    IpGroupsFlat(b);
    FlatMapAppend(IpGroupOf, a, b);
  }

  /** URL groups come one block at a time: each block gives its own, if any. */
  lemma {:induction false} UrlGroupsFlat(blocks: seq<Block>)
    ensures UrlGroups(blocks) == FlatMap(UrlGroupOf, blocks)
    decreases |blocks|
  {
    if |blocks| > 0 {
      UrlGroupsFlat(blocks[1..]);
    }
  }

  /** URL groups are collected block by block, in text order. */
  lemma UrlGroupsAppend(a: seq<Block>, b: seq<Block>)
    ensures UrlGroups(a + b) == UrlGroups(a) + UrlGroups(b)
  {
    UrlGroupsFlat(a + b);
    UrlGroupsFlat(a);
    UrlGroupsFlat(b);
    FlatMapAppend(UrlGroupOf, a, b);
  }

  /** Combined ACLs come one block at a time: each block gives its own, if any. */
  lemma {:induction false} CombinedAclsFlat(blocks: seq<Block>)
    ensures CombinedAcls(blocks) == FlatMap(CombinedAclOf, blocks)
    decreases |blocks|
  {
    if |blocks| > 0 {
      CombinedAclsFlat(blocks[1..]);
    }
  }

  /** Combined ACLs are collected block by block, in text order. */
  lemma CombinedAclsAppend(a: seq<Block>, b: seq<Block>)
    ensures CombinedAcls(a + b) == CombinedAcls(a) + CombinedAcls(b)
  {
    CombinedAclsFlat(a + b);
    CombinedAclsFlat(a);
    CombinedAclsFlat(b);
    FlatMapAppend(CombinedAclOf, a, b);
  }

  /** URL entries are collected line by line, in text order, and a line
      keyed `default` gives none; any other line gives its entry. */
  lemma {:induction false} UrlEntriesAppend(a: seq<Line>, b: seq<Line>)
    ensures UrlEntries(a + b) == UrlEntries(a) + UrlEntries(b)
    ensures |a| == 1 ==> UrlEntries(a) == if a[0].key == "default" then [] else [UrlEntry(a[0])]
    decreases |a|
  {
    if |a| > 0 {
      assert (a + b)[1..] == a[1..] + b;
      UrlEntriesAppend(a[1..], b);
      if |a| == 1 {
        assert a[1..] == [];
      }
    } else {
      assert a + b == b;
    }
  }

  /** Combined rules are collected line by line, in text order, and a line
      keyed `default` gives none. */
  lemma {:induction false} CombinedRulesAppend(a: seq<Line>, b: seq<Line>)
    ensures CombinedRules(a + b) == CombinedRules(a) + CombinedRules(b)
    ensures |a| == 1 ==> CombinedRules(a) == if a[0].key == "default" then [] else [CombinedAclRule(a[0].key, a[0].value, a[0].comment)]
    decreases |a|
  {
    if |a| > 0 {
      assert (a + b)[1..] == a[1..] + b;
      CombinedRulesAppend(a[1..], b);
      if |a| == 1 {
        assert a[1..] == [];
      }
    } else {
      assert a + b == b;
    }
  }

  /** A key with the `~` marker is a regular expression whose pattern is the
      key without it; any other key is a plain pattern, kept whole. */
  lemma TildeMarksRegex(l: Line, pattern: string)
    ensures l.key == "~" + pattern ==> UrlEntry(l) == UrlAclEntry(pattern, l.value, l.comment, true)
    ensures !StartsWith(l.key, "~") ==> UrlEntry(l) == UrlAclEntry(l.key, l.value, l.comment, false)
  {
    if l.key == "~" + pattern {
      assert l.key[1..] == pattern;
    }
  }

  // ---------------------------------------------------------------------
  // getGroupDescription
  // ---------------------------------------------------------------------

  /** The labels of the eight known variables. */
  lemma DescriptionLabels()
    ensures GroupDescription("acl_internal_ips") == "Internal Production Network"
    ensures GroupDescription("acl_test_ips") == "Test Environment IPs"
    ensures GroupDescription("acl_microsoft_urls") == "Microsoft Services"
    ensures GroupDescription("acl_redhat_urls") == "Red Hat Services"
    ensures GroupDescription("acl_cdn_urls") == "Content Delivery Networks"
    ensures GroupDescription("ip_acl") == "Combined IP Access Control"
    ensures GroupDescription("url_acl") == "Combined URL Access Control"
    ensures GroupDescription("access_granted") == "Final Access Decision"
  {
  }

  /** Labels are not variable names, so describing a description changes
      nothing. */
  lemma DescriptionStable(name: string)
    ensures GroupDescription(GroupDescription(name)) == GroupDescription(name)
  {
    var r := GroupDescription(name);
    if r != name {
      CapitalisedLabels(name);
      CapitalisedKept(r);
    }
  }

  /** Every label starts with a capital letter. */
  lemma CapitalisedLabels(name: string)
    requires GroupDescription(name) != name
    ensures |GroupDescription(name)| > 0 && 'A' <= GroupDescription(name)[0] <= 'Z'
  {
    var r := GroupDescription(name);
    assert r in {"Internal Production Network", "Test Environment IPs", "Microsoft Services", "Red Hat Services",
                 "Content Delivery Networks", "Combined IP Access Control", "Combined URL Access Control", "Final Access Decision"};
  }

  /** No variable name starts with a capital letter, so such a name is its
      own description. */
  lemma CapitalisedKept(r: string)
    requires |r| > 0 && 'A' <= r[0] <= 'Z'
    ensures GroupDescription(r) == r
  {
  }

  /** Only the empty name has the empty description. */
  lemma DescriptionNonEmpty(name: string)
    ensures GroupDescription(name) == "" <==> name == ""
  {
  }
}
