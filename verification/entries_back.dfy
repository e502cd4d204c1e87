/** Entry lines and block bodies read back: what the line expressions of
    `parseNginxConfig` make of the lines `generateNginxConfig` writes. */
module EntriesBack {
  import opened Text
  import opened Types
  import opened Search
  import opened Parser
  import opened ParserFacts
  import opened Generator

  /** A description that a trailing comment gives back whole: it stays on
      one line and does not start with white space, which `#\s*` would
      swallow. */
  predicate Readable(d: string) {
    All(d, NotLineTerminator) && (d == "" || !IsSpace(d[0]))
  }

  /** What follows a line break is not taken for a comment of the line
      before: its first character outside `\s`, if any, is not `#`. */
  predicate NoCommentNext(rest: string) {
    var h := RunEnd(rest, 0, IsSpace);
    h == |rest| || rest[h] != '#'
  }

  /** A line break not followed by a comment ends the line bare. */
  lemma BareComesBack(u: string, v: nat, rest: string)
    requires v < |u| && u[v] == '\n' && u[v + 1..] == rest && NoCommentNext(rest)
    ensures TrailerAt(u, v) == Some(Trailer(v, ""))
  {
    var h := RunEnd(rest, 0, IsSpace);
    forall m | v < m < v + 1 + h
      ensures IsSpace(u[m])
    {
      assert u[m] == rest[m - v - 1];
    }
    assert v + 1 + h < |u| ==> u[v + 1 + h] == rest[h];
    TrailerBare(u, v, v + 1 + h);
  }

  /** `  # d` and a line break: the comment is `d`. */
  lemma DescriptionComesBack(u: string, v: nat, d: string)
    requires Readable(d) && d != "" && v + 4 + |d| < |u|
    requires u[v..v + 4] == "  # " && u[v + 4..v + 4 + |d|] == d && u[v + 4 + |d|] == '\n'
    ensures TrailerAt(u, v) == Some(Trailer(v + 4 + |d|, d))
  {
    var e := v + 4 + |d|;
    assert u[v] == u[v..v + 4][0] && u[v + 1] == u[v..v + 4][1] && u[v + 2] == u[v..v + 4][2] && u[v + 3] == u[v..v + 4][3];
    forall m | v + 4 <= m < e
      ensures NotLineTerminator(u[m])
    {
      assert u[m] == d[m - v - 4];
    }
    assert u[v + 4] == d[0];
    TrailerComment(u, v, e);
  }

  /** Where the parts of the start of an IP entry line lie, up to its `;`. */
  lemma IpHeadLayout(e: IpAclEntry) returns (x: string)
    requires IsDigits(e.value)
    ensures x == "        " + e.cidr + " " + e.value + ";" && |x| == 10 + |e.cidr| + |e.value|
    ensures forall m :: 0 <= m < 8 ==> IsSpace(x[m])
    ensures x[8..8 + |e.cidr|] == e.cidr && x[8 + |e.cidr|] == ' '
    ensures x[9 + |e.cidr|..|x| - 1] == e.value && x[|x| - 1] == ';'
    ensures forall m :: 9 + |e.cidr| <= m < |x| - 1 ==> IsDigit(x[m])
  {
    x := "        " + e.cidr + " " + e.value + ";";
    forall m | 9 + |e.cidr| <= m < |x| - 1
      ensures IsDigit(x[m])
    {
      assert x[m] == e.value[m - 9 - |e.cidr|];
    }
  }

  /** Where the parts of an IP entry line and what follows it lie. */
  lemma IpLineLayout(e: IpAclEntry, rest: string) returns (u: string, k: nat, v: nat, n: nat)
    requires IsDigits(e.value)
    ensures u == IpEntryLine(e) + rest && k == 8 + |e.cidr| && v == k + 1 + |e.value| && n == |IpEntryLine(e)|
    ensures n == v + 2 + |Comment(e.description)| && |u| == n + |rest|
    ensures forall m :: 0 <= m < 8 ==> IsSpace(u[m])
    ensures u[8..k] == e.cidr && u[k] == ' ' && u[k + 1..v] == e.value && u[v] == ';'
    ensures forall m :: k + 1 <= m < v ==> IsDigit(u[m])
    ensures u[v + 1..v + 1 + |Comment(e.description)|] == Comment(e.description)
    ensures u[v + 1 + |Comment(e.description)|] == '\n' && u[v + 2 + |Comment(e.description)|..] == rest
  {
    var x := IpHeadLayout(e);
    var c := Comment(e.description);
    u := IpEntryLine(e) + rest;
    k := 8 + |e.cidr|;
    v := k + 1 + |e.value|;
    n := |IpEntryLine(e)|;
    assert u == x + (c + "\n" + rest);
    assert u[..|x|] == x;
    assert u[|x|..] == c + "\n" + rest;
  }

  /** The trailer of an entry line: its comment is the description. */
  lemma EntryTrailerRead(u: string, p: nat, d: string, rest: string, end: nat)
    requires Readable(d) && (d == "" ==> NoCommentNext(rest)) && end == p + |Comment(d)|
    requires p + |Comment(d)| < |u| && u[p..p + |Comment(d)|] == Comment(d)
    requires u[p + |Comment(d)|] == '\n' && u[p + |Comment(d)| + 1..] == rest
    ensures TrailerAt(u, p) == Some(Trailer(end, d))
  {
    var c := Comment(d);
    if d == "" {
      BareComesBack(u, p, rest);
    } else {
      assert u[p..p + 4] == u[p..p + |c|][..4];
      assert u[p + 4..p + 4 + |d|] == u[p..p + |c|][4..];
      DescriptionComesBack(u, p, d);
    }
  }

  /** A read line equal, part by part, to another. */
  lemma SameLine(u: string, n: nat, key: string, value: string, comment: string, l: Line)
    requires GeoLineAt(u) == Some(Line(n, key, value, comment))
    requires l == Line(n, key, value, comment)
    ensures GeoLineAt(u) == Some(l)
  {
  }

  lemma IpLineRead(e: IpAclEntry, rest: string, u: string, k: nat, v: nat, n: nat)
    requires IsCidrKey(e.cidr) && IsDigits(e.value) && Readable(e.description)
    requires e.description == "" ==> NoCommentNext(rest)
    requires k == 8 + |e.cidr| && v == k + 1 + |e.value|
    requires n == v + 2 + |Comment(e.description)| && |u| == n + |rest|
    requires forall m :: 0 <= m < 8 ==> IsSpace(u[m])
    requires u[8..k] == e.cidr && u[k] == ' ' && u[k + 1..v] == e.value && u[v] == ';'
    requires forall m :: k + 1 <= m < v ==> IsDigit(u[m])
    requires u[v + 1..v + 1 + |Comment(e.description)|] == Comment(e.description)
    requires u[v + 1 + |Comment(e.description)|] == '\n' && u[v + 2 + |Comment(e.description)|..] == rest
    ensures GeoLineAt(u) == Some(Line(n - 1, e.cidr, e.value, e.description))
  {
    EntryTrailerRead(u, v + 1, e.description, rest, n - 1);
    IpLineChars(e, u, k, v, n);
  }

  lemma IpLineChars(e: IpAclEntry, u: string, k: nat, v: nat, n: nat)
    requires IsCidrKey(e.cidr) && IsDigits(e.value)
    requires k == 8 + |e.cidr| && v == k + 1 + |e.value| && v + 1 < n <= |u|
    requires forall m :: 0 <= m < 8 ==> IsSpace(u[m])
    requires u[8..k] == e.cidr && u[k] == ' ' && u[k + 1..v] == e.value && u[v] == ';'
    requires forall m :: k + 1 <= m < v ==> IsDigit(u[m])
    requires TrailerAt(u, v + 1) == Some(Trailer(n - 1, e.description))
    ensures GeoLineAt(u) == Some(Line(n - 1, e.cidr, e.value, e.description))
  {
    var t := Trailer(n - 1, e.description);
    GeoLineChars(u, 8, k, v, t);
    SameLine(u, t.end, u[8..k], u[k + 1..v], t.comment, Line(n - 1, e.cidr, e.value, e.description));
  }

  /** An IP entry line comes back as the entry: its key is the CIDR, its
      value the value and its comment the description. */
  lemma IpEntryComesBack(e: IpAclEntry, rest: string)
    requires IsCidrKey(e.cidr) && IsDigits(e.value) && Readable(e.description)
    requires e.description == "" ==> NoCommentNext(rest)
    ensures GeoLineAt(IpEntryLine(e) + rest) == Some(Line(|IpEntryLine(e)| - 1, e.cidr, e.value, e.description))
  {
    var u, k, v, n := IpLineLayout(e, rest);
    IpLineRead(e, rest, u, k, v, n);
    IpLineLength(e, u, n);
  }

  lemma IpLineLength(e: IpAclEntry, u: string, n: nat)
    requires 0 < n == |IpEntryLine(e)|
    requires GeoLineAt(u) == Some(Line(n - 1, e.cidr, e.value, e.description))
    ensures GeoLineAt(u) == Some(Line(|IpEntryLine(e)| - 1, e.cidr, e.value, e.description))
  {
  }

  // ---------------------------------------------------------------------
  // URL entry lines
  // ---------------------------------------------------------------------

  /** A key that `"[^"]+"` reads whole: not empty, and free of quotes. */
  predicate Quotable(k: string) {
    |k| > 0 && All(k, NotQuote)
  }

  /** The quoted key padded to 30 columns: a quote, the key, a quote and
      spaces. */
  lemma QuotedLayout(k: string) returns (q: string)
    requires Quotable(k)
    ensures q == PadEnd("\"" + k + "\"", 30) && |q| >= |k| + 2
    ensures q[0] == '"' && q[1..1 + |k|] == k && q[1 + |k|] == '"'
    ensures forall m :: 1 <= m < 1 + |k| ==> NotQuote(q[m])
    ensures forall m :: 2 + |k| <= m < |q| ==> IsSpace(q[m])
  {
    var w := "\"" + k + "\"";
    q := PadEnd(w, 30);
    assert q[..|w|] == w;
    assert q[0] == w[0] && q[1 + |k|] == w[1 + |k|];
    assert q[1..1 + |k|] == w[1..1 + |k|];
    forall m | 1 <= m < 1 + |k|
      ensures NotQuote(q[m])
    {
      assert q[m] == k[m - 1];
    }
  }

  /** Where the parts of the start of a URL entry line lie, up to its `;`:
      the key in quotes from 8, padding and one space up to the value. */
  lemma UrlHeadLayout(e: UrlAclEntry) returns (x: string, p: nat)
    requires Quotable(UrlKey(e)) && IsDigits(e.value)
    ensures p == |PadEnd("\"" + UrlKey(e) + "\"", 30)| && p >= |UrlKey(e)| + 2
    ensures x == "        " + PadEnd("\"" + UrlKey(e) + "\"", 30) + " " + e.value + ";" && |x| == 10 + p + |e.value|
    ensures forall m :: 0 <= m < 8 ==> IsSpace(x[m])
    ensures x[8] == '"' && x[9..9 + |UrlKey(e)|] == UrlKey(e) && x[9 + |UrlKey(e)|] == '"'
    ensures forall m :: 9 <= m < 9 + |UrlKey(e)| ==> NotQuote(x[m])
    ensures forall m :: 10 + |UrlKey(e)| <= m < 9 + p ==> IsSpace(x[m])
    ensures x[9 + p..|x| - 1] == e.value && x[|x| - 1] == ';'
    ensures forall m :: 9 + p <= m < |x| - 1 ==> IsDigit(x[m])
  {
    var k := UrlKey(e);
    var q := QuotedLayout(k);
    p := |q|;
    var tail := " " + e.value + ";";
    x := "        " + q + tail;
    assert x == "        " + PadEnd("\"" + UrlKey(e) + "\"", 30) + " " + e.value + ";";
    assert x[8..8 + p] == q;
    assert x[8 + p..] == tail;
    assert x[9..9 + |k|] == q[1..1 + |k|];
    forall m | 9 + p <= m < |x| - 1
      ensures IsDigit(x[m])
    {
      assert x[m] == tail[m - 8 - p];
    }
  }

  /** Where the parts of a URL entry line and what follows it lie. */
  lemma UrlLineLayout(e: UrlAclEntry, rest: string) returns (u: string, s: nat, v: nat, n: nat)
    requires Quotable(UrlKey(e)) && IsDigits(e.value)
    ensures u == UrlEntryLine(e) + rest && n == |UrlEntryLine(e)|
    ensures 11 + |UrlKey(e)| <= s && v == s + |e.value|
    ensures n == v + 2 + |Comment(e.description)| && |u| == n + |rest|
    ensures forall m :: 0 <= m < 8 ==> IsSpace(u[m])
    ensures u[8] == '"' && u[9..9 + |UrlKey(e)|] == UrlKey(e) && u[9 + |UrlKey(e)|] == '"'
    ensures forall m :: 9 <= m < 9 + |UrlKey(e)| ==> NotQuote(u[m])
    ensures forall m :: 10 + |UrlKey(e)| <= m < s ==> IsSpace(u[m])
    ensures u[s..v] == e.value && u[v] == ';'
    ensures forall m :: s <= m < v ==> IsDigit(u[m])
    ensures u[v + 1..v + 1 + |Comment(e.description)|] == Comment(e.description)
    ensures u[v + 1 + |Comment(e.description)|] == '\n' && u[v + 2 + |Comment(e.description)|..] == rest
  {
    var x, p := UrlHeadLayout(e);
    var c := Comment(e.description);
    u := UrlEntryLine(e) + rest;
    n := |UrlEntryLine(e)|;
    s := 9 + p;
    v := s + |e.value|;
    assert u == x + (c + "\n" + rest);
    assert u[..|x|] == x;
    assert u[|x|..] == c + "\n" + rest;
  }

  /** A URL entry line, laid out in `u`, read back. */
  lemma UrlLineRead(e: UrlAclEntry, rest: string, u: string, s: nat, v: nat, n: nat)
    requires Quotable(UrlKey(e)) && IsDigits(e.value) && Readable(e.description)
    requires e.description == "" ==> NoCommentNext(rest)
    requires 11 + |UrlKey(e)| <= s && v == s + |e.value|
    requires n == v + 2 + |Comment(e.description)| && |u| == n + |rest|
    requires forall m :: 0 <= m < 8 ==> IsSpace(u[m])
    requires u[8] == '"' && u[9..9 + |UrlKey(e)|] == UrlKey(e) && u[9 + |UrlKey(e)|] == '"'
    requires forall m :: 9 <= m < 9 + |UrlKey(e)| ==> NotQuote(u[m])
    requires forall m :: 10 + |UrlKey(e)| <= m < s ==> IsSpace(u[m])
    requires u[s..v] == e.value && u[v] == ';'
    requires forall m :: s <= m < v ==> IsDigit(u[m])
    requires u[v + 1..v + 1 + |Comment(e.description)|] == Comment(e.description)
    requires u[v + 1 + |Comment(e.description)|] == '\n' && u[v + 2 + |Comment(e.description)|..] == rest
    ensures MapLineAt(u, false) == Some(Line(n - 1, UrlKey(e), e.value, e.description))
  {
    EntryTrailerRead(u, v + 1, e.description, rest, n - 1);
    UrlLineChars(e, u, s, v, n);
  }

  lemma UrlLineChars(e: UrlAclEntry, u: string, s: nat, v: nat, n: nat)
    requires Quotable(UrlKey(e)) && IsDigits(e.value)
    requires 11 + |UrlKey(e)| <= s && v == s + |e.value| && v + 1 < n <= |u|
    requires forall m :: 0 <= m < 8 ==> IsSpace(u[m])
    requires u[8] == '"' && u[9..9 + |UrlKey(e)|] == UrlKey(e) && u[9 + |UrlKey(e)|] == '"'
    requires forall m :: 9 <= m < 9 + |UrlKey(e)| ==> NotQuote(u[m])
    requires forall m :: 10 + |UrlKey(e)| <= m < s ==> IsSpace(u[m])
    requires u[s..v] == e.value && u[v] == ';'
    requires forall m :: s <= m < v ==> IsDigit(u[m])
    requires TrailerAt(u, v + 1) == Some(Trailer(n - 1, e.description))
    ensures MapLineAt(u, false) == Some(Line(n - 1, UrlKey(e), e.value, e.description))
  {
    var t := Trailer(n - 1, e.description);
    var q := 9 + |UrlKey(e)|;
    MapLineChars(u, 9, q, s, v, t, false);
    SameMapLine(u, t.end, u[9..q], u[s..v], t.comment, Line(n - 1, UrlKey(e), e.value, e.description));
  }

  /** A read map line equal, part by part, to another. */
  lemma SameMapLine(u: string, n: nat, key: string, value: string, comment: string, l: Line)
    requires MapLineAt(u, false) == Some(Line(n, key, value, comment))
    requires l == Line(n, key, value, comment)
    ensures MapLineAt(u, false) == Some(l)
  {
  }

  /** A URL entry line comes back as its key, value and description. */
  lemma UrlEntryLineComesBack(e: UrlAclEntry, rest: string)
    requires Quotable(UrlKey(e)) && IsDigits(e.value) && Readable(e.description)
    requires e.description == "" ==> NoCommentNext(rest)
    ensures MapLineAt(UrlEntryLine(e) + rest, false) == Some(Line(|UrlEntryLine(e)| - 1, UrlKey(e), e.value, e.description))
  {
    var u, s, v, n := UrlLineLayout(e, rest);
    UrlLineRead(e, rest, u, s, v, n);
    UrlLineLength(e, u, n);
  }

  lemma UrlLineLength(e: UrlAclEntry, u: string, n: nat)
    requires 0 < n == |UrlEntryLine(e)|
    requires MapLineAt(u, false) == Some(Line(n - 1, UrlKey(e), e.value, e.description))
    ensures MapLineAt(u, false) == Some(Line(|UrlEntryLine(e)| - 1, UrlKey(e), e.value, e.description))
  {
  }

  // ---------------------------------------------------------------------
  // The body of a `geo` block
  // ---------------------------------------------------------------------

  /** An IP entry that its line gives back. */
  predicate IpWritable(e: IpAclEntry) {
    IsCidrKey(e.cidr) && IsDigits(e.value) && Readable(e.description)
  }

  /** What lies between the braces of the `geo` block of an IP group. */
  function GeoBody(entries: seq<IpAclEntry>): string {
    "\n" + DefaultLine() + IpEntryLines(entries) + "    "
  }

  /** Where an IP entry line ends: at its line break, after a character that
      is not one. */
  lemma IpLineEnds(e: IpAclEntry, rest: string) returns (u: string, n: nat)
    requires IpWritable(e)
    ensures u == IpEntryLine(e) + rest && n == |IpEntryLine(e)|
    ensures 1 < n <= |u| && !IsLineTerminator(u[n - 2]) && u[n - 1] == '\n' && u[n..] == rest
  {
    var k, v;
    u, k, v, n := IpLineLayout(e, rest);
    var c := Comment(e.description);
    if e.description != "" {
      assert u[n - 2] == u[v + 1..v + 1 + |c|][|c| - 1] == e.description[|e.description| - 1];
    }
  }

  /** An IP entry line at position `i` of `t` and where it ends. */
  lemma IpLineEndsAt(t: string, i: nat, e: IpAclEntry, rest: string, n: nat, j: nat)
    requires i <= |t| && t[i..] == IpEntryLine(e) + rest && IpWritable(e) && n == |IpEntryLine(e)| && j == i + n
    ensures 1 < n && j <= |t| && !IsLineTerminator(t[j - 2]) && t[j - 1] == '\n' && t[j..] == rest
  {
    var u, _ := IpLineEnds(e, rest);
    assert t[i..] == u;
    assert t[i + n - 2] == u[n - 2] && t[i + n - 1] == u[n - 1];
    assert t[i + n..] == u[n..];
  }

  /** An IP entry line at position `i` of `t` read back. */
  lemma IpLineMatchAt(t: string, i: nat, e: IpAclEntry, rest: string, n: nat)
    requires i <= |t| && t[i..] == IpEntryLine(e) + rest && n == |IpEntryLine(e)|
    requires IpWritable(e) && (e.description == "" ==> NoCommentNext(rest))
    ensures 0 < n && GeoLineAt(t[i..]) == Some(Line(n - 1, e.cidr, e.value, e.description))
  {
    IpEntryComesBack(e, rest);
  }

  /** An IP entry line at the start of a line is reported, and the search
      goes on at the next line. */
  lemma IpLineHit(t: string, i: nat, e: IpAclEntry, rest: string) returns (n: nat, j: nat)
    requires i <= |t| && t[i..] == IpEntryLine(e) + rest && LineStart(t, i)
    requires IpWritable(e) && (e.description == "" ==> NoCommentNext(rest))
    ensures n == |IpEntryLine(e)| && j == i + n && j <= |t| && LineStart(t, j) && t[j..] == rest
    ensures Find(GeoLineAt, LineLen, true, t, i) == [Hit(i, Line(n - 1, e.cidr, e.value, e.description))] + Find(GeoLineAt, LineLen, true, t, j)
  {
    n := |IpEntryLine(e)|;
    j := i + n;
    IpLineEndsAt(t, i, e, rest, n, j);
    IpLineMatchAt(t, i, e, rest, n);
    LineHit(GeoLineAt, LineLen, t, i, Line(n - 1, e.cidr, e.value, e.description), n, j);
  }

  /** White space alone is no `geo` line. */
  lemma BlankNoGeoLine()
    ensures forall u :: All(u, IsSpace) ==> GeoLineAt(u).None?
  {
    forall u | All(u, IsSpace)
      ensures GeoLineAt(u).None?
    {
      RunEndUnique(u, 0, |u|, IsSpace);
    }
  }

  /** White space up to `m`, then a character other than `#`. */
  lemma NoCommentAt(r: string, m: nat)
    requires m <= |r| && (forall j :: 0 <= j < m ==> IsSpace(r[j]))
    requires m == |r| || (!IsSpace(r[m]) && r[m] != '#')
    ensures NoCommentNext(r)
  {
    RunEndUnique(r, 0, m, IsSpace);
  }

  /** An IP entry line starts with eight spaces and the first character of
      its CIDR. */
  lemma IpLineStart(e: IpAclEntry, rest: string)
    requires IpWritable(e)
    ensures var r := IpEntryLine(e) + rest; 8 < |r| && (forall j :: 0 <= j < 8 ==> IsSpace(r[j])) && IsDigitOrDot(r[8])
  {
    var r := IpEntryLine(e) + rest;
    assert r == "        " + (e.cidr + (" " + e.value + ";" + Comment(e.description) + "\n" + rest));
  }

  /** After an IP entry line comes another, or the indentation of `}`: in
      neither is a `#` the first character outside white space. */
  lemma IpNextLine(entries: seq<IpAclEntry>)
    requires forall k :: 0 <= k < |entries| ==> IpWritable(entries[k])
    ensures NoCommentNext(IpEntryLines(entries) + "    ")
  {
    var r := IpEntryLines(entries) + "    ";
    if |entries| == 0 {
      BlankNext(r);
    } else {
      IpLinesCons(entries, "    ");
      IpLineNext(entries[0], IpEntryLines(entries[1..]) + "    ", r);
    }
  }

  lemma IpLinesCons(entries: seq<IpAclEntry>, tail: string)
    requires |entries| > 0
    ensures IpEntryLines(entries) + tail == IpEntryLine(entries[0]) + (IpEntryLines(entries[1..]) + tail)
  {
  }

  lemma BlankNext(r: string)
    requires r == "" + "    "
    ensures NoCommentNext(r)
  {
    NoCommentAt(r, 4);
  }

  lemma IpLineNext(e: IpAclEntry, rest: string, r: string)
    requires IpWritable(e) && r == IpEntryLine(e) + rest
    ensures NoCommentNext(r)
  {
    IpLineStart(e, rest);
    NoCommentAt(r, 8);
  }

  /** A match for an entry in front of other matches gives the entry in
      front of the others. */
  lemma IpEntriesStep(h: Hit<Line>, hits: seq<Hit<Line>>, e: IpAclEntry)
    requires h.item.key == e.cidr && h.item.value == e.value && h.item.comment == e.description
    ensures IpEntries(Items([h] + hits)) == [e] + IpEntries(Items(hits))
  {
    ItemsCons(h, hits);
    IpEntriesCons(h.item, Items(hits));
  }

  lemma IpEntriesCons(l: Line, lines: seq<Line>)
    ensures IpEntries([l] + lines) == [IpAclEntry(l.key, l.value, l.comment)] + IpEntries(lines)
  {
  }

  /** The lines of IP entries, followed by the indentation of `}`, give the
      entries back, in order. */
  /** The IP entries read from position `i` of a `geo` body on. */
  function IpEntriesFrom(t: string, i: nat): seq<IpAclEntry>
    requires i <= |t|
  {
    IpEntries(Items(Find(GeoLineAt, LineLen, true, t, i)))
  }

  /** Every IP entry written into the lines of a `geo` body is read back, in
      order. */
  lemma {:induction false} IpLinesFound(t: string, i: nat, entries: seq<IpAclEntry>)
    requires i <= |t| && t[i..] == IpEntryLines(entries) + "    " && LineStart(t, i)
    requires forall k :: 0 <= k < |entries| ==> IpWritable(entries[k])
    ensures IpEntriesFrom(t, i) == entries
    decreases |entries|
  {
    if |entries| == 0 {
      IpLinesBlank(t, i, entries);
    } else {
      var j, rest := IpLineFirst(t, i, entries);
      IpLinesFound(t, j, rest);
      EntriesCons(IpEntriesFrom(t, i), IpEntriesFrom(t, j), entries, rest);
    }
  }

  lemma EntriesCons<T>(a: seq<T>, b: seq<T>, entries: seq<T>, rest: seq<T>)
    requires |entries| > 0 && rest == entries[1..] && a == [entries[0]] + b && b == rest
    ensures a == entries
  {
  }

  lemma IpLinesBlank(t: string, i: nat, entries: seq<IpAclEntry>)
    requires i <= |t| && t[i..] == IpEntryLines(entries) + "    " && |entries| == 0
    ensures IpEntriesFrom(t, i) == entries
  {
    BlankNoGeoLine();
    forall k | i <= k < |t|
      ensures IsSpace(t[k])
    {
      assert t[k] == t[i..][k - i];
    }
    BlankFindsNothing(GeoLineAt, LineLen, true, t, i);
  }

  /** The first line of the entry lines gives the first entry; the search
      goes on at the next line, where the other entries are written. */
  lemma IpLineFirst(t: string, i: nat, entries: seq<IpAclEntry>) returns (j: nat, rest: seq<IpAclEntry>)
    requires i <= |t| && t[i..] == IpEntryLines(entries) + "    " && LineStart(t, i)
    requires |entries| > 0 && forall k :: 0 <= k < |entries| ==> IpWritable(entries[k])
    ensures rest == entries[1..] && |rest| < |entries|
    ensures j <= |t| && t[j..] == IpEntryLines(rest) + "    " && LineStart(t, j)
    ensures forall k :: 0 <= k < |rest| ==> IpWritable(rest[k])
    ensures IpEntriesFrom(t, i) == [entries[0]] + IpEntriesFrom(t, j)
  {
    rest := entries[1..];
    var e := entries[0];
    var tail := IpEntryLines(rest) + "    ";
    IpLinesCons(entries, "    ");
    IpNextLine(rest);
    var n;
    n, j := IpLineHit(t, i, e, tail);
    var h := Hit(i, Line(n - 1, e.cidr, e.value, e.description));
    IpEntriesStep(h, Find(GeoLineAt, LineLen, true, t, j), e);
  }

  /** A line whose first character outside white space cannot start an
      address is not an IP entry line. */
  lemma NotGeoLine(u: string, m: nat)
    requires m < |u| && (forall j :: 0 <= j < m ==> IsSpace(u[j]))
    requires !IsSpace(u[m]) && !IsDigitOrDot(u[m])
    ensures GeoLineAt(u) == None
  {
    RunEndUnique(u, 0, m, IsSpace);
  }

  /** The characters of the opening line break and the `default` line. */
  lemma DefaultChars(t: string)
    requires 20 <= |t| && t[..20] == "\n" + DefaultLine()
    ensures t[0] == '\n' && t[9] == 'd' && t[19] == '\n'
    ensures forall j :: 1 <= j < 9 ==> t[j] == ' '
    ensures forall j :: 1 <= j < 19 ==> !IsLineTerminator(t[j])
  {
    var d := "\n        default 0;\n";
    assert t[..20] == d;
    forall j | 0 <= j < 20
      ensures t[j] == d[j]
    {
      assert t[j] == t[..20][j];
    }
  }

  /** Neither the opening line break nor the `default` line starts an IP
      entry line. */
  lemma DefaultNoGeoLine(t: string, k: nat)
    requires k <= 1 && 20 <= |t| && t[0] == '\n' && t[9] == 'd'
    requires forall j :: 1 <= j < 9 ==> t[j] == ' '
    ensures GeoLineAt(t[k..]) == None
  {
    var u := t[k..];
    forall j | 0 <= j < 9 - k
      ensures IsSpace(u[j])
    {
      assert u[j] == t[k + j];
    }
    assert u[9 - k] == t[9];
    NotGeoLine(u, 9 - k);
  }

  /** The opening line break and the `default` line of a `geo` body report
      nothing: the search goes on at the first entry line. */
  lemma GeoDefaultSkip(t: string)
    requires 20 <= |t| && t[..20] == "\n" + DefaultLine()
    ensures Find(GeoLineAt, LineLen, true, t, 0) == Find(GeoLineAt, LineLen, true, t, 20)
    ensures LineStart(t, 20)
  {
    DefaultChars(t);
    forall k | 0 <= k < 20
      ensures !HitAt(GeoLineAt, LineLen, true, t, k)
    {
      if k <= 1 {
        DefaultNoGeoLine(t, k);
      }
    }
    FindSkip(GeoLineAt, LineLen, true, t, 0, 20);
  }

  /** A `geo` body is its default line and then its entry lines. */
  lemma GeoBodyLayout(entries: seq<IpAclEntry>) returns (t: string)
    ensures t == GeoBody(entries)
    ensures 20 <= |t| && t[..20] == "\n" + DefaultLine() && t[20..] == IpEntryLines(entries) + "    "
  {
    t := GeoBody(entries);
    assert t == ("\n" + DefaultLine()) + (IpEntryLines(entries) + "    ");
  }

  /** Every IP entry written into a `geo` body is read back from it, in
      order, and nothing else is: the `default` line is not an entry. */
  lemma GeoBodyComesBack(entries: seq<IpAclEntry>)
    requires forall k :: 0 <= k < |entries| ==> IpWritable(entries[k])
    ensures IpEntries(GeoLines(GeoBody(entries))) == entries
  {
    var t := GeoBodyLayout(entries);
    GeoDefaultSkip(t);
    IpLinesFound(t, 20, entries);
    assert GeoLines(t) == Items(Find(GeoLineAt, LineLen, true, t, 20));
  }
  // ---------------------------------------------------------------------
  // The body of a `map $host` block
  // ---------------------------------------------------------------------

  /** The entry a URL entry line gives back. A regular expression comes back
      anchored once more. A plain pattern comes back as it was, unless it
      starts with `~`: then it comes back as a regular expression without
      its `~`. */
  function Reread(e: UrlAclEntry): UrlAclEntry {
    if e.isRegex then UrlAclEntry("^" + e.pattern + "$", e.value, e.description, true)
    else if StartsWith(e.pattern, "~") then UrlAclEntry(e.pattern[1..], e.value, e.description, true)
    else e
  }

  /** `Reread` on every entry. */
  function Rereads(entries: seq<UrlAclEntry>): (r: seq<UrlAclEntry>)
    ensures |r| == |entries| && forall k :: 0 <= k < |r| ==> r[k] == Reread(entries[k])
  {
    if |entries| == 0 then [] else [Reread(entries[0])] + Rereads(entries[1..])
  }

  /** A URL entry read back from the key it is written under. */
  lemma UrlKeyComesBack(e: UrlAclEntry, len: nat)
    ensures UrlEntry(Line(len, UrlKey(e), e.value, e.description)) == Reread(e)
  {
    var k := UrlKey(e);
    if e.isRegex {
      assert k == "~" + ("^" + e.pattern + "$");
      assert StartsWith(k, "~");
    }
  }

  /** A URL entry that its line gives back: its key starts with neither
      white space nor a quote, holds no quote, and is not `default`. */
  predicate UrlWritable(e: UrlAclEntry) {
    Quotable(UrlKey(e)) && !IsSpace(UrlKey(e)[0]) && UrlKey(e) != "default"
    && IsDigits(e.value) && Readable(e.description)
  }

  /** What lies between the braces of the `map $host` block of a URL group. */
  function MapBody(entries: seq<UrlAclEntry>): string {
    "\n" + DefaultLine() + UrlEntryLines(entries) + "    "
  }

  /** Where a URL entry line ends: at its line break, after a character that
      is not one. */
  lemma UrlLineEnds(e: UrlAclEntry, rest: string) returns (u: string, n: nat)
    requires UrlWritable(e)
    ensures u == UrlEntryLine(e) + rest && n == |UrlEntryLine(e)|
    ensures 1 < n <= |u| && !IsLineTerminator(u[n - 2]) && u[n - 1] == '\n' && u[n..] == rest
  {
    var s, v;
    u, s, v, n := UrlLineLayout(e, rest);
    var c := Comment(e.description);
    if e.description != "" {
      assert u[n - 2] == u[v + 1..v + 1 + |c|][|c| - 1] == e.description[|e.description| - 1];
    }
  }

  /** A URL entry line at position `i` of `t` and where it ends. */
  lemma UrlLineEndsAt(t: string, i: nat, e: UrlAclEntry, rest: string, n: nat, j: nat)
    requires i <= |t| && t[i..] == UrlEntryLine(e) + rest && UrlWritable(e) && n == |UrlEntryLine(e)| && j == i + n
    ensures 1 < n && j <= |t| && !IsLineTerminator(t[j - 2]) && t[j - 1] == '\n' && t[j..] == rest
  {
    var u, _ := UrlLineEnds(e, rest);
    assert t[i..] == u;
    assert t[i + n - 2] == u[n - 2] && t[i + n - 1] == u[n - 1];
    assert t[i + n..] == u[n..];
  }

  /** A URL entry line at position `i` of `t` read back. */
  lemma UrlLineMatchAt(t: string, i: nat, e: UrlAclEntry, rest: string, n: nat)
    requires i <= |t| && t[i..] == UrlEntryLine(e) + rest && n == |UrlEntryLine(e)|
    requires UrlWritable(e) && (e.description == "" ==> NoCommentNext(rest))
    ensures 0 < n && UrlLineAt(t[i..]) == Some(Line(n - 1, UrlKey(e), e.value, e.description))
  {
    UrlEntryLineComesBack(e, rest);
  }

  /** A URL entry line at the start of a line is reported, and the search
      goes on at the next line. */
  lemma UrlLineHit(t: string, i: nat, e: UrlAclEntry, rest: string) returns (n: nat, j: nat)
    requires i <= |t| && t[i..] == UrlEntryLine(e) + rest && LineStart(t, i)
    requires UrlWritable(e) && (e.description == "" ==> NoCommentNext(rest))
    ensures n == |UrlEntryLine(e)| && j == i + n && j <= |t| && LineStart(t, j) && t[j..] == rest
    ensures Find(UrlLineAt, LineLen, true, t, i) == [Hit(i, Line(n - 1, UrlKey(e), e.value, e.description))] + Find(UrlLineAt, LineLen, true, t, j)
  {
    n := |UrlEntryLine(e)|;
    j := i + n;
    UrlLineEndsAt(t, i, e, rest, n, j);
    UrlLineMatchAt(t, i, e, rest, n);
    LineHit(UrlLineAt, LineLen, t, i, Line(n - 1, UrlKey(e), e.value, e.description), n, j);
  }

  /** A map line needs its value and `;` somewhere after the key. */
  lemma NoIndentEnd(u: string, h: nat, digitsOnly: bool)
    requires h <= |u| && forall g :: 0 <= g <= |u| ==> MapLineRest(u, g, digitsOnly).None?
    ensures IndentEnd(u, h, digitsOnly).None?
  {
    forall s0: nat | s0 <= h
      ensures !IndentFits(u, digitsOnly)(s0)
    {
      var q := if s0 < |u| && u[s0] == '"' then s0 + 1 else s0;
      assert KeyEnd(u, q, RunEnd(u, q, NotQuote), digitsOnly).None?;
    }
  }

  /** White space alone is no map line. */
  lemma BlankNoUrlLine()
    ensures forall u :: All(u, IsSpace) ==> UrlLineAt(u).None?
  {
    forall u | All(u, IsSpace)
      ensures UrlLineAt(u).None?
    {
      forall g | 0 <= g <= |u|
        ensures MapLineRest(u, g, false).None?
      {
        RunEndUnique(u, g, |u|, IsSpace);
      }
      NoIndentEnd(u, RunEnd(u, 0, IsSpace), false);
    }
  }

  /** A URL entry line starts with eight spaces and a quote. */
  lemma UrlLineNext(e: UrlAclEntry, rest: string, r: string)
    requires UrlWritable(e) && r == UrlEntryLine(e) + rest
    ensures NoCommentNext(r)
  {
    var u, s, v, n := UrlLineLayout(e, rest);
    NoCommentAt(r, 8);
  }

  lemma UrlLinesCons(entries: seq<UrlAclEntry>, tail: string)
    requires |entries| > 0
    ensures UrlEntryLines(entries) + tail == UrlEntryLine(entries[0]) + (UrlEntryLines(entries[1..]) + tail)
  {
    JoinThree(UrlEntryLine(entries[0]), UrlEntryLines(entries[1..]), tail);
  }

  lemma JoinThree(a: string, b: string, c: string)
    ensures (a + b) + c == a + (b + c)
  {
  }

  /** After a URL entry line comes another, or the indentation of `}`. */
  lemma UrlNextLine(entries: seq<UrlAclEntry>)
    requires forall k :: 0 <= k < |entries| ==> UrlWritable(entries[k])
    ensures NoCommentNext(UrlEntryLines(entries) + "    ")
  {
    var r := UrlEntryLines(entries) + "    ";
    if |entries| == 0 {
      BlankNext(r);
    } else {
      UrlLinesCons(entries, "    ");
      UrlLineNext(entries[0], UrlEntryLines(entries[1..]) + "    ", r);
    }
  }

  /** A match for an entry in front of other matches gives the entry as it
      is read back, in front of the others. */
  lemma UrlEntriesStep(h: Hit<Line>, hits: seq<Hit<Line>>, e: UrlAclEntry)
    requires UrlWritable(e) && h.item.key == UrlKey(e)
    requires h.item.value == e.value && h.item.comment == e.description
    ensures UrlEntries(Items([h] + hits)) == [Reread(e)] + UrlEntries(Items(hits))
  {
    ItemsCons(h, hits);
    UrlKeyComesBack(e, h.item.len);
    assert ([h.item] + Items(hits))[1..] == Items(hits);
  }

  /** The URL entries read from position `i` of a map body on. */
  function UrlEntriesFrom(t: string, i: nat): seq<UrlAclEntry>
    requires i <= |t|
  {
    UrlEntries(Items(Find(UrlLineAt, LineLen, true, t, i)))
  }

  /** Every URL entry written into the lines of a map body is read back,
      in order. */
  lemma {:induction false} UrlLinesFound(t: string, i: nat, entries: seq<UrlAclEntry>)
    requires i <= |t| && t[i..] == UrlEntryLines(entries) + "    " && LineStart(t, i)
    requires forall k :: 0 <= k < |entries| ==> UrlWritable(entries[k])
    ensures UrlEntriesFrom(t, i) == Rereads(entries)
    decreases |entries|
  {
    if |entries| == 0 {
      UrlLinesBlank(t, i, entries);
    } else {
      var j, rest := UrlLineFirst(t, i, entries);
      UrlLinesFound(t, j, rest);
      RereadsCons(UrlEntriesFrom(t, i), UrlEntriesFrom(t, j), entries, rest);
    }
  }

  lemma RereadsCons(a: seq<UrlAclEntry>, b: seq<UrlAclEntry>, entries: seq<UrlAclEntry>, rest: seq<UrlAclEntry>)
    requires |entries| > 0 && rest == entries[1..] && a == [Reread(entries[0])] + b && b == Rereads(rest)
    ensures a == Rereads(entries)
  {
  }

  lemma UrlLinesBlank(t: string, i: nat, entries: seq<UrlAclEntry>)
    requires i <= |t| && t[i..] == UrlEntryLines(entries) + "    " && |entries| == 0
    ensures UrlEntriesFrom(t, i) == Rereads(entries)
  {
    BlankNoUrlLine();
    forall k | i <= k < |t|
      ensures IsSpace(t[k])
    {
      assert t[k] == t[i..][k - i];
    }
    BlankFindsNothing(UrlLineAt, LineLen, true, t, i);
  }

  /** The first line of the entry lines gives the first entry; the search
      goes on at the next line, where the other entries are written. */
  lemma UrlLineFirst(t: string, i: nat, entries: seq<UrlAclEntry>) returns (j: nat, rest: seq<UrlAclEntry>)
    requires i <= |t| && t[i..] == UrlEntryLines(entries) + "    " && LineStart(t, i)
    requires |entries| > 0 && forall k :: 0 <= k < |entries| ==> UrlWritable(entries[k])
    ensures rest == entries[1..] && |rest| < |entries|
    ensures j <= |t| && t[j..] == UrlEntryLines(rest) + "    " && LineStart(t, j)
    ensures forall k :: 0 <= k < |rest| ==> UrlWritable(rest[k])
    ensures UrlEntriesFrom(t, i) == [Reread(entries[0])] + UrlEntriesFrom(t, j)
  {
    rest := entries[1..];
    var e := entries[0];
    var tail := UrlEntryLines(rest) + "    ";
    UrlLinesCons(entries, "    ");
    UrlNextLine(rest);
    var n;
    n, j := UrlLineHit(t, i, e, tail);
    var h := Hit(i, Line(n - 1, UrlKey(e), e.value, e.description));
    UrlEntriesStep(h, Find(UrlLineAt, LineLen, true, t, j), e);
  }

  /** The key capture of a map line gives back characters until the rest of
      the line matches: at the last position `g0` up to `e` where it does. */
  lemma KeyEndAt(u: string, q: nat, g0: nat, e: nat, digitsOnly: bool)
    requires q < g0 <= e <= |u| && KeyFits(u, q, digitsOnly)(g0)
    requires forall j :: g0 < j <= e ==> !KeyFits(u, q, digitsOnly)(j)
    ensures KeyEnd(u, q, e, digitsOnly) == Some(g0)
  {
    LastWhereAt(KeyFits(u, q, digitsOnly), q, g0, e);
  }

  /** No key capture ends above the last place where the rest matches. */
  lemma KeyFitsAbove(u: string, q: nat, g0: nat, e: nat, digitsOnly: bool)
    requires q < g0 <= e <= |u| && MapLineRest(u, g0, digitsOnly).Some?
    requires forall g :: g0 < g <= e ==> MapLineRest(u, g, digitsOnly).None?
    ensures KeyFits(u, q, digitsOnly)(g0)
    ensures forall j :: g0 < j <= e ==> !KeyFits(u, q, digitsOnly)(j)
  {
  }

  /** The characters of the `default` line that a map line reads. */
  lemma MapDefaultChars(t: string)
    requires 20 <= |t| && t[..20] == "\n" + DefaultLine()
    ensures t[9..16] == "default" && t[16] == ' ' && t[17] == '0' && t[18] == ';' && t[19] == '\n'
    ensures forall m :: 0 <= m < 9 ==> IsSpace(t[m])
    ensures forall m :: 9 <= m < 19 ==> NotQuote(t[m])
  {
    var d := "\n        default 0;\n";
    assert t[..20] == d;
    forall j | 0 <= j < 20
      ensures t[j] == d[j]
    {
      assert t[j] == t[..20][j];
    }
    assert t[9..16] == d[9..16];
  }

  /** What follows the `default` line of a map body: white space up to `w`,
      then nothing or a quoted key, not starting with white space, whose
      closing quote at `c` is not followed by `;`. */
  predicate AfterDefault(t: string, w: nat, c: nat) {
    20 <= w <= |t| && (forall m :: 19 <= m < w ==> IsSpace(t[m]))
    && (w < |t| ==> w + 1 < c && c + 1 < |t| && t[w] == '"' && !IsSpace(t[w + 1])
                    && (forall m :: w + 1 <= m < c ==> NotQuote(t[m])) && t[c] == '"' && t[c + 1] != ';')
  }

  /** The value and end of the `default` line. */
  lemma MapDefaultRest(t: string, w: nat, c: nat)
    requires 20 <= |t| && t[16] == ' ' && t[17] == '0' && t[18] == ';' && t[19] == '\n'
    requires AfterDefault(t, w, c)
    ensures MapLineRest(t, 16, false) == Some((Value("0", 18), Trailer(19, "")))
  {
    RunEndUnique(t, 16, 17, IsSpace);
    RunEndUnique(t, 17, 18, IsDigit);
    assert t[17..18] == "0";
    RunEndUnique(t, 19, w, IsSpace);
  }

  /** No later end of the key lets the rest of the `default` line match. */
  lemma MapDefaultMisses(t: string, w: nat, c: nat)
    requires 20 <= |t| && t[16] == ' ' && t[17] == '0' && t[18] == ';' && t[19] == '\n'
    requires AfterDefault(t, w, c)
    ensures forall g :: 16 < g <= w ==> MapLineRest(t, g, false).None?
  {
    forall g | 16 < g <= w
      ensures MapLineRest(t, g, false).None?
    {
      if g < 19 || g == |t| {
        RestNeedsSpace(t, g);
      } else if g == w {
        RestNeedsSpace(t, g + 1);
      } else if w < |t| {
        RestNeedsSemicolon(t, g, w, c);
      } else {
        RunEndUnique(t, g, w, IsSpace);
      }
    }
  }

  /** Without white space after the key there is no map line. */
  lemma RestNeedsSpace(t: string, g: nat)
    requires g <= |t| && (g == |t| || (!IsSpace(t[g]) && t[g] != '"')
                          || (t[g] == '"' && g + 1 < |t| && !IsSpace(t[g + 1])))
    ensures MapLineRest(t, g, false).None?
  {
  }

  /** A quoted value must be followed by its `;`. */
  lemma RestNeedsSemicolon(t: string, g: nat, w: nat, c: nat)
    requires 19 <= g < w && AfterDefault(t, w, c) && w < |t|
    ensures MapLineRest(t, g, false).None?
  {
    RunEndUnique(t, g, w, IsSpace);
    RunEndUnique(t, w + 1, c, NotQuote);
  }

  /** The `default` line of a map body is read as a map line. */
  lemma MapDefaultLine(t: string, w: nat, c: nat)
    requires 20 <= |t| && t[..20] == "\n" + DefaultLine() && AfterDefault(t, w, c)
    ensures UrlLineAt(t) == Some(Line(19, "default", "0", ""))
  {
    MapDefaultChars(t);
    MapDefaultRest(t, w, c);
    MapDefaultMisses(t, w, c);
    RunEndUnique(t, 0, 9, IsSpace);
    RunEndUnique(t, 9, w, NotQuote);
    KeyFitsAbove(t, 9, 16, w, false);
    KeyEndAt(t, 9, 16, w, false);
  }

  /** The `default` line of a map body is reported, and the search goes on at
      the first entry line. */
  lemma MapDefaultHit(t: string, w: nat, c: nat)
    requires 20 <= |t| && t[..20] == "\n" + DefaultLine() && AfterDefault(t, w, c)
    ensures Find(UrlLineAt, LineLen, true, t, 0) == [Hit(0, Line(19, "default", "0", ""))] + Find(UrlLineAt, LineLen, true, t, 20)
    ensures LineStart(t, 20)
  {
    MapDefaultLine(t, w, c);
    DefaultChars(t);
    assert t[0..] == t;
    LineHit(UrlLineAt, LineLen, t, 0, Line(19, "default", "0", ""), 20, 20);
  }

  /** After the `default` line comes the first URL entry line: eight spaces
      and its quoted key. */
  lemma FirstKeyShape(t: string, e: UrlAclEntry, rest: string)
    requires 20 <= |t| && t[19] == '\n' && t[20..] == UrlEntryLine(e) + rest && UrlWritable(e)
    ensures AfterDefault(t, 28, 29 + |UrlKey(e)|)
  {
    var u, s, v, n := UrlLineLayout(e, rest);
    var k := |UrlKey(e)|;
    assert u[9] == UrlKey(e)[0];
    KeyShape(t, u, k);
  }

  /** The shape `AfterDefault` asks for, from the first line after the
      `default` line. */
  lemma KeyShape(t: string, u: string, k: nat)
    requires 20 <= |t| && t[19] == '\n' && t[20..] == u && 0 < k && 10 + k < |u|
    requires forall m :: 0 <= m < 8 ==> IsSpace(u[m])
    requires u[8] == '"' && !IsSpace(u[9]) && u[9 + k] == '"' && IsSpace(u[10 + k])
    requires forall m :: 9 <= m < 9 + k ==> NotQuote(u[m])
    ensures AfterDefault(t, 28, 29 + k)
  {
    forall m | 19 <= m < 28
      ensures IsSpace(t[m])
    {
      if m > 19 {
        assert t[m] == u[m - 20];
      }
    }
    forall m | 29 <= m < 29 + k
      ensures NotQuote(t[m])
    {
      assert t[m] == u[m - 20];
    }
    assert t[28] == u[8] && t[29] == u[9] && t[29 + k] == u[9 + k] && t[30 + k] == u[10 + k];
  }

  /** A map body is its default line and then its entry lines. */
  lemma MapBodyLayout(entries: seq<UrlAclEntry>) returns (t: string, w: nat, c: nat)
    requires forall k :: 0 <= k < |entries| ==> UrlWritable(entries[k])
    ensures t == MapBody(entries) && 20 <= |t| && t[..20] == "\n" + DefaultLine()
    ensures t[20..] == UrlEntryLines(entries) + "    " && AfterDefault(t, w, c)
  {
    t := MapBody(entries);
    assert t == ("\n" + DefaultLine()) + (UrlEntryLines(entries) + "    ");
    DefaultChars(t);
    if |entries| == 0 {
      w, c := |t|, 0;
      assert t[20..] == "    ";
      forall m | 19 <= m < w
        ensures IsSpace(t[m])
      {
        if m > 19 {
          assert t[m] == t[20..][m - 20];
        }
      }
    } else {
      UrlLinesCons(entries, "    ");
      FirstKeyShape(t, entries[0], UrlEntryLines(entries[1..]) + "    ");
      w, c := 28, 29 + |UrlKey(entries[0])|;
    }
  }

  /** The `default` line is no entry: the entries of a map body are those its
      entry lines give. */
  lemma DefaultDropped(hits: seq<Hit<Line>>)
    ensures UrlEntries(Items([Hit(0, Line(19, "default", "0", ""))] + hits)) == UrlEntries(Items(hits))
  {
    ItemsCons(Hit(0, Line(19, "default", "0", "")), hits);
    assert ([Line(19, "default", "0", "")] + Items(hits))[1..] == Items(hits);
  }

  /** Every URL entry written into a `map $host` body is read back, in order,
      as `Reread` says, and nothing else is: the `default` line is not an
      entry. */
  lemma MapBodyComesBack(entries: seq<UrlAclEntry>)
    requires forall k :: 0 <= k < |entries| ==> UrlWritable(entries[k])
    ensures UrlEntries(MapLines(MapBody(entries), false)) == Rereads(entries)
  {
    var t, w, c := MapBodyLayout(entries);
    MapDefaultHit(t, w, c);
    DefaultChars(t);
    UrlLinesFound(t, 20, entries);
    DefaultDropped(Find(UrlLineAt, LineLen, true, t, 20));
    assert MapLines(t, false) == Items(Find(UrlLineAt, LineLen, true, t, 0));
  }
}
