/** `parseNginxConfig`: reads the access-control groups back out of an nginx
    configuration text.

    The parser runs six fixed regular expressions. Each is modelled as a
    matcher that says whether, and with which captures, the expression
    matches at the start of a text; `Search.Find` runs the `exec` loop over
    them. Greedy quantifiers that may have to give characters back try the
    longest choice first and then shorter ones, as the JavaScript engine
    does. */
module Parser {
  import opened Text
  import opened Types
  import opened Search

  predicate IsDigitOrDot(c: char) {
    IsDigit(c) || c == '.'
  }

  predicate NotOpenBrace(c: char) {
    c != '{'
  }

  predicate NotCloseBrace(c: char) {
    c != '}'
  }

  predicate NotQuote(c: char) {
    c != '"'
  }

  // ---------------------------------------------------------------------
  // Blocks
  // ---------------------------------------------------------------------

  /** `\$([a-zA-Z_]+)\s+\{([^}]+)\}` at the start of `u`: a variable name,
      and the body between the braces, which is non-empty and ends at the
      first `}`. `end` is the position after that `}`. */
  datatype Named = Named(name: string, body: string, end: nat)

  /** A block match: its length, the source expression of a `map` (empty for
      a `geo`), the variable the block defines, and its body. */
  datatype Block = Block(len: nat, source: string, name: string, body: string)

  function BlockLen(b: Block): nat {
    b.len
  }

  function NamedAt(u: string): (r: Option<Named>)
    ensures r.Some? ==> 4 < r.value.end <= |u| && u[r.value.end - 1] == '}'
    ensures r.Some? ==> IsWord(r.value.name) && |r.value.body| > 0 && '}' !in r.value.body
  {
    if 0 < |u| && u[0] == '$' then
      var n := RunEnd(u, 1, IsWordChar);
      var b := RunEnd(u, n, IsSpace);
      if n > 1 && b > n && b < |u| && u[b] == '{' then
        var f := RunEnd(u, b + 1, NotCloseBrace);
        if f > b + 1 && f < |u| then
          RunAll(u, 1, n, IsWordChar);
          RunAll(u, b + 1, f, NotCloseBrace);
          Some(Named(u[1..n], u[b + 1..f], f + 1))
        else None
      else None
    else
      None
  }

  /** `u` starts with the three-letter `keyword`, white space and `$`, as both
      block expressions do. */
  predicate OpensBlock(u: string, keyword: string) {
    |keyword| == 3 && StartsWith(u, keyword)
    && var a := RunEnd(u, 3, IsSpace); 3 < a < |u| && u[a] == '$'
  }

  /** `geo\s+\$([a-zA-Z_]+)\s+\{([^}]+)\}` at the start of `u`. */
  function GeoBlockAt(u: string): (r: Option<Block>)
    ensures r.Some? ==> OpensBlock(u, "geo") && 0 < r.value.len <= |u| && r.value.source == ""
    ensures r.Some? ==> IsWord(r.value.name) && |r.value.body| > 0 && '}' !in r.value.body
  {
    if StartsWith(u, "geo") then
      var a := RunEnd(u, 3, IsSpace);
      if a > 3 then
        match NamedAt(u[a..])
        case Some(n) => Some(Block(a + n.end, "", n.name, n.body))
        case None => None
      else None
    else
      None
  }

  /** `\s+\$([a-zA-Z_]+)\s+\{([^}]+)\}` at the start of `u`: the part of a
      `map` match after its source. */
  function MapTailAt(u: string): (r: Option<Named>)
    ensures r.Some? ==> 0 < r.value.end <= |u| && IsWord(r.value.name) && '}' !in r.value.body
  {
    var a := RunEnd(u, 0, IsSpace);
    if a > 0 then
      match NamedAt(u[a..])
      case Some(n) => Some(Named(n.name, n.body, a + n.end))
      case None => None
    else None
  }

  /** `map\s+\$([^{]+)\s+\$([a-zA-Z_]+)\s+\{([^}]+)\}` at the start of `u`. */
  function MapBlockAt(u: string): (r: Option<Block>)
    ensures r.Some? ==> OpensBlock(u, "map") && 0 < r.value.len <= |u|
    ensures r.Some? ==> |r.value.source| > 0 && '{' !in r.value.source
    ensures r.Some? ==> IsWord(r.value.name) && '}' !in r.value.body
  {
    if StartsWith(u, "map") then
      var a := RunEnd(u, 3, IsSpace);
      if a > 3 && a < |u| && u[a] == '$' then MapSourceFrom(u, a + 1) else None
    else
      None
  }

  /** The rest of a `map` match from the start `s` of its source. The source
      capture `[^{]+` runs up to the first `{` and gives characters back
      until the rest of the expression matches, so it ends at the last
      position from which the rest, `MapTailAt`, matches. */
  function MapSourceFrom(u: string, s: nat): (r: Option<Block>)
    requires s <= |u|
    ensures r.Some? ==> s < r.value.len <= |u| && |r.value.source| > 0 && '{' !in r.value.source
    ensures r.Some? ==> IsWord(r.value.name) && '}' !in r.value.body
  {
    var e := RunEnd(u, s, NotOpenBrace);
    match LastMatch(MapTailAt, u, s, e)
    case Some(g) =>
      var n := MapTailAt(u[g..]).value;
      RunAll(u, s, g, NotOpenBrace);
      Some(Block(g + n.end, u[s..g], n.name, n.body))
    case None => None
  }

  // ---------------------------------------------------------------------
  // Body lines
  // ---------------------------------------------------------------------

  /** A line match: its length, the key (the CIDR or the pattern), the value,
      and the comment, empty when there is none. */
  datatype Line = Line(len: nat, key: string, value: string, comment: string)

  function LineLen(l: Line): nat {
    l.len
  }

  /** The end of a line match and its comment. */
  datatype Trailer = Trailer(end: nat, comment: string)

  /** `(?:\s*#\s*(.*))?$` at position `p`: an optional comment after `#`,
      which runs to the end of its line, or else the end of the line right at
      `p`. The `\s*` may cross line breaks. */
  function TrailerAt(u: string, p: nat): (r: Option<Trailer>)
    requires p <= |u|
    ensures r.Some? ==> p <= r.value.end <= |u| && (r.value.end == |u| || IsLineTerminator(u[r.value.end]))
    ensures r.Some? ==> All(r.value.comment, NotLineTerminator)
    ensures r.Some? && r.value.comment != "" ==> !IsSpace(r.value.comment[0])
  {
    var h := RunEnd(u, p, IsSpace);
    if h < |u| && u[h] == '#' then
      var b := RunEnd(u, h + 1, IsSpace);
      var e := RunEnd(u, b, NotLineTerminator);
      RunAll(u, b, e, NotLineTerminator);
      Some(Trailer(e, u[b..e]))
    else if p == |u| || IsLineTerminator(u[p]) then
      Some(Trailer(p, ""))
    else
      None
  }

  /** The language of `[\d.]+\/\d+|[\d.]+`: digits and dots, then
      possibly a slash and digits. */
  predicate IsCidrKey(k: string) {
    var c := RunEnd(k, 0, IsDigitOrDot);
    0 < c && (c == |k| || (k[c] == '/' && IsDigits(k[c + 1..])))
  }

  /** The key of a `geo` line: `[\d.]+\/\d+` or else `[\d.]+`. */
  function CidrEnd(u: string, a: nat): (r: nat)
    requires a <= |u|
    ensures a <= r <= |u|
    ensures a < |u| && IsDigitOrDot(u[a]) ==> a < r && IsCidrKey(u[a..r])
  {
    var c := RunEnd(u, a, IsDigitOrDot);
    if c + 1 < |u| && u[c] == '/' && IsDigit(u[c + 1]) then
      var d := RunEnd(u, c + 1, IsDigit);
      CidrKeyRuns(u, a, c, d);
      d
    else
      CidrKeyRuns(u, a, c, c);
      c
  }

  /** Digits and dots from `a` to `c`, and then either nothing or a slash and
      digits up to `d`, make a key of a `geo` line. */
  lemma CidrKeyRuns(u: string, a: nat, c: nat, d: nat)
    requires a <= c <= d <= |u| && c == RunEnd(u, a, IsDigitOrDot)
    requires d > c ==> c + 1 < d && u[c] == '/' && forall m :: c + 1 <= m < d ==> IsDigit(u[m])
    ensures a < c ==> IsCidrKey(u[a..d])
  {
    var k := u[a..d];
    if d == c {
      RunEndUnique(k, 0, c - a, IsDigitOrDot);
    } else {
      assert k[c - a] == u[c];
      RunEndUnique(k, 0, c - a, IsDigitOrDot);
      assert k[c - a + 1..] == u[c + 1..d];
    }
  }

  /** `\s*([\d.]+\/\d+|[\d.]+)\s+(\d+);(?:\s*#\s*(.*))?$` at the start of
      `u` (the `^` is the search's line anchor). The key has the shape of
      its alternatives, the value is digits, and the comment is what follows
      `#` and white space up to the end of the line, which is where the
      match ends. */
  function GeoLineAt(u: string): (r: Option<Line>)
    ensures r.Some? ==> 0 < r.value.len <= |u| && IsDigits(r.value.value) && IsCidrKey(r.value.key)
    ensures r.Some? ==> r.value.len == |u| || IsLineTerminator(u[r.value.len])
    ensures r.Some? ==> All(r.value.comment, NotLineTerminator)
    ensures r.Some? && r.value.comment != "" ==> !IsSpace(r.value.comment[0])
  {
    var a := RunEnd(u, 0, IsSpace);
    if a < |u| && IsDigitOrDot(u[a]) then GeoLineFrom(u, a, CidrEnd(u, a)) else None
  }

  /** The rest of a `geo` line once its key has been read from `a` to `k`. */
  function GeoLineFrom(u: string, a: nat, k: nat): (r: Option<Line>)
    requires a < k <= |u| && IsDigitOrDot(u[a])
    ensures r.Some? ==> 0 < r.value.len <= |u| && IsDigits(r.value.value) && r.value.key == u[a..k]
    ensures r.Some? ==> r.value.len == |u| || IsLineTerminator(u[r.value.len])
    ensures r.Some? ==> All(r.value.comment, NotLineTerminator)
    ensures r.Some? && r.value.comment != "" ==> !IsSpace(r.value.comment[0])
  {
    var s := RunEnd(u, k, IsSpace);
    var v := RunEnd(u, s, IsDigit);
    if s > k && v > s && v < |u| && u[v] == ';' then
      match TrailerAt(u, v + 1)
      case Some(t) =>
        RunAll(u, s, v, IsDigit);
        Some(Line(t.end, u[a..k], u[s..v], t.comment))
      case None => None
    else None
  }

  /** A value and the position of the `;` after it. */
  datatype Value = Value(text: string, semicolon: nat)

  /** `(\d+|"[^"]+");` at position `r`, or only `(\d+);` when `digitsOnly`. */
  function ValueAt(u: string, r: nat, digitsOnly: bool): (v: Option<Value>)
    requires r <= |u|
    ensures v.Some? ==> r < v.value.semicolon < |u| && u[v.value.semicolon] == ';'
    ensures v.Some? && digitsOnly ==> IsDigits(v.value.text)
  {
    if r < |u| && IsDigit(u[r]) then
      var d := RunEnd(u, r, IsDigit);
      RunAll(u, r, d, IsDigit);
      if d < |u| && u[d] == ';' then Some(Value(u[r..d], d)) else None
    else if !digitsOnly && r < |u| && u[r] == '"' then
      var c := RunEnd(u, r + 1, NotQuote);
      if c > r + 1 && c + 1 < |u| && u[c + 1] == ';' then Some(Value(u[r..c + 1], c + 1)) else None
    else
      None
  }

  /** The rest of a map line after the key capture ends at `g`:
      `"?\s+(\d+|"[^"]+");(?:\s*#\s*(.*))?$`. */
  function MapLineRest(u: string, g: nat, digitsOnly: bool): (r: Option<(Value, Trailer)>)
    requires g <= |u|
    ensures r.Some? ==> g < r.value.1.end <= |u|
    ensures r.Some? && digitsOnly ==> IsDigits(r.value.0.text)
  {
    var h := if g < |u| && u[g] == '"' then g + 1 else g;
    var s := RunEnd(u, h, IsSpace);
    if s > h then
      match ValueAt(u, s, digitsOnly)
      case Some(v) => (
        match TrailerAt(u, v.semicolon + 1)
        case Some(t) => Some((v, t))
        case None => None)
      case None => None
    else
      None
  }

  /** The key capture `"?([^"]+)` of a map line once the leading `\s*` has
      taken `s0` characters: an optional quote, then the longest run of
      non-quotes after which the rest of the line matches. */
  function MapLineFrom(u: string, s0: nat, digitsOnly: bool): (r: Option<Line>)
    requires s0 <= |u|
    ensures r.Some? ==> 0 < r.value.len <= |u| && All(r.value.key, NotQuote) && |r.value.key| > 0
    ensures r.Some? && digitsOnly ==> IsDigits(r.value.value)
  {
    var q := if s0 < |u| && u[s0] == '"' then s0 + 1 else s0;
    var e := RunEnd(u, q, NotQuote);
    match KeyEnd(u, q, e, digitsOnly)
    case Some(g) =>
      var rest := MapLineRest(u, g, digitsOnly).value;
      RunAll(u, q, g, NotQuote);
      Some(Line(rest.1.end, u[q..g], rest.0.text, rest.1.comment))
    case None => None
  }

  /** The last position in `q+1..e` from which the rest of a map line matches. */
  function KeyEnd(u: string, q: nat, e: nat, digitsOnly: bool): (r: Option<nat>)
    requires e <= |u|
    ensures r.Some? ==> q < r.value <= e && MapLineRest(u, r.value, digitsOnly).Some?
    ensures r.Some? ==> forall g :: r.value < g <= e ==> !KeyFits(u, q, digitsOnly)(g)
    ensures r.None? ==> forall g :: q < g <= e ==> !KeyFits(u, q, digitsOnly)(g)
  {
    LastWhere(KeyFits(u, q, digitsOnly), q, e)
  }

  /** Where the key capture of a map line that starts at `q` may end. */
  function KeyFits(u: string, q: nat, digitsOnly: bool): nat -> bool {
    g => q < g <= |u| && MapLineRest(u, g, digitsOnly).Some?
  }

  /** `\s*"?([^"]+)"?\s+(\d+|"[^"]+");(?:\s*#\s*(.*))?$` at the start of `u`
      (with `(\d+)` alone for a combined map's rules). The leading `\s*` gives
      characters back, longest first, when the line does not match otherwise. */
  function MapLineAt(u: string, digitsOnly: bool): (r: Option<Line>)
    ensures r.Some? ==> 0 < r.value.len <= |u| && All(r.value.key, NotQuote) && |r.value.key| > 0
    ensures r.Some? && digitsOnly ==> IsDigits(r.value.value)
  {
    match IndentEnd(u, RunEnd(u, 0, IsSpace), digitsOnly)
    case Some(s0) => MapLineFrom(u, s0, digitsOnly)
    case None => None
  }

  /** How much of the leading white space, at most `h` characters, the `\s*`
      of a map line takes: the most after which the rest of the line matches. */
  function IndentEnd(u: string, h: nat, digitsOnly: bool): (r: Option<nat>)
    requires h <= |u|
    ensures r.Some? ==> r.value <= h && MapLineFrom(u, r.value, digitsOnly).Some?
  {
    LastWhere(IndentFits(u, digitsOnly), 0, h)
  }

  /** Where the leading white space of a map line may end. */
  function IndentFits(u: string, digitsOnly: bool): nat -> bool {
    (s0: nat) => s0 <= |u| && MapLineFrom(u, s0, digitsOnly).Some?
  }

  // ---------------------------------------------------------------------
  // Source groups of a combined map
  // ---------------------------------------------------------------------

  /** `\$([a-zA-Z_]+)`: a variable reference and its length. */
  datatype Var = Var(len: nat, name: string)

  function VarLen(v: Var): nat {
    v.len
  }

  function VarAt(u: string): (r: Option<Var>)
    ensures r.Some? ==> 1 < r.value.len <= |u| && u[0] == '$' && IsWord(r.value.name)
    ensures r.Some? ==> r.value.name == u[1..r.value.len]
  {
    if |u| > 0 && u[0] == '$' then
      var n := RunEnd(u, 1, IsWordChar);
      RunAll(u, 1, n, IsWordChar);
      if n > 1 then Some(Var(n, u[1..n])) else None
    else
      None
  }

  /** The names of the variables a source expression refers to, in order. */
  function SourceGroups(source: string): (r: seq<string>)
    ensures forall k :: 0 <= k < |r| ==> IsWord(r[k])
  {
    var vars := Items(Find(VarAt, VarLen, false, source, 0));
    seq(|vars|, k requires 0 <= k < |vars| => vars[k].name)
  }

  // ---------------------------------------------------------------------
  // Groups
  // ---------------------------------------------------------------------

  /** `getGroupDescription`: the label of the eight known variables, or the
      name itself. */
  function GroupDescription(name: string): (r: string)
    ensures r != name ==> name in KnownNames()
    ensures name !in KnownNames() ==> r == name
  {
    if name == "acl_internal_ips" then "Internal Production Network"
    else if name == "acl_test_ips" then "Test Environment IPs"
    else if name == "acl_microsoft_urls" then "Microsoft Services"
    else if name == "acl_redhat_urls" then "Red Hat Services"
    else if name == "acl_cdn_urls" then "Content Delivery Networks"
    else if name == "ip_acl" then "Combined IP Access Control"
    else if name == "url_acl" then "Combined URL Access Control"
    else if name == "access_granted" then "Final Access Decision"
    else name
  }

  function KnownNames(): set<string> {
    {"acl_internal_ips", "acl_test_ips", "acl_microsoft_urls", "acl_redhat_urls", "acl_cdn_urls",
     "ip_acl", "url_acl", "access_granted"}
  }

  /** The entries of a `geo` body: every line the search reports. */
  function IpEntries(lines: seq<Line>): (r: seq<IpAclEntry>)
    ensures |r| == |lines|
    ensures forall k :: 0 <= k < |r| ==> r[k] == IpAclEntry(lines[k].key, lines[k].value, lines[k].comment)
  {
    if |lines| == 0 then []
    else [IpAclEntry(lines[0].key, lines[0].value, lines[0].comment)] + IpEntries(lines[1..])
  }

  function GeoLines(body: string): seq<Line> {
    Items(Find(GeoLineAt, LineLen, true, body, 0))
  }

  /** The IP group a `geo` block gives: one when its variable starts with
      `acl_`, none otherwise. */
  function IpGroupOf(b: Block): (r: seq<IpAclGroup>)
    ensures |r| <= 1
  {
    if StartsWith(b.name, "acl_") then [IpAclGroup(b.name, GroupDescription(b.name), IpEntries(GeoLines(b.body)))] else []
  }

  /** The IP groups, in text order. */
  function IpGroups(blocks: seq<Block>): (r: seq<IpAclGroup>)
    ensures |r| <= |blocks|
    ensures forall g :: g in r ==> StartsWith(g.name, "acl_") && g.description == GroupDescription(g.name)
  {
    if |blocks| == 0 then [] else IpGroupOf(blocks[0]) + IpGroups(blocks[1..])
  }

  /** A map whose source expression, after its first `$`, still holds more
      than one `$`. */
  predicate IsCombined(b: Block) {
    Count(b.source, '$') > 1
  }

  /** A URL entry from a map line: a leading `~` marks a regular expression
      and is dropped. */
  function UrlEntry(l: Line): (e: UrlAclEntry)
    ensures e.isRegex <==> StartsWith(l.key, "~")
    ensures l.key == (if e.isRegex then "~" + e.pattern else e.pattern)
    ensures e.value == l.value && e.description == l.comment
  {
    var isRegex := StartsWith(l.key, "~");
    assert isRegex ==> l.key == "~" + l.key[1..];
    UrlAclEntry(if isRegex then l.key[1..] else l.key, l.value, l.comment, isRegex)
  }

  /** The entries of a URL map body: every reported line except `default`. */
  function UrlEntries(lines: seq<Line>): (r: seq<UrlAclEntry>)
    ensures |r| <= |lines|
  {
    if |lines| == 0 then []
    else if lines[0].key == "default" then UrlEntries(lines[1..])
    else [UrlEntry(lines[0])] + UrlEntries(lines[1..])
  }

  /** The line expression of a URL map body, whose values may be quoted. */
  function UrlLineAt(u: string): Option<Line> {
    MapLineAt(u, false)
  }

  /** The line expression of a combined map body, whose values are digits. */
  function RuleLineAt(u: string): Option<Line> {
    MapLineAt(u, true)
  }

  function MapLines(body: string, digitsOnly: bool): seq<Line> {
    Items(Find(if digitsOnly then RuleLineAt else UrlLineAt, LineLen, true, body, 0))
  }

  /** The URL group a `map` block gives: one when the map is not combined and
      its variable starts with `acl_`, none otherwise. */
  function UrlGroupOf(b: Block): (r: seq<UrlAclGroup>)
    ensures |r| <= 1
  {
    if !IsCombined(b) && StartsWith(b.name, "acl_") then [UrlAclGroup(b.name, GroupDescription(b.name), UrlEntries(MapLines(b.body, false)))] else []
  }

  /** The URL groups, in text order. */
  function UrlGroups(blocks: seq<Block>): (r: seq<UrlAclGroup>)
    ensures |r| <= |blocks|
    ensures forall g :: g in r ==> StartsWith(g.name, "acl_") && g.description == GroupDescription(g.name)
  {
    if |blocks| == 0 then [] else UrlGroupOf(blocks[0]) + UrlGroups(blocks[1..])
  }

  /** The rules of a combined map body: every reported line except `default`. */
  function CombinedRules(lines: seq<Line>): (r: seq<CombinedAclRule>)
    ensures |r| <= |lines|
  {
    if |lines| == 0 then []
    else if lines[0].key == "default" then CombinedRules(lines[1..])
    else [CombinedAclRule(lines[0].key, lines[0].value, lines[0].comment)] + CombinedRules(lines[1..])
  }

  /** The combined ACL a `map` block gives: one when the map is combined,
      whatever its variable, none otherwise. */
  function CombinedAclOf(b: Block): (r: seq<CombinedAcl>)
    ensures |r| <= 1
  {
    if IsCombined(b) then [CombinedAcl(b.name, GroupDescription(b.name), SourceGroups(b.source), CombinedRules(MapLines(b.body, true)))] else []
  }

  /** The combined ACLs, in text order. */
  function CombinedAcls(blocks: seq<Block>): (r: seq<CombinedAcl>)
    ensures |r| <= |blocks|
    ensures forall a :: a in r ==> a.description == GroupDescription(a.name)
  {
    if |blocks| == 0 then [] else CombinedAclOf(blocks[0]) + CombinedAcls(blocks[1..])
  }

  function GeoBlocks(t: string): seq<Block> {
    Items(Find(GeoBlockAt, BlockLen, false, t, 0))
  }

  function MapBlocks(t: string): seq<Block> {
    Items(Find(MapBlockAt, BlockLen, false, t, 0))
  }

  /** `parseNginxConfig`. */
  function Parse(t: string): NginxConfig {
    var maps := MapBlocks(t);
    NginxConfig(IpGroups(GeoBlocks(t)), UrlGroups(maps), CombinedAcls(maps))
  }
}
