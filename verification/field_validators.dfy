/** The three input checks of the editor's service layer
    (`src/services/nginx-service.ts`): CIDR text for IP entries, host
    patterns for URL entries, and patterns for combined-ACL rules.

    Whether a string compiles as a JavaScript regular expression is left to
    the caller: it is the parameter `compiles`. */
module FieldValidators {
  import opened Text
  import opened Types

  // ---------------------------------------------------------------------
  // validateCidr
  // ---------------------------------------------------------------------

  /** One to three decimal digits: `\d{1,3}`. */
  predicate IsOctetText(o: string) {
    1 <= |o| <= 3 && All(o, IsDigit)
  }

  /** One or two decimal digits: `\d{1,2}`. */
  predicate IsPrefixText(p: string) {
    1 <= |p| <= 2 && All(p, IsDigit)
  }

  /** The language of `^(\d{1,3}\.){3}\d{1,3}(\/\d{1,2})?$`: four dot-separated
      groups of one to three digits, then optionally `/` and one or two digits. */
  predicate MatchesCidrPattern(s: string) {
    var parts := Split(s, '/');
    var octets := Split(parts[0], '.');
    (|parts| == 1 || (|parts| == 2 && IsPrefixText(parts[1])))
    && |octets| == 4
    && forall k :: 0 <= k < 4 ==> IsOctetText(octets[k])
  }

  /** `validateCidr`: the shape check, then every octet at most 255, then the
      prefix, when the text contains a `/`, at most 32. */
  function ValidateCidr(s: string): (ok: bool)
    ensures ok ==> MatchesCidrPattern(s)
  {
    if !MatchesCidrPattern(s) then
      false
    else
      var parts := Split(s, '/');
      var segments := Split(parts[0], '.');
      if exists k :: 0 <= k < |segments| && DigitsValue(segments[k]) > 255 then
        false
      else if '/' in s then
        DigitsValue(parts[1]) <= 32
      else
        true
  }

  /** The text `o1.o2.o3.o4`, followed by `/p` when a prefix `p` is given. */
  function CidrText(octets: seq<string>, prefix: Option<string>): string
    requires |octets| == 4
  {
    Join(octets, '.') + match prefix case Some(p) => "/" + p case None => ""
  }

  predicate WellShaped(octets: seq<string>, prefix: Option<string>) {
    |octets| == 4
    && (forall k :: 0 <= k < 4 ==> IsOctetText(octets[k]))
    && (prefix.Some? ==> IsPrefixText(prefix.value))
  }

  predicate InRange(octets: seq<string>, prefix: Option<string>)
    requires WellShaped(octets, prefix)
  {
    (forall k :: 0 <= k < 4 ==> DigitsValue(octets[k]) <= 255)
    && (prefix.Some? ==> DigitsValue(prefix.value) <= 32)
  }

  lemma DigitsHaveNo(s: string, c: char)
    requires All(s, IsDigit) && !IsDigit(c)
    ensures c !in s
  {
  }

  lemma {:induction false} JoinHasNo(parts: seq<string>, sep: char, c: char)
    requires |parts| >= 1 && c != sep
    requires forall k :: 0 <= k < |parts| ==> c !in parts[k]
    ensures c !in Join(parts, sep)
    decreases |parts|
  {
    if |parts| > 1 {
      JoinHasNo(parts[1..], sep, c);
    }
  }

  /** The dotted part of a well-shaped CIDR text splits back into its octets. */
  lemma DottedSplits(octets: seq<string>)
    requires |octets| == 4 && forall k :: 0 <= k < 4 ==> IsOctetText(octets[k])
    ensures Split(Join(octets, '.'), '.') == octets
  {
    forall k | 0 <= k < 4 ensures '.' !in octets[k] {
      DigitsHaveNo(octets[k], '.');
    }
    SplitJoin(octets, '.');
  }

  /** The dotted part of a well-shaped CIDR text holds no `/`. */
  lemma DottedHasNoSlash(octets: seq<string>)
    requires |octets| == 4 && forall k :: 0 <= k < 4 ==> IsOctetText(octets[k])
    ensures '/' !in Join(octets, '.')
  {
    forall k | 0 <= k < 4 ensures '/' !in octets[k] {
      DigitsHaveNo(octets[k], '/');
    }
    JoinHasNo(octets, '.', '/');
  }

  /** How a well-shaped CIDR text splits at `/`. */
  lemma CidrTextSplits(octets: seq<string>, prefix: Option<string>)
    requires WellShaped(octets, prefix)
    ensures prefix.Some? ==> Split(CidrText(octets, prefix), '/') == [Join(octets, '.'), prefix.value]
    ensures prefix.None? ==> Split(CidrText(octets, prefix), '/') == [Join(octets, '.')]
    ensures ('/' in CidrText(octets, prefix)) <==> prefix.Some?
  {
    DottedHasNoSlash(octets);
    var ip := Join(octets, '.');
    if prefix.Some? {
      var p := prefix.value;
      DigitsHaveNo(p, '/');
      SplitPair(ip, p, '/');
      assert CidrText(octets, prefix) == ip + ['/'] + p;
      assert CidrText(octets, prefix)[|ip|] == '/';
    } else {
      assert CidrText(octets, prefix) == ip;
    }
  }

  /** A well-shaped CIDR text passes the shape check, and its parts are the
      ones it was built from. */
  lemma CidrTextMatches(octets: seq<string>, prefix: Option<string>)
    requires WellShaped(octets, prefix)
    ensures MatchesCidrPattern(CidrText(octets, prefix))
    ensures Split(Split(CidrText(octets, prefix), '/')[0], '.') == octets
    ensures prefix.Some? <==> '/' in CidrText(octets, prefix)
    ensures prefix.Some? ==> |Split(CidrText(octets, prefix), '/')| == 2 && Split(CidrText(octets, prefix), '/')[1] == prefix.value
  {
    var s := CidrText(octets, prefix);
    var parts := Split(s, '/');
    assert parts[0] == Join(octets, '.') && (prefix.Some? <==> '/' in s) && |parts| == (if prefix.Some? then 2 else 1)
      && (prefix.Some? ==> parts[1] == prefix.value) by {
      CidrTextSplits(octets, prefix);
    }
    assert Split(parts[0], '.') == octets by {
      DottedSplits(octets);
    }
  }

  /** A well-shaped CIDR text is accepted exactly when every octet is at most
      255 and the prefix, if any, is at most 32. Leading zeros are allowed. */
  lemma CidrAccepted(octets: seq<string>, prefix: Option<string>)
    requires WellShaped(octets, prefix)
    ensures ValidateCidr(CidrText(octets, prefix)) <==> InRange(octets, prefix)
  {
    CidrTextMatches(octets, prefix);
  }

  /** Every accepted text is a well-shaped CIDR text with octets and prefix in range. */
  lemma CidrDecompose(s: string) returns (octets: seq<string>, prefix: Option<string>)
    requires ValidateCidr(s)
    ensures WellShaped(octets, prefix) && InRange(octets, prefix)
    ensures s == CidrText(octets, prefix)
  {
    var parts := Split(s, '/');
    octets := Split(parts[0], '.');
    prefix := if |parts| == 2 then Some(parts[1]) else None;
    assert WellShaped(octets, prefix);
    assert Join(octets, '.') == parts[0] by {
      JoinSplit(parts[0], '.');
    }
    assert s == Join(parts, '/') by {
      JoinSplit(s, '/');
    }
    if |parts| == 2 {
      assert parts[1..] == [parts[1]];
      assert Join(parts[1..], '/') == parts[1];
      assert s == parts[0] + ['/'] + parts[1];
      assert s[|parts[0]|] == '/';
      assert DigitsValue(parts[1]) <= 32;
    }
    forall k | 0 <= k < 4 ensures DigitsValue(octets[k]) <= 255 {
      assert !(DigitsValue(octets[k]) > 255);
    }
  }

  /** Accepting a text through its parts. */
  lemma CidrTextAccepted(octets: seq<string>, prefix: Option<string>, text: string)
    requires WellShaped(octets, prefix) && CidrText(octets, prefix) == text
    ensures ValidateCidr(text) <==> InRange(octets, prefix)
  {
    CidrAccepted(octets, prefix);
  }

  lemma ExampleValues()
    ensures DigitsValue("192") == 192 && DigitsValue("168") == 168 && DigitsValue("999") == 999
    ensures DigitsValue("010") == 10 && DigitsValue("10") == 10
    ensures DigitsValue("0") == 0 && DigitsValue("1") == 1
    ensures DigitsValue("24") == 24 && DigitsValue("33") == 33
  {
    assert "192"[..2] == "19" && "19"[..1] == "1" && "1"[..0] == "";
    assert "168"[..2] == "16" && "16"[..1] == "1";
    assert "999"[..2] == "99" && "99"[..1] == "9" && "9"[..0] == "";
    assert "010"[..2] == "01" && "01"[..1] == "0" && "0"[..0] == "";
    assert "10"[..1] == "1";
    assert "24"[..1] == "2" && "2"[..0] == "";
    assert "33"[..1] == "3" && "3"[..0] == "";
  }

  lemma DottedText(a: string, b: string, c: string, d: string)
    ensures Join([a, b, c, d], '.') == a + "." + b + "." + c + "." + d
  {
    assert [a, b, c, d][1..] == [b, c, d];
    assert [b, c, d][1..] == [c, d];
    assert [c, d][1..] == [d];
    assert Join([c, d], '.') == c + "." + d;
    assert Join([b, c, d], '.') == b + "." + c + "." + d;
  }

  /** Accepting a dotted text written out piece by piece. */
  lemma DottedAccepted(a: string, b: string, c: string, d: string, prefix: Option<string>, text: string)
    requires WellShaped([a, b, c, d], prefix)
    requires text == a + "." + b + "." + c + "." + d + match prefix case Some(p) => "/" + p case None => ""
    ensures ValidateCidr(text) <==> InRange([a, b, c, d], prefix)
  {
    DottedText(a, b, c, d);
    CidrTextAccepted([a, b, c, d], prefix, text);
  }

  /** `192.168.1.0/24` is accepted. */
  lemma CidrAcceptsNetwork()
    ensures ValidateCidr("192.168.1.0/24")
  {
    ExampleValues();
    var octets := ["192", "168", "1", "0"];
    assert WellShaped(octets, Some("24"));
    assert InRange(octets, Some("24"));
    DottedAccepted("192", "168", "1", "0", Some("24"), "192.168.1.0/24");
  }

  /** `10.0.0.0`, without a prefix, is accepted. */
  lemma CidrAcceptsAddress()
    ensures ValidateCidr("10.0.0.0")
  {
    ExampleValues();
    var octets := ["10", "0", "0", "0"];
    assert WellShaped(octets, None);
    assert InRange(octets, None);
    DottedAccepted("10", "0", "0", "0", None, "10.0.0.0");
  }

  /** `010.0.0.1` is accepted: leading zeros are not refused. */
  lemma CidrAcceptsLeadingZero()
    ensures ValidateCidr("010.0.0.1")
  {
    ExampleValues();
    var octets := ["010", "0", "0", "1"];
    assert WellShaped(octets, None);
    assert InRange(octets, None);
    DottedAccepted("010", "0", "0", "1", None, "010.0.0.1");
  }

  /** `192.168.1.0/33` is refused: the prefix is above 32. */
  lemma CidrRejectsLongPrefix()
    ensures !ValidateCidr("192.168.1.0/33")
  {
    ExampleValues();
    var octets := ["192", "168", "1", "0"];
    assert WellShaped(octets, Some("33"));
    assert !InRange(octets, Some("33"));
    DottedAccepted("192", "168", "1", "0", Some("33"), "192.168.1.0/33");
  }

  /** `999.1.1.1` is refused: an octet is above 255. */
  lemma CidrRejectsLargeOctet()
    ensures !ValidateCidr("999.1.1.1")
  {
    ExampleValues();
    var octets := ["999", "1", "1", "1"];
    assert WellShaped(octets, None);
    assert DigitsValue(octets[0]) > 255;
    assert !InRange(octets, None);
    DottedAccepted("999", "1", "1", "1", None, "999.1.1.1");
  }

  // ---------------------------------------------------------------------
  // validateUrlPattern
  // ---------------------------------------------------------------------

  predicate IsAlnum(c: char) {
    IsLetter(c) || IsDigit(c)
  }

  predicate IsLabelChar(c: char) {
    IsAlnum(c) || c == '-'
  }

  /** `[a-zA-Z0-9]([a-zA-Z0-9\-]{0,61}[a-zA-Z0-9])?`: one to 63 letters,
      digits or hyphens, neither first nor last a hyphen. */
  predicate IsLabel(l: string) {
    1 <= |l| <= 63 && IsAlnum(l[0]) && IsAlnum(l[|l| - 1]) && All(l, IsLabelChar)
  }

  /** `[a-zA-Z]{2,}`: the final label. */
  predicate IsTopLabel(t: string) {
    |t| >= 2 && All(t, IsLetter)
  }

  /** The language of the literal-mode check
      `^([a-zA-Z0-9]([a-zA-Z0-9\-]{0,61}[a-zA-Z0-9])?\.)+[a-zA-Z]{2,}$`.
      No part contains a dot, so the parts are exactly what splitting at the
      dots gives. */
  predicate IsHostName(s: string) {
    var parts := Split(s, '.');
    |parts| >= 2
    && (forall k :: 0 <= k < |parts| - 1 ==> IsLabel(parts[k]))
    && IsTopLabel(parts[|parts| - 1])
  }

  /** `validateUrlPattern`: a blank pattern is refused in both modes; a regex
      pattern is accepted when it compiles; a literal pattern when it is a
      host name. */
  function ValidateUrlPattern(pattern: string, isRegex: bool, compiles: string -> bool): (ok: bool)
    ensures ok ==> !All(pattern, IsSpace)
    ensures isRegex && ok ==> compiles(pattern)
  {
    if Trim(pattern) == "" then
      false
    else if isRegex then
      compiles(pattern)
    else
      IsHostName(pattern)
  }

  /** In regex mode the check is exactly "not blank, and compiles". */
  lemma UrlRegexMode(pattern: string, compiles: string -> bool)
    ensures ValidateUrlPattern(pattern, true, compiles) <==> !All(pattern, IsSpace) && compiles(pattern)
  {
  }

  /** In literal mode the check is exactly "is a host name": a host name is
      never blank. */
  lemma UrlLiteralMode(pattern: string, compiles: string -> bool)
    ensures ValidateUrlPattern(pattern, false, compiles) <==> IsHostName(pattern)
  {
    if IsHostName(pattern) {
      HostNameNotBlank(pattern);
    }
  }

  /** A pattern whose first character is not a letter or digit is refused in
      literal mode. */
  lemma BadStartRefused(pattern: string, compiles: string -> bool)
    requires |pattern| > 0 && !IsAlnum(pattern[0])
    ensures !ValidateUrlPattern(pattern, false, compiles)
  {
    UrlLiteralMode(pattern, compiles);
    if IsHostName(pattern) {
      HostNameNotBlank(pattern);
    }
  }

  lemma LabelHasNoDot(l: string)
    requires IsLabel(l) || IsTopLabel(l)
    ensures '.' !in l
  {
  }

  /** Labels followed by a final label, glued with dots, form a host name. */
  lemma HostNameJoin(labels: seq<string>, top: string)
    requires |labels| >= 1
    requires forall k :: 0 <= k < |labels| ==> IsLabel(labels[k])
    requires IsTopLabel(top)
    ensures IsHostName(Join(labels + [top], '.'))
  {
    var parts := labels + [top];
    assert Split(Join(parts, '.'), '.') == parts by {
      forall k | 0 <= k < |parts| ensures '.' !in parts[k] {
        LabelHasNoDot(parts[k]);
      }
      SplitJoin(parts, '.');
    }
  }

  /** A host name starts with a letter or digit, so it is not blank. */
  lemma HostNameNotBlank(s: string)
    requires IsHostName(s)
    ensures |s| > 0 && IsAlnum(s[0]) && !All(s, IsSpace)
  {
    var parts := Split(s, '.');
    JoinSplit(s, '.');
    JoinStartsWithFirst(parts, '.');
    assert IsLabel(parts[0]);
    assert s[0] == parts[0][0];
    NotBlank(s, 0);
  }

  /** Labels followed by a final label, glued with dots, are accepted in
      literal mode. */
  lemma HostNameAccepted(labels: seq<string>, top: string, compiles: string -> bool)
    requires |labels| >= 1
    requires forall k :: 0 <= k < |labels| ==> IsLabel(labels[k])
    requires IsTopLabel(top)
    ensures ValidateUrlPattern(Join(labels + [top], '.'), false, compiles)
  {
    HostNameJoin(labels, top);
    HostNameNotBlank(Join(labels + [top], '.'));
  }

  lemma {:induction false} JoinStartsWithFirst(parts: seq<string>, sep: char)
    requires |parts| >= 1
    ensures StartsWith(Join(parts, sep), parts[0])
  {
  }

  /** A host name is its labels and final label glued with dots. */
  lemma HostNameParts(s: string) returns (labels: seq<string>, top: string)
    requires IsHostName(s)
    ensures |labels| >= 1 && IsTopLabel(top)
    ensures forall k :: 0 <= k < |labels| ==> IsLabel(labels[k])
    ensures s == Join(labels + [top], '.')
  {
    var parts := Split(s, '.');
    labels := parts[..|parts| - 1];
    top := parts[|parts| - 1];
    assert labels + [top] == parts;
    JoinSplit(s, '.');
  }

  /** Every pattern accepted in literal mode is such a join. */
  lemma HostNameDecompose(s: string, compiles: string -> bool) returns (labels: seq<string>, top: string)
    requires ValidateUrlPattern(s, false, compiles)
    ensures |labels| >= 1 && IsTopLabel(top)
    ensures forall k :: 0 <= k < |labels| ==> IsLabel(labels[k])
    ensures s == Join(labels + [top], '.')
  {
    UrlLiteralMode(s, compiles);
    labels, top := HostNameParts(s);
  }

  lemma ExampleLabels()
    ensures IsLabel("example") && IsTopLabel("com")
    ensures ["example"] + ["com"] == ["example", "com"]
    ensures Join(["example", "com"], '.') == "example.com"
  {
    assert Join(["example", "com"][1..], '.') == "com";
  }

  /** `example.com` is accepted in literal mode. */
  lemma HostNameExample(compiles: string -> bool)
    ensures ValidateUrlPattern("example.com", false, compiles)
  {
    ExampleLabels();
    HostNameAccepted(["example"], "com", compiles);
  }

  /** `*.example.com` is refused in literal mode: `*` is not a label. */
  lemma WildcardRefused(compiles: string -> bool)
    ensures !ValidateUrlPattern("*.example.com", false, compiles)
  {
    assert !IsAlnum("*.example.com"[0]);
    BadStartRefused("*.example.com", compiles);
  }

  // ---------------------------------------------------------------------
  // validateCombinedPattern
  // ---------------------------------------------------------------------

  predicate IsBitChar(c: char) {
    c == '0' || c == '1' || c == '.'
  }

  /** `validateCombinedPattern`: a blank pattern is refused; a pattern starting
      with `~*` is accepted when the rest compiles; any other pattern when it
      is made only of `0`, `1` and `.`. */
  function ValidateCombinedPattern(pattern: string, compiles: string -> bool): (ok: bool)
    ensures ok ==> !All(pattern, IsSpace)
    ensures !StartsWith(pattern, "~*") ==> (ok <==> |pattern| > 0 && All(pattern, IsBitChar))
    ensures StartsWith(pattern, "~*") ==> (ok <==> compiles(pattern[2..]))
  {
    if Trim(pattern) == "" then
      false
    else if StartsWith(pattern, "~*") then
      compiles(pattern[2..])
    else
      |pattern| > 0 && All(pattern, IsBitChar)
  }

  /** `11` and `.1` are accepted and `ab` is refused. */
  lemma CombinedBitExamples(compiles: string -> bool)
    ensures ValidateCombinedPattern("11", compiles)
    ensures ValidateCombinedPattern(".1", compiles)
    ensures !ValidateCombinedPattern("ab", compiles)
  {
    assert !StartsWith("11", "~*") by { assert "11"[1] != '*'; }
    assert !StartsWith(".1", "~*") by { assert ".1"[0] != '~'; }
    assert !StartsWith("ab", "~*") by { assert "ab"[0] != '~'; }
    assert All("11", IsBitChar) && All(".1", IsBitChar);
    assert !IsBitChar("ab"[0]);
  }

  /** The regex pattern `~*1` of the generator's fallback maps passes whenever
      `1` compiles. */
  lemma CombinedRegexExample(compiles: string -> bool)
    ensures compiles("1") ==> ValidateCombinedPattern("~*1", compiles)
  {
    assert StartsWith("~*1", "~*") && "~*1"[2..] == "1";
  }
}
