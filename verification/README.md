# nginx ACL architect, modelled in Dafny

nginx-acl-architect is a web editor for the access-control part of an nginx
configuration. It reads the configuration into a model of ACL groups, lets
the user edit that model, and writes a configuration back out. The model has
three kinds of entity:

- IP ACL groups: `geo $acl_… { cidr value; }` blocks.
- URL ACL groups: `map $host $acl_… { "pattern" value; }` blocks.
- Combined ACLs: `map "$a$b…" $name { "pattern" value; }` blocks over other groups.

This project models the core of that editor as pure Dafny functions, and
proves what those functions promise:

- the parser, `parseNginxConfig`, and `getGroupDescription`;
- the generator, `generateNginxConfig`;
- the lint `validateNginxConfig` and the repairs `fixNginxConfig`,
  `validateAndFixNginxConfig` and `fixNginxSyntaxErrors`;
- the field checks `validateCidr`, `validateUrlPattern` and
  `validateCombinedPattern`;
- the edit handlers of the IP, URL and combined ACL cards and of the combined
  ACL page.

## Layout

| file | module | what it holds |
|---|---|---|
| `types.dfy` | `Types` | the entities of `src/types/nginx.ts`, and `Option` |
| `text.dfy` | `Text` | JavaScript character classes, runs of characters, `trim`, `split`, `padEnd`, counting |
| `search.dfy` | `Search` | a global (`/g`) regular-expression search, for a matcher that runs at one position |
| `parser.dfy` | `Parser` | the six expressions of the parser as matchers, and `parseNginxConfig` |
| `parser_facts.dfy` | `ParserFacts` | how block headers are read, how maps are classified, and how entries are collected |
| `generator.dfy` | `Generator` | `generateNginxConfig`, including its fixed header, fallback maps and server section |
| `lint.dfy` | `Lint` | `validateNginxConfig`, the three rewrites of `fixNginxConfig`, `fixNginxSyntaxErrors`, `validateAndFixNginxConfig` |
| `generated_lint.dfy` | `GeneratedLint` | what the lint and the repair make of generated configurations |
| `server_text.dfy` | `ServerText` | where in the fixed server section the parenthesised repair could start |
| `keywords.dfy`, `fixed_text.dfy` | `Keywords`, `FixedText` | where the block expressions cannot match in generated text |
| `entries_back.dfy` | `EntriesBack` | how each generated entry line, and each generated block body, is read back |
| `blocks_back.dfy` | `BlocksBack` | how the block searches find the generated blocks, one group at a time |
| `round_trip.dfy` | `RoundTrip` | what the parser reads back from a whole generated configuration |
| `field_validators.dfy` | `FieldValidators` | the three field checks |
| `editing.dfy` | `Editing` | the edit handlers of the cards and of the combined ACL page |

## How the source is modelled

**Regular expressions.** Each expression the code uses is a matcher: a
function from the rest of the text to the match found at its start, or
`None`. `Search.Find` is the `/g` `exec` loop. It tries each position in
turn; with the multiline flag, `^` allows only line starts. After a match,
the search resumes where the match ended. Greedy quantifiers are modelled
with JavaScript's backtracking. A run is taken as far as it goes. When the
rest of the expression then fails, the run gives characters back, longest
first, until the rest matches (`Search.LastMatch`, `Parser.KeyEnd`,
`Parser.IndentEnd`). JavaScript's `\s` includes line terminators, so the
`\s*` before a comment can cross line breaks. This is modelled as written.

**Regular expressions that are compiled at run time.** `new RegExp(p)`
either succeeds or throws. The model takes a parameter
`compiles: string -> bool` in its place.

**Edit handlers.** A React handler reads component state, calls back with an
updated group, and sets dialog state. Each handler is modelled as a function
from the group (or list) and the user's input to the updated value. A handler
that refuses its input returns `Refused(reason)`. The reason stands for the
error message or toast the code shows.

**Strings.** Strings are sequences of Dafny characters (`char`), which are
Unicode scalar values; JavaScript strings are sequences of UTF-16 code units.
The two agree on every character of the Basic Multilingual Plane, and only
lengths differ beyond it (see `Text.PadEnd` under "Left out"). The lint's
messages are modelled with their exact text. Numbers in messages are written
by `Text.NatToString`.

**Behaviour worth knowing, modelled as written:**

- The map expression's source capture starts after the first `$`.
  `$a$b` therefore counts as a single variable and is read as a URL group,
  not as a combined ACL. For `$a$b$c`, the source groups are `b` and `c`:
  the first variable is dropped.
- A regular-expression URL entry is written as `"~^p$"`. It is read back as
  the pattern `^p$`, so the anchors accumulate on every save.
- The generator writes combined ACLs as `map "$a$b" $name`. The map
  expression wants `$` after `map` and white space, so these blocks are
  never read back: a configuration read back from generated text has no
  combined ACL.
- Only groups named `acl_…` are read back, under the label of their name
  rather than their own description.
- The generated server section tests `if ($access_granted = 0)`. The lint
  reports exactly that form. So every generated configuration fails the
  lint, and `fixNginxSyntaxErrors` rewrites both tests to
  `if ($access_granted != 1)`, leaving the `(location level)` text alone.
- `validateAndFixNginxConfig` returns what `fixNginxConfig` returns, in
  both branches.
- `fixNginxConfig` is not idempotent. Its `access_log` rewrite uses `.*`,
  and `\s*` can cross line breaks, so a second pass can rewrite again.

## Model

| member | source | states |
|---|---|---|
| Parser.NamedAt | src/services/nginx-parser.ts:5-6 | a `$name {body}` match ends at its `}`, has a word as its variable and a non-empty body free of `}` |
| Parser.GeoBlockAt | src/services/nginx-parser.ts:5 | a `geo` match opens with `geo`, white space and `$`, spans part of the text and has a word as its variable |
| Parser.MapBlockAt | src/services/nginx-parser.ts:6 | a `map` match opens with `map`, white space and `$`; its source is non-empty and free of `{`; its variable is a word |
| Parser.MapSourceFrom | src/services/nginx-parser.ts:6 | the rest of a `map` match, from its source on: the source is non-empty and free of `{`, the variable is a word and the body is free of `}` |
| Parser.GeoLineAt | src/services/nginx-parser.ts:7 | a `geo` line match has a key of the shape `[\d.]+(/\d+)?` and digits as its value, ends at a line end, and its comment stays on the line and does not start with white space |
| Parser.TrailerAt | src/services/nginx-parser.ts:7-9 | the optional comment ends at a line end, holds no line terminator and does not start with white space |
| Parser.MapLineAt | src/services/nginx-parser.ts:8-9 | a map line's key is non-empty and free of quotes; in a combined map its value is digits |
| Parser.VarAt | src/services/nginx-parser.ts:10 | a variable reference starts with `$` and its name is the word after it |
| Parser.SourceGroups | src/services/nginx-parser.ts:56-60 | every source group is a word |
| Parser.GroupDescription | src/services/nginx-parser.ts:113-126 | a name outside the eight known variables is its own description |
| Parser.IpGroups | src/services/nginx-parser.ts:19-42 | every IP group read has an `acl_` name and the description of that name |
| Parser.IpEntries | src/services/nginx-parser.ts:29-35 | one entry per reported `geo` line, with the line's key, value and comment |
| Parser.UrlEntry | src/services/nginx-parser.ts:91-99 | an entry is a regular expression exactly when its key starts with `~`, and the key is the pattern with `~` put back |
| Parser.UrlGroups | src/services/nginx-parser.ts:82-107 | every URL group read has an `acl_` name and the description of that name |
| Parser.CombinedAcls | src/services/nginx-parser.ts:54-81 | every combined ACL read has the description of its name |
| ParserFacts.NamedRuns | src/services/nginx-parser.ts:5-6 | `$name {body}` read run by run: the variable and body captures are the word run and the text up to `}` |
| ParserFacts.NamedShape | src/services/nginx-parser.ts:5-6 | `$name {body}` matches with exactly that variable and body, for any word `name` and body free of `}` |
| ParserFacts.GeoBlockRuns | src/services/nginx-parser.ts:5 | a `geo` match is `geo`, white space, and a `$name {body}` match |
| ParserFacts.GeoBlockAfter | src/services/nginx-parser.ts:5 | `geo ` followed by a `$name {body}` match is a `geo` block with that variable and body |
| ParserFacts.MapTailMiss | src/services/nginx-parser.ts:6 | the part after the source cannot start at a non-space, nor at a single space not followed by `$` |
| ParserFacts.MapTailRuns | src/services/nginx-parser.ts:6 | the part after the source is white space and a `$name {body}` match |
| ParserFacts.MapTailAfter | src/services/nginx-parser.ts:6 | a space followed by a `$name {body}` match is that part |
| ParserFacts.SourceEndChars | src/services/nginx-parser.ts:6 | the greedy source capture gives back exactly down to the space before the target variable |
| ParserFacts.MapBlockRuns | src/services/nginx-parser.ts:6 | a `map` match is `map`, white space, `$`, the source up to where the rest last matches, and the rest |
| ParserFacts.MapBlockChars | src/services/nginx-parser.ts:6 | `map $src $name {body}` with no `{` in `src` is a map block whose source is `src`: the `$` after `map` is not part of it |
| ParserFacts.OneGeoBlock | src/services/nginx-parser.ts:19-41 | the text `geo $name {body}` is read as a block with variable `name` and that body; it gives an IP group exactly when `name` starts with `acl_`, and that group has the name, the label of the name and the entries of the body's lines |
| ParserFacts.OneMapBlock | src/services/nginx-parser.ts:46-107 | the text `map $src $name {body}` is read as a block with source `src`, variable `name` and that body; it gives a combined ACL exactly when `src` holds more than one `$`, and otherwise a URL group exactly when `name` starts with `acl_` |
| ParserFacts.TwoVariablesNotCombined | src/services/nginx-parser.ts:47-52 | a source `a$x` with no other `$` (from `$a$x`) is not combined, and the map is a URL group exactly when its variable starts with `acl_` |
| ParserFacts.ThreeVariablesCombined | src/services/nginx-parser.ts:52-81 | a source `a$x$y`, with words `x` and `y` and no `$` in `a`, is combined, is not a URL group, and gives the combined ACL with source groups `x` and `y` and the rules of its body |
| ParserFacts.WordVar | src/services/nginx-parser.ts:10 | `$x`, for a word `x` followed by the end or a non-word character, is a reference to `x` |
| ParserFacts.ThreeSourceGroups | src/services/nginx-parser.ts:56-60 | the variables of `a$x$y`, for words `x` and `y` and no `$` in `a`, are `x` and `y`, in order |
| ParserFacts.IpGroupsAppend | src/services/nginx-parser.ts:19-42 | IP groups are collected block by block, in text order |
| ParserFacts.UrlGroupsAppend | src/services/nginx-parser.ts:46-108 | URL groups are collected block by block, in text order |
| ParserFacts.CombinedAclsAppend | src/services/nginx-parser.ts:46-108 | combined ACLs are collected block by block, in text order |
| ParserFacts.UrlEntriesAppend | src/services/nginx-parser.ts:87-100 | URL entries are collected line by line; a `default` line gives none, any other line its entry |
| ParserFacts.CombinedRulesAppend | src/services/nginx-parser.ts:65-74 | combined rules are collected line by line; a `default` line gives none, any other line its rule |
| ParserFacts.TildeMarksRegex | src/services/nginx-parser.ts:92-95 | a key `~p` gives the regular expression `p`; a key without `~` is a plain pattern kept whole |
| ParserFacts.DescriptionLabels | src/services/nginx-parser.ts:114-123 | the labels of the eight known variables |
| ParserFacts.DescriptionStable | src/services/nginx-parser.ts:113-126 | describing a description changes nothing |
| ParserFacts.CapitalisedLabels | src/services/nginx-parser.ts:114-123 | every label starts with a capital letter |
| ParserFacts.CapitalisedKept | src/services/nginx-parser.ts:113-126 | a name starting with a capital letter is its own description |
| ParserFacts.DescriptionNonEmpty | src/services/nginx-parser.ts:113-126 | only the empty name has the empty description |
| Generator.Generate | src/services/nginx-parser.ts:128-280 | every generated configuration starts with the fixed header and ends with the fixed server section |
| Text.PadEnd | src/services/nginx-parser.ts:176 | `padEnd(30)` keeps the text as its start, fills it with spaces up to 30 characters, and leaves a longer text as it is |
| EntriesBack.DescriptionComesBack | src/services/nginx-parser.ts:160 | a written comment `  # d` is read back as the description `d` when `d` stays on one line and does not start with white space |
| EntriesBack.IpEntryComesBack | src/services/nginx-parser.ts:159-162 | the line written for an IP entry is read by the `geo` line expression with exactly the entry's CIDR, value and description, when the CIDR has the key's shape, the value is digits and the description is readable |
| EntriesBack.UrlEntryLineComesBack | src/services/nginx-parser.ts:173-177 | the line written for a URL entry is read by the map line expression with the written key, the entry's value and its description, when the key is non-empty and free of quotes |
| EntriesBack.UrlKeyComesBack | src/services/nginx-parser.ts:91-99 | the entry read from a written key is `Reread` of the original: a regular expression comes back anchored once more, a plain pattern comes back unchanged unless it starts with `~`, and then as a regular expression without its `~` |
| EntriesBack.GeoBodyComesBack | src/services/nginx-parser.ts:157-162 | every IP entry written into a `geo` body is read back from it, in order, and the `default` line gives none |
| EntriesBack.MapBodyComesBack | src/services/nginx-parser.ts:171-177 | every URL entry written into a `map $host` body is read back from it, in order, as `Reread` gives it, and the `default` line gives none |
| BlocksBack.GeoTextHit | src/services/nginx-parser.ts:156-164 | the `geo` search finds the block written for a writable IP group at its keyword, with the group's name and body, and goes on after it |
| BlocksBack.MapTextHit | src/services/nginx-parser.ts:170-179 | the map search finds the block written for a writable URL group at its keyword, with source `host`, the group's name and body, and goes on after it |
| BlocksBack.IpSectionHits | src/services/nginx-parser.ts:155-165 | the `geo` search finds one block per IP group of the section, in order, and goes on after the section |
| BlocksBack.UrlBlocksHits | src/services/nginx-parser.ts:169-180 | the map search finds one block per URL group, in order, and goes on after them |
| BlocksBack.CombinedTextClosed | src/services/nginx-parser.ts:186-199 | the block written for a combined ACL whose pieces open no block holds no opening of either block expression, and no end of it can grow into one |
| RoundTrip.IpGroupsBack | src/services/nginx-parser.ts:19-42 | the blocks of writable IP groups give back their `acl_` groups, in order, under the label of their name |
| RoundTrip.UrlGroupBack | src/services/nginx-parser.ts:82-107 | the block of a writable URL group gives back the group when its name starts with `acl_`, with its entries reread, and never a combined ACL |
| RoundTrip.UrlGroupsBack | src/services/nginx-parser.ts:46-108 | the blocks of writable URL groups give back their `acl_` groups, in order, and no combined ACL |
| RoundTrip.GeoTextComesBack | src/services/nginx-parser.ts:156-164 | the block of a writable IP group alone reads back as that group, relabelled, and as nothing else; a group as the parser makes it comes back unchanged |
| RoundTrip.MapTextComesBack | src/services/nginx-parser.ts:170-179 | the block of a writable URL group alone reads back as that group, relabelled and with its entries reread, and as nothing else; a group as the parser makes it comes back unchanged |
| RoundTrip.ParseGenerate | src/services/nginx-parser.ts:128-280 | the text generated for a writable configuration reads back as its `acl_` IP and URL groups, in order, relabelled, with URL entries reread, and no combined ACL |
| RoundTrip.CanonicalComesBack | src/services/nginx-parser.ts:12-111 | a writable configuration whose groups are as the parser makes them reads back with exactly its IP and URL groups and without its combined ACLs |
| RoundTrip.CombinedNotReparsed | src/services/nginx-parser.ts:190 | no combined ACL of a writable configuration is read back from its text, and no more IP groups are read back than it holds |
| FixedText.PrefixSilent | src/services/nginx-parser.ts:129-152 | the fixed header contains no `geo` or `map` block opening |
| FixedText.FallbackSilent | src/services/nginx-parser.ts:200-218 | the three fallback maps are keyed by quoted expressions, so neither block expression reads them |
| FixedText.DenyMapSilent | src/services/nginx-parser.ts:220-226 | the denial map is keyed by a quoted expression, so neither block expression reads it |
| FixedText.SuffixSilent | src/services/nginx-parser.ts:228-277 | the fixed server section contains no `geo` or `map` block opening |
| Keywords.QuietSkip | src/services/nginx-parser.ts:19-46 | the block search passes over a stretch of text where its keyword is always followed by ` "` |
| GeneratedLint.ZeroTest | src/services/nginx-validator.ts:20 | `if ($v = 0)` is both a lint finding and a target of the parenthesised repair |
| GeneratedLint.FindingRejects | src/services/nginx-validator.ts:19-23 | a text in which the parenthesised comparison occurs fails the lint |
| GeneratedLint.GeneratedNeverValid | src/services/nginx-parser.ts:235 | no configuration the generator writes passes the lint |
| GeneratedLint.GeneratedTestsRepaired | src/services/nginx-service.ts:49-52 | a generated configuration holds `if ($v = 0)` tests, and after `fixNginxSyntaxErrors` none is left |
| GeneratedLint.CopiedUpTo | src/services/nginx-service.ts:49-52 | where no repair match starts within `a`, the repair of `a + b` is `a` followed by the repair of `b` |
| GeneratedLint.ParenFreeInert | src/services/nginx-service.ts:51 | no repair match starts within a text free of `(` that is followed by nothing or by `i` |
| GeneratedLint.TestRewritten | src/services/nginx-service.ts:51 | the repair turns `if ($v = 0)` into `if ($v != 1)` and goes on with the rest |
| GeneratedLint.TestsRewritten | src/services/nginx-service.ts:49-52 | in a text laid out as the server section, with no repair match before it, the repair turns exactly the two tests into `!= 1` and keeps every other piece |
| GeneratedLint.LocationBodyKept | src/services/nginx-parser.ts:259-275 | the repair leaves the rest of the `location` block, `(location level)` included, unchanged |
| GeneratedLint.GeneratedTestsRewritten | src/services/nginx-parser.ts:228-277 | when no repair match starts in the header or the model-dependent sections, `fixNginxSyntaxErrors` of a generated configuration keeps them and the server section, except that both tests read `if ($access_granted != 1)` |
| ServerText.LocationBodyParen | src/services/nginx-parser.ts:259-275 | the rest of the `location` block splits at the `(` of `(location level)`: no `i` comes before it and no `(` after it |
| Lint.IfEqualsAt | src/services/nginx-validator.ts:13 | an `if=$v = n` match starts with `if=$` and captures a word and digits |
| Lint.ParenEqualsAt | src/services/nginx-validator.ts:20 | an `if ($v = n)` match ends with `)` and captures a word and digits |
| Lint.ParenEqualsZeroAt | src/services/nginx-validator.ts:20 | an `if ($v = 0)` match ends with `0)` and spans no `!` |
| Lint.AccessLogIfAt | src/services/nginx-validator.ts:71 | an `access_log … if=$v = n` match starts with `a` and contains an `if=$v = n` match |
| Lint.ScanEmpty | src/services/nginx-validator.ts:15-23 | a search reports nothing exactly when its expression matches nowhere |
| Lint.ComparisonErrors | src/services/nginx-validator.ts:15-23 | one error per reported comparison, in order, naming its variable and number |
| Lint.BraceErrors | src/services/nginx-validator.ts:26-30 | there is a brace error exactly when the `{` and `}` counts differ, and it names both counts |
| Lint.LineErrorsExact | src/services/nginx-validator.ts:33-48 | line `n` is reported with its trimmed text exactly when that text lacks a semicolon by the check's rules |
| Lint.ValidParts | src/services/nginx-validator.ts:50-53 | the verdict is the conjunction of the four checks |
| Lint.ValidExactly | src/services/nginx-validator.ts:9-54 | a text passes exactly when neither comparison occurs, the braces balance, and no line lacks a semicolon |
| Lint.ReplaceAllClean | src/services/nginx-validator.ts:61-74 | a rewrite leaves a text without matches as it is |
| Lint.ZeroInParensDetected | src/services/nginx-validator.ts:20-23 | every target of the parenthesised repair is a lint finding |
| Lint.RepairsDetected | src/services/nginx-validator.ts:13-23 | where the lint finds nothing, no rewrite of `fixNginxConfig` applies |
| Lint.FixNoOp | src/services/nginx-validator.ts:61-74 | `fixNginxConfig` leaves a text alone when none of its three expressions matches |
| Lint.ValidateAndFixIsFix | src/services/nginx-validator.ts:81-91 | `validateAndFixNginxConfig` always returns what `fixNginxConfig` returns |
| Lint.FixedIsClean | src/services/nginx-service.ts:49-52 | after `fixNginxSyntaxErrors` no `if ($v = 0)` is left |
| Lint.FixSyntaxIdempotent | src/services/nginx-service.ts:49-52 | `fixNginxSyntaxErrors` is idempotent |
| Lint.ParenRepairShape | src/services/nginx-validator.ts:68 | the rewritten `if ($v != 1)` has its `!` before any `)` |
| Lint.ZeroPrefixRewritten | src/services/nginx-validator.ts:65 | `if=$v = 05` becomes `if=$v != 15`: the zero rewrite does not require the number to end |
| Lint.FixConfigNotIdempotent | src/services/nginx-validator.ts:61-74 | fixing the output of `fixNginxConfig` can change it again |
| FieldValidators.ValidateCidr | src/services/nginx-service.ts:89-116 | an accepted text has the dotted-quad shape with an optional prefix |
| FieldValidators.CidrAccepted | src/services/nginx-service.ts:89-116 | a well-shaped CIDR text is accepted exactly when every octet is at most 255 and the prefix at most 32 |
| FieldValidators.CidrDecompose | src/services/nginx-service.ts:89-116 | every accepted text is such a text, with its parts in range |
| FieldValidators.CidrTextSplits | src/services/nginx-service.ts:97-109 | a CIDR text splits at `/` into its address and prefix |
| FieldValidators.CidrAcceptsNetwork | src/services/nginx-service.ts:89-116 | `192.168.1.0/24` is accepted |
| FieldValidators.CidrAcceptsLeadingZero | src/services/nginx-service.ts:100-105 | `010.0.0.1` is accepted: leading zeros are not refused |
| FieldValidators.CidrRejectsLongPrefix | src/services/nginx-service.ts:108-113 | `192.168.1.0/33` is refused |
| FieldValidators.CidrRejectsLargeOctet | src/services/nginx-service.ts:100-105 | `999.1.1.1` is refused |
| FieldValidators.ValidateUrlPattern | src/services/nginx-service.ts:119-137 | an accepted pattern is not blank, and in regex mode it compiles |
| FieldValidators.UrlRegexMode | src/services/nginx-service.ts:124-132 | in regex mode a pattern is accepted exactly when it is not blank and compiles |
| FieldValidators.UrlLiteralMode | src/services/nginx-service.ts:136 | in literal mode a pattern is accepted exactly when it is a host name |
| FieldValidators.HostNameAccepted | src/services/nginx-service.ts:136 | labels and a final label of two or more letters, joined by dots, are accepted |
| FieldValidators.HostNameParts | src/services/nginx-service.ts:136 | every host name is its labels and final label joined by dots |
| FieldValidators.HostNameDecompose | src/services/nginx-service.ts:136 | every pattern accepted in literal mode is such a join |
| FieldValidators.WildcardRefused | src/services/nginx-service.ts:136 | `*.example.com` is refused in literal mode |
| FieldValidators.ValidateCombinedPattern | src/services/nginx-service.ts:140-159 | a `~*` pattern is accepted exactly when the rest compiles; any other exactly when it is a non-empty run of `0`, `1` and `.` |
| Editing.ReplaceKeyed | src/components/ip-acls/IpAclGroupCard.tsx:45-47 | the list keeps its length; elements with the key become the update, the others stay |
| Editing.RemoveKeyed | src/components/ip-acls/IpAclGroupCard.tsx:56-58 | no element with the key is left; every other element is kept |
| Editing.RemoveAbsent | src/components/ip-acls/IpAclGroupCard.tsx:56-58 | removing by a key changes nothing exactly when no element has that key |
| Editing.RemoveAppend | src/components/ip-acls/IpAclGroupCard.tsx:56-58 | removal works element by element, keeping order |
| Editing.RemoveTwice | src/components/ip-acls/IpAclGroupCard.tsx:56-58 | removing twice by the same key is removing once |
| Editing.AddIpEntry | src/components/ip-acls/IpAclGroupCard.tsx:27-42 | an entry is added exactly when its CIDR passes `validateCidr`; it is appended and the name and description stay |
| Editing.EditIpEntry | src/components/ip-acls/IpAclGroupCard.tsx:44-53 | every entry with the original CIDR becomes the update; the rest and the group's name stay |
| Editing.DeleteIpEntry | src/components/ip-acls/IpAclGroupCard.tsx:55-64 | exactly the entries with another CIDR remain |
| Editing.DeleteUndoesAdd | src/components/ip-acls/IpAclGroupCard.tsx:27-64 | deleting an entry just added with a new CIDR gives back the group |
| Editing.IpAbsentUnchanged | src/components/ip-acls/IpAclGroupCard.tsx:44-64 | editing or deleting by a CIDR no entry has changes nothing |
| Editing.AddCombinedRule | src/components/combined-acls/CombinedAclCard.tsx:29-44 | a rule is added exactly when `validateCombinedPattern` accepts its pattern; it is appended |
| Editing.EditCombinedRule | src/components/combined-acls/CombinedAclCard.tsx:46-55 | every rule with the original pattern becomes the update; the rest stay |
| Editing.DeleteCombinedRule | src/components/combined-acls/CombinedAclCard.tsx:57-66 | exactly the rules with another pattern remain |
| Editing.DeleteUndoesAddRule | src/components/combined-acls/CombinedAclCard.tsx:29-66 | deleting a rule just added with a new pattern gives back the ACL |
| Editing.UpdateSourceGroups | src/components/combined-acls/CombinedAclCard.tsx:71-84 | the groups are replaced exactly when at least two are selected; nothing else changes |
| Editing.ToggleGroup | src/components/combined-acls/CombinedAclCard.tsx:218-223 | checking appends the group; unchecking removes every copy of it and keeps the rest |
| Editing.ToggleBack | src/components/combined-acls/CombinedAclCard.tsx:218-223 | checking then unchecking a group that was not selected gives back the selection |
| Editing.AddAcl | src/pages/CombinedAcls.tsx:46-72 | refused for an empty name, then for a name with a space, then for a taken name, each exactly then; otherwise appended |
| Editing.UpdateAcl | src/pages/CombinedAcls.tsx:74-79 | the ACLs with the updated one's name are replaced; names, length and the others stay |
| Editing.AddKeepsNamesUnique | src/pages/CombinedAcls.tsx:46-72 | adding keeps names unique, and adding the same ACL again is refused as taken |
| Editing.UpdateKeepsNamesUnique | src/pages/CombinedAcls.tsx:74-79 | updating keeps names unique and is idempotent |
| Editing.SaveCombinedAcls | src/pages/CombinedAcls.tsx:84-88 | the saved configuration is the loaded one with its combined ACLs replaced |
| Editing.SaveIdempotent | src/pages/CombinedAcls.tsx:84-88 | saving the loaded ACLs changes nothing, and saving twice is saving once |
| Editing.SaveGroupName | src/components/url-acls/UrlAclGroupCard.tsx:20-28 | a name that is not blank is saved trimmed; a blank one is ignored; entries stay |
| Editing.SaveGroupNameStable | src/components/url-acls/UrlAclGroupCard.tsx:20-28 | saving the saved name again changes nothing |
| Editing.AddUrlRule | src/components/url-acls/UrlAclGroupCard.tsx:30-44 | a pattern that is not blank is appended trimmed, with value `1`, no description and not as a regular expression |
| Editing.SpliceOne | src/components/url-acls/UrlAclGroupCard.tsx:47-48 | `splice(start, 1)`, with JavaScript's rules for negative and too large starts |
| Editing.RemoveUrlRule | src/components/url-acls/UrlAclGroupCard.tsx:46-53 | removing at a valid index drops exactly that entry; past the end nothing changes |
| Editing.RemoveUndoesAdd | src/components/url-acls/UrlAclGroupCard.tsx:30-53 | removing the rule just added gives back the group |

## Left out

- Toasts, console output, dialog and form state: these are user-interface effects. A refusal stands for the message shown.
- `loadNginxConfig` and `saveNginxConfig`: these read and write files over HTTP. `Editing.SaveCombinedAcls` models only the merge.
- `new RegExp(p)`: this compiles with the browser's engine. It is a parameter `compiles`.
- The global expressions keep their search position between calls. Every loop in the parser runs until its search fails, and a failed search resets that position. So each call starts fresh, as the model does.
- `getGroupDescription` looks names up in a plain object. A name such as `constructor` finds an inherited property rather than a label. The model treats every name outside the eight labels as its own description.
- RoundTrip.ParseGenerate: holds for writable configurations (`RoundTrip.Writable`). Every group name is a word; every CIDR has the shape `[\d.]+(/\d+)?`; every value is digits; every URL key is non-empty, free of quotes and of `}`, starts outside white space and is not `default`; every description stays on one line, does not start with white space and holds no `}`. No piece of text the user supplies may hold `geo` or `map`, white space and `$` where the other block expression could read it, and no source group of a combined ACL may end in white space. Text outside these bounds can be read back differently by the source, and the model does not follow it.
- RoundTrip.CombinedNotReparsed: holds under the same writable bounds; a combined ACL whose name, pattern or description itself holds `map $x {…}` is read as a block by the source, and the model does not follow that case.
- GeneratedLint.GeneratedTestsRewritten: assumes that no repair match starts in the header or the model-dependent sections. A user description holding `if ($x = 0)` would be rewritten too.
- Text.PadEnd: counts Dafny characters, which are Unicode scalar values, where JavaScript's `padEnd` counts UTF-16 code units. For a URL key holding characters outside the Basic Multilingual Plane, the model writes one more space per such character than the source does.
