/** The editing handlers of the user interface: what each button does to the
    configuration data before it is written back.

    Every handler is a pure function from the data it edits (and the dialog
    input) to the edited data. A handler that shows an error, or silently
    does nothing, returns `Refused` with the reason; the dialog state the
    handlers reset afterwards is not modelled. Entries, rules and combined
    ACLs are looked up by a key: the CIDR text, the pattern, the name. */
module Editing {
  import opened Text
  import opened Types
  import opened FieldValidators

  /** Why a handler left the data as it was. `Blank` is the silent case:
      the handler returns without a message. */
  datatype Refusal = InvalidCidr | InvalidPattern | TooFewGroups | NameRequired | NameHasSpace | NameTaken | Blank

  /** The result of a handler: the edited data, or the reason it refused. */
  datatype Outcome<T> = Updated(value: T) | Refused(reason: Refusal)

  // ---------------------------------------------------------------------
  // Keyed lists: `list.map(x => key(x) === k ? y : x)` and
  // `list.filter(x => key(x) !== k)`
  // ---------------------------------------------------------------------

  /** No element of `s` has key `k`. */
  predicate KeyAbsent<T>(s: seq<T>, key: T -> string, k: string) {
    forall i :: 0 <= i < |s| ==> key(s[i]) != k
  }

  /** Every element with key `k` replaced by `x`, the others kept in place. */
  function ReplaceKeyed<T>(s: seq<T>, key: T -> string, k: string, x: T): (r: seq<T>)
    ensures |r| == |s|
    ensures forall i :: 0 <= i < |s| && key(s[i]) == k ==> r[i] == x
    ensures forall i :: 0 <= i < |s| && key(s[i]) != k ==> r[i] == s[i]
  {
    if |s| == 0 then []
    else [if key(s[0]) == k then x else s[0]] + ReplaceKeyed(s[1..], key, k, x)
  }

  /** Every element with key `k` dropped, the others kept in order. */
  function RemoveKeyed<T>(s: seq<T>, key: T -> string, k: string): (r: seq<T>)
    ensures |r| <= |s|
    ensures KeyAbsent(r, key, k)
    ensures forall i :: 0 <= i < |r| ==> r[i] in s
    ensures forall i :: 0 <= i < |s| && key(s[i]) != k ==> s[i] in r
  {
    if |s| == 0 then []
    else if key(s[0]) == k then RemoveKeyed(s[1..], key, k)
    else [s[0]] + RemoveKeyed(s[1..], key, k)
  }

  /** Replacing a key nobody has changes nothing. */
  lemma ReplaceAbsent<T>(s: seq<T>, key: T -> string, k: string, x: T)
    requires KeyAbsent(s, key, k)
    ensures ReplaceKeyed(s, key, k, x) == s
  {
  }

  /** Replacing by a value with the same key keeps every key in place, and
      doing it twice is doing it once. */
  lemma ReplaceKeepsKeys<T>(s: seq<T>, key: T -> string, k: string, x: T)
    requires key(x) == k
    ensures forall i :: 0 <= i < |s| ==> key(ReplaceKeyed(s, key, k, x)[i]) == key(s[i])
    ensures ReplaceKeyed(ReplaceKeyed(s, key, k, x), key, k, x) == ReplaceKeyed(s, key, k, x)
  {
  }

  /** Removing a key nobody has changes nothing. */
  lemma {:induction false} RemoveAbsentSame<T>(s: seq<T>, key: T -> string, k: string)
    requires KeyAbsent(s, key, k)
    ensures RemoveKeyed(s, key, k) == s
    decreases |s|
  {
    if |s| > 0 {
      assert key(s[0]) != k;
      assert KeyAbsent(s[1..], key, k) by {
        forall i | 0 <= i < |s[1..]|
          ensures key(s[1..][i]) != k
        {
          assert s[1..][i] == s[i + 1];
        }
      }
      RemoveAbsentSame(s[1..], key, k);
      assert [s[0]] + s[1..] == s;
    }
  }

  /** Removing a key changes nothing exactly when nobody has it. */
  lemma RemoveAbsent<T>(s: seq<T>, key: T -> string, k: string)
    ensures RemoveKeyed(s, key, k) == s <==> KeyAbsent(s, key, k)
  {
    if KeyAbsent(s, key, k) {
      RemoveAbsentSame(s, key, k);
    }
  }

  /** Removal works piece by piece: the kept elements stay in their order. */
  lemma {:induction false} RemoveAppend<T>(a: seq<T>, b: seq<T>, key: T -> string, k: string)
    ensures RemoveKeyed(a + b, key, k) == RemoveKeyed(a, key, k) + RemoveKeyed(b, key, k)
    decreases |a|
  {
    if |a| > 0 {
      assert (a + b)[1..] == a[1..] + b;
      RemoveAppend(a[1..], b, key, k);
    } else {
      assert a + b == b;
    }
  }

  /** Removing twice is removing once. */
  lemma RemoveTwice<T>(s: seq<T>, key: T -> string, k: string)
    ensures RemoveKeyed(RemoveKeyed(s, key, k), key, k) == RemoveKeyed(s, key, k)
  {
    RemoveAbsent(RemoveKeyed(s, key, k), key, k);
  }

  /** Removing the key of an appended element takes it off again: on a list
      without that key the list comes back. */
  lemma RemoveAppended<T>(s: seq<T>, key: T -> string, x: T)
    ensures RemoveKeyed(s + [x], key, key(x)) == RemoveKeyed(s, key, key(x))
    ensures KeyAbsent(s, key, key(x)) ==> RemoveKeyed(s + [x], key, key(x)) == s
  {
    RemoveAppend(s, [x], key, key(x));
    assert RemoveKeyed([x], key, key(x)) == [];
    RemoveAbsent(s, key, key(x));
  }

  // ---------------------------------------------------------------------
  // IpAclGroupCard
  // ---------------------------------------------------------------------

  function Cidr(e: IpAclEntry): string {
    e.cidr
  }

  /** `handleAddEntry`: the entry is appended when its CIDR text passes the
      check, and refused otherwise. */
  function AddIpEntry(g: IpAclGroup, e: IpAclEntry): (r: Outcome<IpAclGroup>)
    ensures r.Updated? <==> ValidateCidr(e.cidr)
    ensures r.Refused? ==> r.reason == InvalidCidr
    ensures r.Updated? ==> r.value.name == g.name && r.value.description == g.description
    ensures r.Updated? ==> |r.value.entries| == |g.entries| + 1 && r.value.entries[..|g.entries|] == g.entries
    ensures r.Updated? ==> r.value.entries[|g.entries|] == e
  {
    if !ValidateCidr(e.cidr) then Refused(InvalidCidr)
    else Updated(g.(entries := g.entries + [e]))
  }

  /** `handleEditEntry`: every entry with the CIDR of `original` becomes
      `updated`; the group keeps its name, description and length. */
  function EditIpEntry(g: IpAclGroup, original: IpAclEntry, updated: IpAclEntry): (r: IpAclGroup)
    ensures r.name == g.name && r.description == g.description
    ensures |r.entries| == |g.entries|
    ensures forall i :: 0 <= i < |g.entries| ==> r.entries[i] == if g.entries[i].cidr == original.cidr then updated else g.entries[i]
  {
    g.(entries := ReplaceKeyed(g.entries, Cidr, original.cidr, updated))
  }

  /** `handleDeleteEntry`: every entry with the CIDR of the deleted entry
      goes, the rest stay in order. */
  function DeleteIpEntry(g: IpAclGroup, e: IpAclEntry): (r: IpAclGroup)
    ensures r.name == g.name && r.description == g.description
    ensures forall x :: x in r.entries <==> x in g.entries && x.cidr != e.cidr
  {
    g.(entries := RemoveKeyed(g.entries, Cidr, e.cidr))
  }

  /** Deleting an entry just added, under a CIDR the group did not have,
      gives the group back. */
  lemma DeleteUndoesAdd(g: IpAclGroup, e: IpAclEntry)
    requires ValidateCidr(e.cidr) && forall x :: x in g.entries ==> x.cidr != e.cidr
    ensures DeleteIpEntry(AddIpEntry(g, e).value, e) == g
  {
    assert KeyAbsent(g.entries, Cidr, Cidr(e));
    RemoveAppended(g.entries, Cidr, e);
  }

  /** Editing or deleting an entry the group does not have changes nothing. */
  lemma IpAbsentUnchanged(g: IpAclGroup, original: IpAclEntry, updated: IpAclEntry)
    requires forall x :: x in g.entries ==> x.cidr != original.cidr
    ensures EditIpEntry(g, original, updated) == g
    ensures DeleteIpEntry(g, original) == g
  {
    assert KeyAbsent(g.entries, Cidr, original.cidr);
    ReplaceAbsent(g.entries, Cidr, original.cidr, updated);
    RemoveAbsent(g.entries, Cidr, original.cidr);
  }

  // ---------------------------------------------------------------------
  // CombinedAclCard
  // ---------------------------------------------------------------------

  function RulePattern(r: CombinedAclRule): string {
    r.pattern
  }

  /** `handleAddRule`: the rule is appended when its pattern passes the
      combined-pattern check, and refused otherwise. */
  function AddCombinedRule(acl: CombinedAcl, rule: CombinedAclRule, compiles: string -> bool): (r: Outcome<CombinedAcl>)
    ensures r.Updated? <==> ValidateCombinedPattern(rule.pattern, compiles)
    ensures r.Refused? ==> r.reason == InvalidPattern
    ensures r.Updated? ==> r.value.name == acl.name && r.value.description == acl.description && r.value.sourceGroups == acl.sourceGroups
    ensures r.Updated? ==> |r.value.rules| == |acl.rules| + 1 && r.value.rules[..|acl.rules|] == acl.rules
    ensures r.Updated? ==> r.value.rules[|acl.rules|] == rule
  {
    if !ValidateCombinedPattern(rule.pattern, compiles) then Refused(InvalidPattern)
    else Updated(acl.(rules := acl.rules + [rule]))
  }

  /** `handleEditRule`: every rule with the pattern of `original` becomes
      `updated`. */
  function EditCombinedRule(acl: CombinedAcl, original: CombinedAclRule, updated: CombinedAclRule): (r: CombinedAcl)
    ensures r.name == acl.name && r.description == acl.description && r.sourceGroups == acl.sourceGroups
    ensures |r.rules| == |acl.rules|
    ensures forall i :: 0 <= i < |acl.rules| ==> r.rules[i] == if acl.rules[i].pattern == original.pattern then updated else acl.rules[i]
  {
    acl.(rules := ReplaceKeyed(acl.rules, RulePattern, original.pattern, updated))
  }

  /** `handleDeleteRule`: every rule with the pattern of the deleted rule
      goes, the rest stay in order. */
  function DeleteCombinedRule(acl: CombinedAcl, rule: CombinedAclRule): (r: CombinedAcl)
    ensures r.name == acl.name && r.description == acl.description && r.sourceGroups == acl.sourceGroups
    ensures forall x :: x in r.rules <==> x in acl.rules && x.pattern != rule.pattern
  {
    acl.(rules := RemoveKeyed(acl.rules, RulePattern, rule.pattern))
  }

  /** Deleting a rule just added, under a pattern the ACL did not have,
      gives the ACL back; deleting or editing an absent pattern changes
      nothing. */
  lemma DeleteUndoesAddRule(acl: CombinedAcl, rule: CombinedAclRule, compiles: string -> bool)
    requires ValidateCombinedPattern(rule.pattern, compiles)
    requires forall x :: x in acl.rules ==> x.pattern != rule.pattern
    ensures DeleteCombinedRule(AddCombinedRule(acl, rule, compiles).value, rule) == acl
    ensures DeleteCombinedRule(acl, rule) == acl
    ensures EditCombinedRule(acl, rule, rule) == acl
  {
    assert KeyAbsent(acl.rules, RulePattern, RulePattern(rule));
    RemoveAppended(acl.rules, RulePattern, rule);
    RemoveAbsent(acl.rules, RulePattern, rule.pattern);
    ReplaceAbsent(acl.rules, RulePattern, rule.pattern, rule);
  }

  /** `handleUpdateGroups`: the chosen groups, in the order they were
      chosen, replace the source groups; fewer than two are refused. */
  function UpdateSourceGroups(acl: CombinedAcl, selected: seq<string>): (r: Outcome<CombinedAcl>)
    ensures r.Updated? <==> |selected| >= 2
    ensures r.Refused? ==> r.reason == TooFewGroups
    ensures r.Updated? ==> r.value == CombinedAcl(acl.name, acl.description, selected, acl.rules)
  {
    if |selected| < 2 then Refused(TooFewGroups)
    else Updated(acl.(sourceGroups := selected))
  }

  function Same(s: string): string {
    s
  }

  /** The group check box: ticking appends the group's name, unticking
      drops every occurrence of it. */
  function ToggleGroup(selected: seq<string>, name: string, checked: bool): (r: seq<string>)
    ensures checked ==> r == selected + [name]
    ensures !checked ==> name !in r && forall g :: g in r <==> g in selected && g != name
  {
    if checked then selected + [name] else RemoveKeyed(selected, Same, name)
  }

  /** Ticking and then unticking a box drops the group altogether; on a
      selection without the group, it is the selection again. */
  lemma ToggleBack(selected: seq<string>, name: string)
    ensures ToggleGroup(ToggleGroup(selected, name, true), name, false) == ToggleGroup(selected, name, false)
    ensures name !in selected ==> ToggleGroup(ToggleGroup(selected, name, true), name, false) == selected
  {
    assert Same(name) == name;
    RemoveAppended(selected, Same, name);
  }

  // ---------------------------------------------------------------------
  // The combined ACL page
  // ---------------------------------------------------------------------

  function AclName(a: CombinedAcl): string {
    a.name
  }

  /** No two combined ACLs share a name. */
  predicate NamesUnique(acls: seq<CombinedAcl>) {
    forall i, j :: 0 <= i < j < |acls| ==> acls[i].name != acls[j].name
  }

  /** `handleAddAcl`: a new combined ACL needs a name, without a space, that
      no combined ACL has yet; it is then appended. The refusals are tried
      in that order. */
  function AddAcl(acls: seq<CombinedAcl>, acl: CombinedAcl): (r: Outcome<seq<CombinedAcl>>)
    ensures r == Refused(NameRequired) <==> acl.name == ""
    ensures r == Refused(NameHasSpace) <==> acl.name != "" && ' ' in acl.name
    ensures r == Refused(NameTaken) <==> acl.name != "" && ' ' !in acl.name && !KeyAbsent(acls, AclName, acl.name)
    ensures r.Updated? ==> r.value == acls + [acl]
  {
    if acl.name == "" then Refused(NameRequired)
    else if ' ' in acl.name then Refused(NameHasSpace)
    else if exists i :: 0 <= i < |acls| && acls[i].name == acl.name then Refused(NameTaken)
    else Updated(acls + [acl])
  }

  /** `handleUpdateAcl`: the combined ACL with the updated ACL's name is
      replaced by it; the names, and so their order, stay as they were. */
  function UpdateAcl(acls: seq<CombinedAcl>, updated: CombinedAcl): (r: seq<CombinedAcl>)
    ensures |r| == |acls|
    ensures forall i :: 0 <= i < |acls| ==> r[i].name == acls[i].name
    ensures forall i :: 0 <= i < |acls| && acls[i].name == updated.name ==> r[i] == updated
    ensures forall i :: 0 <= i < |acls| && acls[i].name != updated.name ==> r[i] == acls[i]
  {
    ReplaceKeyed(acls, AclName, updated.name, updated)
  }

  /** Adding keeps the names unique, and adding the same name twice is
      refused the second time. */
  lemma AddKeepsNamesUnique(acls: seq<CombinedAcl>, acl: CombinedAcl)
    requires NamesUnique(acls) && AddAcl(acls, acl).Updated?
    ensures NamesUnique(AddAcl(acls, acl).value)
    ensures AddAcl(AddAcl(acls, acl).value, acl) == Refused(NameTaken)
  {
    var r := acls + [acl];
    assert r[|acls|].name == acl.name;
  }

  /** Updating keeps the names unique, and updating with the same ACL again
      changes nothing more. */
  lemma UpdateKeepsNamesUnique(acls: seq<CombinedAcl>, updated: CombinedAcl)
    requires NamesUnique(acls)
    ensures NamesUnique(UpdateAcl(acls, updated))
    ensures UpdateAcl(UpdateAcl(acls, updated), updated) == UpdateAcl(acls, updated)
  {
    ReplaceKeepsKeys(acls, AclName, updated.name, updated);
  }

  /** `handleSaveConfig`: the configuration is loaded afresh and only its
      combined ACLs are replaced by the page's list before it is saved. */
  function SaveCombinedAcls(loaded: NginxConfig, acls: seq<CombinedAcl>): (r: NginxConfig)
    ensures r.ipAclGroups == loaded.ipAclGroups && r.urlAclGroups == loaded.urlAclGroups
    ensures r.combinedAcls == acls
  {
    loaded.(combinedAcls := acls)
  }

  /** Saving what was loaded gives the loaded configuration, and a second
      save of the same list changes nothing more. */
  lemma SaveIdempotent(loaded: NginxConfig, acls: seq<CombinedAcl>)
    ensures SaveCombinedAcls(loaded, loaded.combinedAcls) == loaded
    ensures SaveCombinedAcls(SaveCombinedAcls(loaded, acls), acls) == SaveCombinedAcls(loaded, acls)
  {
  }

  // ---------------------------------------------------------------------
  // UrlAclGroupCard
  // ---------------------------------------------------------------------

  /** `handleSaveGroupName`: the trimmed name replaces the group's name; a
      blank name is ignored. */
  function SaveGroupName(g: UrlAclGroup, edited: string): (r: Outcome<UrlAclGroup>)
    ensures r.Updated? <==> !All(edited, IsSpace)
    ensures r.Refused? ==> r.reason == Blank
    ensures r.Updated? ==> r.value.name == Trim(edited) && r.value.description == g.description && r.value.entries == g.entries
    ensures r.Updated? ==> |r.value.name| > 0 && !IsSpace(r.value.name[0]) && !IsSpace(r.value.name[|r.value.name| - 1])
  {
    var name := Trim(edited);
    if name == "" then Refused(Blank) else Updated(g.(name := name))
  }

  /** Saving the saved name again changes nothing. */
  lemma SaveGroupNameStable(g: UrlAclGroup, edited: string)
    requires SaveGroupName(g, edited).Updated?
    ensures SaveGroupName(SaveGroupName(g, edited).value, edited) == SaveGroupName(g, edited)
    ensures SaveGroupName(g, SaveGroupName(g, edited).value.name) == SaveGroupName(g, edited)
  {
    TrimTrimmed(edited);
  }

  /** `handleAddRule`: a non-blank pattern is appended, trimmed, as a plain
      (non-regex) entry with value `1` and no description. */
  function AddUrlRule(g: UrlAclGroup, pattern: string): (r: Outcome<UrlAclGroup>)
    ensures r.Updated? <==> !All(pattern, IsSpace)
    ensures r.Refused? ==> r.reason == Blank
    ensures r.Updated? ==> r.value.name == g.name && r.value.description == g.description
    ensures r.Updated? ==> r.value.entries == g.entries + [UrlAclEntry(Trim(pattern), "1", "", false)]
  {
    var p := Trim(pattern);
    if p == "" then Refused(Blank)
    else Updated(g.(entries := g.entries + [UrlAclEntry(p, "1", "", false)]))
  }

  /** `Array.prototype.splice(start, 1)`: a negative start counts from the
      end, a start past the end removes nothing. */
  function SpliceOne<T>(s: seq<T>, start: int): (r: seq<T>)
    ensures 0 <= start < |s| ==> r == s[..start] + s[start + 1..]
    ensures -|s| <= start < 0 ==> r == s[..|s| + start] + s[|s| + start + 1..]
    ensures start >= |s| || (|s| == 0 && start < 0) ==> r == s
    ensures |s| > 0 && start < -|s| ==> r == s[1..]
    ensures 0 <= start < |s| ==> multiset(r) + multiset{s[start]} == multiset(s)
  {
    var i := if start < 0 then (if |s| + start < 0 then 0 else |s| + start) else (if start > |s| then |s| else start);
    if i < |s| then
      assert s == s[..i] + [s[i]] + s[i + 1..];
      s[..i] + s[i + 1..]
    else
      s
  }

  /** `handleRemoveRule`: the entry at `index` is removed. */
  function RemoveUrlRule(g: UrlAclGroup, index: int): (r: UrlAclGroup)
    ensures r.name == g.name && r.description == g.description
    ensures 0 <= index < |g.entries| ==> |r.entries| == |g.entries| - 1
    ensures 0 <= index < |g.entries| ==> multiset(r.entries) + multiset{g.entries[index]} == multiset(g.entries)
    ensures index >= |g.entries| ==> r == g
  {
    g.(entries := SpliceOne(g.entries, index))
  }

  /** Removing the rule just added gives the group back. */
  lemma RemoveUndoesAdd(g: UrlAclGroup, pattern: string)
    requires AddUrlRule(g, pattern).Updated?
    ensures RemoveUrlRule(AddUrlRule(g, pattern).value, |g.entries|) == g
  {
    var s := g.entries + [UrlAclEntry(Trim(pattern), "1", "", false)];
    assert s[..|g.entries|] == g.entries;
  }
}
