/** What `parseNginxConfig` reads back from what `generateNginxConfig` writes.

    The search for `geo` blocks meets the block of every IP group and nothing
    else; the search for `map` blocks meets the `map $host` block of every URL
    group and nothing else. What the parser then makes of those blocks differs
    from the configuration in three ways:

    - only groups whose variable starts with `acl_` are kept, and each gets
      the label `getGroupDescription` gives its variable, not its own
      description;
    - a regular-expression URL entry is written under the key `~^p$` and is
      read back with the pattern `^p$`, so the anchors are added again on
      every save (`EntriesBack.Reread`);
    - a combined ACL is written as `map "$a$b" $name`, and the map expression
      wants `$` right after `map` and its white space, so no combined ACL is
      ever read back.

    All of this holds for a configuration whose text the user typed cannot
    open or close blocks of its own (`Writable`). */
module RoundTrip {
  import opened Text
  import opened Types
  import opened Search
  import opened Parser
  import opened Generator
  import opened Keywords
  import opened FixedText
  import opened EntriesBack
  import opened BlocksBack

  // ---------------------------------------------------------------------
  // What comes back
  // ---------------------------------------------------------------------

  /** What is read back of one IP group: the group, under the label of its
      variable, when its variable starts with `acl_`; nothing otherwise. */
  function IpKept(g: IpAclGroup): (r: seq<IpAclGroup>)
    ensures |r| <= 1
  {
    if StartsWith(g.name, "acl_") then [IpAclGroup(g.name, GroupDescription(g.name), g.entries)] else []
  }

  /** The IP groups read back, in order. */
  function IpBack(gs: seq<IpAclGroup>): (r: seq<IpAclGroup>)
    ensures |r| <= |gs|
  {
    if |gs| == 0 then [] else IpKept(gs[0]) + IpBack(gs[1..])
  }

  /** What is read back of one URL group: as for IP groups, with its entries
      as `Reread` gives them. */
  function UrlKept(g: UrlAclGroup): (r: seq<UrlAclGroup>)
    ensures |r| <= 1
  {
    if StartsWith(g.name, "acl_") then [UrlAclGroup(g.name, GroupDescription(g.name), Rereads(g.entries))] else []
  }

  /** The URL groups read back, in order. */
  function UrlBack(gs: seq<UrlAclGroup>): (r: seq<UrlAclGroup>)
    ensures |r| <= |gs|
  {
    if |gs| == 0 then [] else UrlKept(gs[0]) + UrlBack(gs[1..])
  }

  /** A configuration whose every group and combined ACL is written in a form
      the parser reads back whole (see `BlocksBack`). */
  predicate Writable(c: NginxConfig) {
    (forall k :: 0 <= k < |c.ipAclGroups| ==> GeoWritable(c.ipAclGroups[k]))
    && (forall k :: 0 <= k < |c.urlAclGroups| ==> MapWritable(c.urlAclGroups[k]))
    && (forall k :: 0 <= k < |c.combinedAcls| ==> CombinedWritable(c.combinedAcls[k]))
  }

  /** An IP group as the parser would have made it. */
  predicate CanonicalIp(g: IpAclGroup) {
    StartsWith(g.name, "acl_") && g.description == GroupDescription(g.name)
  }

  /** A URL group as the parser would have made it: its entries are plain
      patterns that do not start with `~`. */
  predicate CanonicalUrl(g: UrlAclGroup) {
    StartsWith(g.name, "acl_") && g.description == GroupDescription(g.name)
    && forall k :: 0 <= k < |g.entries| ==> !g.entries[k].isRegex && !StartsWith(g.entries[k].pattern, "~")
  }

  /** Every group of a configuration is as the parser would have made it. */
  predicate Canonical(c: NginxConfig) {
    (forall k :: 0 <= k < |c.ipAclGroups| ==> CanonicalIp(c.ipAclGroups[k]))
    && (forall k :: 0 <= k < |c.urlAclGroups| ==> CanonicalUrl(c.urlAclGroups[k]))
  }

  // ---------------------------------------------------------------------
  // From blocks to groups
  // ---------------------------------------------------------------------

  /** The `geo` blocks of writable IP groups give back `IpBack`. */
  lemma {:induction false} IpGroupsBack(gs: seq<IpAclGroup>)
    requires forall k :: 0 <= k < |gs| ==> GeoWritable(gs[k])
    ensures IpGroups(GeoBlocksOf(gs)) == IpBack(gs)
    decreases |gs|
  {
    if |gs| > 0 {
      var g := gs[0];
      assert GeoBlocksOf(gs)[0] == GeoBlock(g);
      assert GeoBlocksOf(gs)[1..] == GeoBlocksOf(gs[1..]);
      GeoBodyComesBack(g.entries);
      IpGroupsBack(gs[1..]);
    }
  }

  /** No `map $host` block is a combined map. */
  lemma HostNotCombined(g: UrlAclGroup)
    ensures !IsCombined(MapBlock(g))
  {
    assert '$' !in "host";
  }

  /** The `map $host` block of one writable URL group gives what `UrlBack`
      keeps of it, and no combined ACL. */
  lemma UrlGroupBack(g: UrlAclGroup)
    requires MapWritable(g)
    ensures UrlGroupOf(MapBlock(g)) == UrlKept(g)
    ensures CombinedAclOf(MapBlock(g)) == []
  {
    HostNotCombined(g);
    MapBodyComesBack(g.entries);
  }

  /** The `map $host` blocks of writable URL groups give back `UrlBack` and no
      combined ACL. */
  lemma {:induction false} UrlGroupsBack(gs: seq<UrlAclGroup>)
    requires forall k :: 0 <= k < |gs| ==> MapWritable(gs[k])
    ensures UrlGroups(MapBlocksOf(gs)) == UrlBack(gs)
    ensures CombinedAcls(MapBlocksOf(gs)) == []
    decreases |gs|
  {
    if |gs| > 0 {
      var g := gs[0];
      var bs := MapBlocksOf(gs);
      assert bs[0] == MapBlock(g);
      assert bs[1..] == MapBlocksOf(gs[1..]);
      UrlGroupBack(g);
      UrlGroupsBack(gs[1..]);
    }
  }

  // ---------------------------------------------------------------------
  // The generated text, piece by piece
  // ---------------------------------------------------------------------

  function UrlHeader(): string {
    "    # URL-based ACL Groups\n"
  }

  /** A closed piece that no end of can grow into an opening, in front of
      closed text. */
  lemma ClosedPrepend(x: string, r: string)
    requires Closed(x) && Shut(x) && Closed(r)
    ensures Closed(x + r)
  {
    Prepend(x, r, "geo");
    Prepend(x, r, "map");
  }

  lemma {:induction false} CombinedBlocksClosed(acls: seq<CombinedAcl>, r: string)
    requires forall k :: 0 <= k < |acls| ==> CombinedWritable(acls[k])
    requires Closed(r)
    ensures Closed(CombinedBlocks(acls) + r)
    decreases |acls|
  {
    if |acls| == 0 {
      assert CombinedBlocks(acls) + r == r;
    } else {
      CombinedBlocksClosed(acls[1..], r);
      CombinedTextClosed(acls[0]);
      ClosedPrepend(CombinedText(acls[0]), CombinedBlocks(acls[1..]) + r);
      Regroup(CombinedText(acls[0]), CombinedBlocks(acls[1..]), r);
    }
  }

  /** The combined section opens no block of either kind, nor does it with
      closed text after it. */
  lemma ClosingClosed(acls: seq<CombinedAcl>, ds: string)
    requires forall k :: 0 <= k < |acls| ==> CombinedWritable(acls[k])
    requires Closed(ds)
    ensures Closed(CombinedSection(acls) + ds)
  {
    BodyClosed(acls, ds);
    CombinedHeaderShut();
    ClosedThree(CombinedHeader(), CombinedBody(acls), ds);
  }

  /** What the combined section holds after its header. */
  function CombinedBody(acls: seq<CombinedAcl>): string {
    if |acls| > 0 then CombinedBlocks(acls) else Fallback()
  }

  lemma BodyClosed(acls: seq<CombinedAcl>, ds: string)
    requires forall k :: 0 <= k < |acls| ==> CombinedWritable(acls[k])
    requires Closed(ds)
    ensures Closed(CombinedBody(acls) + ds)
  {
    if |acls| > 0 {
      CombinedBlocksClosed(acls, ds);
    } else {
      FallbackShut();
      ClosedPrepend(Fallback(), ds);
    }
  }

  lemma ClosedThree(h: string, body: string, ds: string)
    requires Closed(h) && Shut(h) && Closed(body + ds)
    ensures Closed(h + body + ds)
  {
    ClosedPrepend(h, body + ds);
    Regroup(h, body, ds);
  }

  function CombinedHeader(): string {
    "    # Combined ACL Logic\n"
  }

  lemma CombinedHeaderShut()
    ensures Closed(CombinedHeader()) && Shut(CombinedHeader())
  {
    CombinedHeaderSilent();
    SilentShut(CombinedHeader());
  }

  lemma UrlHeaderShut()
    ensures Closed(UrlHeader()) && Shut(UrlHeader())
  {
    UrlHeaderSilent();
    SilentShut(UrlHeader());
  }

  lemma PrefixShut()
    ensures Closed(Prefix()) && Shut(Prefix())
  {
    PrefixSilent();
    SilentShut(Prefix());
  }

  lemma FallbackShut()
    ensures Closed(Fallback()) && Shut(Fallback())
  {
    FallbackSilent();
    SilentShut(Fallback());
  }

  lemma DenySuffixClosed()
    ensures Closed(DenyMap() + Suffix())
  {
    DenyMapSilent();
    SuffixSilent();
    SilentShut(DenyMap());
    SilentShut(Suffix());
    ClosedPrepend(DenyMap(), Suffix());
  }

  /** The IP groups in front of text that opens no `map` block. */
  lemma {:induction false} GeoTextsFollow(gs: seq<IpAclGroup>, r: string)
    requires forall k :: 0 <= k < |gs| ==> GeoWritable(gs[k])
    requires Unopened(r, "map")
    ensures Unopened(IpSection(gs) + r, "map")
    decreases |gs|
  {
    if |gs| == 0 {
      assert IpSection(gs) + r == r;
    } else {
      GeoTextsFollow(gs[1..], r);
      GeoTextUnopened(gs[0]);
      Prepend(GeoText(gs[0]), IpSection(gs[1..]) + r, "map");
      Regroup(GeoText(gs[0]), IpSection(gs[1..]), r);
    }
  }

  /** The URL groups in front of text that opens no `geo` block. */
  lemma {:induction false} MapTextsFollow(gs: seq<UrlAclGroup>, r: string)
    requires forall k :: 0 <= k < |gs| ==> MapWritable(gs[k])
    requires Unopened(r, "geo")
    ensures Unopened(UrlBlocks(gs) + r, "geo")
    decreases |gs|
  {
    if |gs| == 0 {
      assert UrlBlocks(gs) + r == r;
    } else {
      MapTextsFollow(gs[1..], r);
      MapTextUnopened(gs[0]);
      Prepend(MapText(gs[0]), UrlBlocks(gs[1..]) + r, "geo");
      Regroup(MapText(gs[0]), UrlBlocks(gs[1..]), r);
    }
  }

  /** The header of the URL groups starts with white space and `#`. */
  lemma HeaderStops()
    ensures Stops(UrlHeader(), "map")
  {
    var h := UrlHeader();
    assert h[0] == ' ' && h[1] == ' ' && h[2] == ' ' && h[3] == ' ' && h[4] == '#';
  }

  /** What comes before the URL groups opens no `map` block, and no end of it
      can grow into one. */
  lemma HeadClosed(pre: string, gs: seq<IpAclGroup>)
    requires forall k :: 0 <= k < |gs| ==> GeoWritable(gs[k])
    requires Closed(pre) && Shut(pre)
    ensures Unopened(pre + (IpSection(gs) + UrlHeader()), "map")
    ensures Sealed(pre + (IpSection(gs) + UrlHeader()), "map")
  {
    UrlHeaderShut();
    GeoTextsFollow(gs, UrlHeader());
    Prepend(pre, IpSection(gs) + UrlHeader(), "map");
    HeaderStops();
    SealedJoin(pre + IpSection(gs), UrlHeader(), "map");
    Regroup(pre, IpSection(gs), UrlHeader());
  }

  // ---------------------------------------------------------------------
  // The two searches
  // ---------------------------------------------------------------------

  /** Where the three parts of `head + (mid + rest)` lie. */
  lemma ThreeParts(t: string, head: string, mid: string, rest: string) returns (p1: nat, p2: nat)
    requires t == head + (mid + rest)
    ensures p1 == |head| && p2 == p1 + |mid| && p2 <= |t|
    ensures t[0..p1] == head && t[p1..p2] == mid && t[p2..] == rest
  {
    p1 := |head|;
    p2 := p1 + |mid|;
    assert t[0..p1] == head;
    assert t[p1..p2] == mid;
    assert t[p2..] == rest;
  }

  /** A text made of a head that opens no `geo` block, the IP groups, and a
      rest that opens none, holds the blocks of the IP groups. */
  lemma GeoSearch(t: string, head: string, gs: seq<IpAclGroup>, rest: string)
    requires forall k :: 0 <= k < |gs| ==> GeoWritable(gs[k])
    requires t == head + (IpSection(gs) + rest)
    requires Unopened(head, "geo") && Sealed(head, "geo") && Unopened(rest, "geo")
    ensures GeoBlocks(t) == GeoBlocksOf(gs)
  {
    var p1, p2 := ThreeParts(t, head, IpSection(gs), rest);
    GeoFind(t, head, gs, p1, p2);
  }

  lemma GeoFind(t: string, head: string, gs: seq<IpAclGroup>, p1: nat, p2: nat)
    requires forall k :: 0 <= k < |gs| ==> GeoWritable(gs[k])
    requires p1 == |head| && p2 == p1 + |IpSection(gs)| && p2 <= |t|
    requires t[0..p1] == head && t[p1..p2] == IpSection(gs) && Unopened(t[p2..], "geo")
    requires Unopened(head, "geo") && Sealed(head, "geo")
    ensures GeoBlocks(t) == GeoBlocksOf(gs)
  {
    SealedSkip(GeoBlockAt, "geo", t, head, 0);
    assert 0 + |head| == p1;
    IpSectionHits(t, p1, gs, p2);
    UnopenedFindsNothing(GeoBlockAt, "geo", t, p2);
    var none: seq<Hit<Block>> := [];
    assert Items(none) == [];
    assert GeoBlocksOf(gs) + [] == GeoBlocksOf(gs);
  }

  /** A text made of a head that opens no `map` block, the URL groups, and a
      rest that opens none, holds the blocks of the URL groups. */
  lemma MapSearch(t: string, head: string, gs: seq<UrlAclGroup>, rest: string)
    requires forall k :: 0 <= k < |gs| ==> MapWritable(gs[k])
    requires t == head + (UrlBlocks(gs) + rest)
    requires Unopened(head, "map") && Sealed(head, "map") && Unopened(rest, "map")
    ensures MapBlocks(t) == MapBlocksOf(gs)
  {
    var p1, p2 := ThreeParts(t, head, UrlBlocks(gs), rest);
    MapFind(t, head, gs, p1, p2);
  }

  lemma MapFind(t: string, head: string, gs: seq<UrlAclGroup>, p1: nat, p2: nat)
    requires forall k :: 0 <= k < |gs| ==> MapWritable(gs[k])
    requires p1 == |head| && p2 == p1 + |UrlBlocks(gs)| && p2 <= |t|
    requires t[0..p1] == head && t[p1..p2] == UrlBlocks(gs) && Unopened(t[p2..], "map")
    requires Unopened(head, "map") && Sealed(head, "map")
    ensures MapBlocks(t) == MapBlocksOf(gs)
  {
    SealedSkip(MapBlockAt, "map", t, head, 0);
    assert 0 + |head| == p1;
    UrlBlocksHits(t, p1, gs, p2);
    UnopenedFindsNothing(MapBlockAt, "map", t, p2);
    var none: seq<Hit<Block>> := [];
    assert Items(none) == [];
    assert MapBlocksOf(gs) + [] == MapBlocksOf(gs);
  }

  /** The text of the configuration between a closed head and a closed end,
      as the generator lays it out. */
  predicate Framed(t: string, c: NginxConfig, pre: string, cl: string) {
    t == pre + (IpSection(c.ipAclGroups) + (UrlHeader() + (UrlBlocks(c.urlAclGroups) + cl)))
    && Closed(pre) && Shut(pre) && Closed(cl)
  }

  /** The `geo` blocks of a framed text are those of its IP groups. */
  lemma FramedGeoBlocks(t: string, c: NginxConfig, pre: string, cl: string)
    requires Writable(c) && Framed(t, c, pre, cl)
    ensures GeoBlocks(t) == GeoBlocksOf(c.ipAclGroups)
  {
    var rest := UrlHeader() + (UrlBlocks(c.urlAclGroups) + cl);
    MapTextsFollow(c.urlAclGroups, cl);
    UrlHeaderShut();
    Prepend(UrlHeader(), UrlBlocks(c.urlAclGroups) + cl, "geo");
    GeoSearch(t, pre, c.ipAclGroups, rest);
  }

  /** The `map` blocks of a framed text are those of its URL groups. */
  lemma FramedMapBlocks(t: string, c: NginxConfig, pre: string, cl: string)
    requires Writable(c) && Framed(t, c, pre, cl)
    ensures MapBlocks(t) == MapBlocksOf(c.urlAclGroups)
  {
    var ip := IpSection(c.ipAclGroups);
    var x := UrlBlocks(c.urlAclGroups) + cl;
    Regroup(ip, UrlHeader(), x);
    Regroup(pre, ip + UrlHeader(), x);
    HeadClosed(pre, c.ipAclGroups);
    MapSearch(t, pre + (ip + UrlHeader()), c.urlAclGroups, cl);
  }

  /** What the parser reads back from a framed text. */
  lemma ParseFramed(t: string, c: NginxConfig, pre: string, cl: string)
    requires Writable(c) && Framed(t, c, pre, cl)
    ensures Parse(t) == NginxConfig(IpBack(c.ipAclGroups), UrlBack(c.urlAclGroups), [])
  {
    FramedGeoBlocks(t, c, pre, cl);
    FramedMapBlocks(t, c, pre, cl);
    IpGroupsBack(c.ipAclGroups);
    UrlGroupsBack(c.urlAclGroups);
  }

  /** A text laid out as the generator lays it out, between a closed head
      `pre` and a closed end `dm + post`. */
  lemma ParseWith(c: NginxConfig, pre: string, dm: string, post: string)
    requires Writable(c) && Closed(pre) && Shut(pre) && Closed(dm + post)
    ensures Parse(pre + (IpSection(c.ipAclGroups) + UrlSection(c.urlAclGroups) + CombinedSection(c.combinedAcls) + dm) + post)
            == NginxConfig(IpBack(c.ipAclGroups), UrlBack(c.urlAclGroups), [])
  {
    var cl := CombinedSection(c.combinedAcls) + (dm + post);
    ClosingClosed(c.combinedAcls, dm + post);
    Layout(pre, IpSection(c.ipAclGroups), UrlBlocks(c.urlAclGroups), CombinedSection(c.combinedAcls), dm, post);
    ParseFramed(pre + (IpSection(c.ipAclGroups) + UrlSection(c.urlAclGroups) + CombinedSection(c.combinedAcls) + dm) + post, c, pre, cl);
  }

  /** The generated layout, grouped from the right around its two sections
      of blocks. */
  lemma Layout(pre: string, ip: string, ub: string, cs: string, dm: string, post: string)
    ensures pre + (ip + (UrlHeader() + ub) + cs + dm) + post == pre + (ip + (UrlHeader() + (ub + (cs + (dm + post)))))
  {
    var x := cs + (dm + post);
    var us := UrlHeader() + ub;
    Regroup(UrlHeader(), ub, x);
    Regroup(ip, us, x);
    Regroup(ip + us, cs, dm + post);
    Regroup(ip + us + cs, dm, post);
    Regroup(pre, ip + us + cs + dm, post);
  }

  /** What the parser reads back from the generated text of a writable
      configuration: the `acl_` groups, relabelled, with their URL entries
      as `Reread` gives them, and no combined ACL. */
  lemma ParseGenerate(c: NginxConfig)
    requires Writable(c)
    ensures Parse(Generate(c)) == NginxConfig(IpBack(c.ipAclGroups), UrlBack(c.urlAclGroups), [])
  {
    PrefixShut();
    DenySuffixClosed();
    ParseWith(c, Prefix(), DenyMap(), Suffix());
  }

  /** Combined ACLs are written in a form the parser never reads. */
  lemma CombinedNotReparsed(c: NginxConfig)
    requires Writable(c)
    ensures Parse(Generate(c)).combinedAcls == []
    ensures |Parse(Generate(c)).ipAclGroups| <= |c.ipAclGroups|
  {
    ParseGenerate(c);
  }

  lemma {:induction false} IpBackCanonical(gs: seq<IpAclGroup>)
    requires forall k :: 0 <= k < |gs| ==> CanonicalIp(gs[k])
    ensures IpBack(gs) == gs
    decreases |gs|
  {
    if |gs| > 0 {
      IpBackCanonical(gs[1..]);
      assert gs == [gs[0]] + gs[1..];
    }
  }

  /** Plain patterns that do not start with `~` are read back as they are. */
  lemma {:induction false} RereadsPlain(es: seq<UrlAclEntry>)
    requires forall k :: 0 <= k < |es| ==> !es[k].isRegex && !StartsWith(es[k].pattern, "~")
    ensures Rereads(es) == es
    decreases |es|
  {
    if |es| > 0 {
      RereadsPlain(es[1..]);
      assert es == [es[0]] + es[1..];
    }
  }

  lemma {:induction false} UrlBackCanonical(gs: seq<UrlAclGroup>)
    requires forall k :: 0 <= k < |gs| ==> CanonicalUrl(gs[k])
    ensures UrlBack(gs) == gs
    decreases |gs|
  {
    if |gs| > 0 {
      RereadsPlain(gs[0].entries);
      UrlBackCanonical(gs[1..]);
      assert gs == [gs[0]] + gs[1..];
    }
  }

  /** The groups of a writable configuration that the parser would have
      made itself come back unchanged; its combined ACLs do not come back. */
  lemma CanonicalComesBack(c: NginxConfig)
    requires Writable(c)
    requires Canonical(c)
    ensures Parse(Generate(c)) == NginxConfig(c.ipAclGroups, c.urlAclGroups, [])
  {
    CanonicalBack(c);
    ParseGenerate(c);
  }

  /** `IpBack` and `UrlBack` keep groups the parser would have made itself. */
  lemma CanonicalBack(c: NginxConfig)
    requires Canonical(c)
    ensures IpBack(c.ipAclGroups) == c.ipAclGroups && UrlBack(c.urlAclGroups) == c.urlAclGroups
  {
    IpBackCanonical(c.ipAclGroups);
    UrlBackCanonical(c.urlAclGroups);
  }

  /** The `geo` block of a writable IP group, alone, is found as one block,
      and no `map` block is found in it. */
  lemma GeoTextBlocks(g: IpAclGroup)
    requires GeoWritable(g)
    ensures GeoBlocks(GeoText(g)) == [GeoBlock(g)] && MapBlocks(GeoText(g)) == []
  {
    GeoTextFound(g);
    GeoTextNoMap(g);
  }

  /** The `geo` block of a writable IP group, alone, is found as one block. */
  lemma GeoTextFound(g: IpAclGroup)
    requires GeoWritable(g)
    ensures GeoBlocks(GeoText(g)) == [GeoBlock(g)]
  {
    var t := GeoText(g);
    assert t == "" + (IpSection([g]) + "");
    LetterFree("", "geo");
    GeoSearch(t, "", [g], "");
  }

  /** No `map` block is found in the `geo` block of a writable IP group. */
  lemma GeoTextNoMap(g: IpAclGroup)
    requires GeoWritable(g)
    ensures MapBlocks(GeoText(g)) == []
  {
    var t := GeoText(g);
    GeoTextUnopened(g);
    assert t[0..] == t;
    UnopenedFindsNothing(MapBlockAt, "map", t, 0);
  }

  /** The `map $host` block of a writable URL group, alone, is found as one
      block, and no `geo` block is found in it. */
  lemma MapTextBlocks(g: UrlAclGroup)
    requires MapWritable(g)
    ensures MapBlocks(MapText(g)) == [MapBlock(g)] && GeoBlocks(MapText(g)) == []
  {
    MapTextFound(g);
    MapTextNoGeo(g);
  }

  /** The `map $host` block of a writable URL group, alone, is found as one
      block. */
  lemma MapTextFound(g: UrlAclGroup)
    requires MapWritable(g)
    ensures MapBlocks(MapText(g)) == [MapBlock(g)]
  {
    var t := MapText(g);
    assert t == "" + (UrlBlocks([g]) + "");
    LetterFree("", "map");
    MapSearch(t, "", [g], "");
  }

  /** No `geo` block is found in the `map $host` block of a writable URL
      group. */
  lemma MapTextNoGeo(g: UrlAclGroup)
    requires MapWritable(g)
    ensures GeoBlocks(MapText(g)) == []
  {
    var t := MapText(g);
    MapTextUnopened(g);
    assert t[0..] == t;
    UnopenedFindsNothing(GeoBlockAt, "geo", t, 0);
  }

  /** A text holding one `geo` block and no `map` block reads as the group
      of that block. */
  lemma OneGeoParse(t: string, b: Block)
    requires GeoBlocks(t) == [b] && MapBlocks(t) == []
    ensures Parse(t) == NginxConfig(IpGroupOf(b), [], [])
  {
    assert [b][1..] == [];
  }

  /** A text holding one `map` block that is not combined, and no `geo`
      block, reads as the group of that block. */
  lemma OneMapParse(t: string, b: Block)
    requires MapBlocks(t) == [b] && GeoBlocks(t) == [] && !IsCombined(b)
    ensures Parse(t) == NginxConfig([], UrlGroupOf(b), [])
  {
    assert [b][1..] == [];
  }

  /** The `geo` block of a writable IP group, alone, reads back as that
      group, relabelled, and as nothing else. */
  lemma GeoTextComesBack(g: IpAclGroup)
    requires GeoWritable(g)
    ensures Parse(GeoText(g)) == NginxConfig(IpKept(g), [], [])
    ensures CanonicalIp(g) ==> Parse(GeoText(g)).ipAclGroups == [g]
  {
    GeoTextBlocks(g);
    OneGeoParse(GeoText(g), GeoBlock(g));
    GeoBodyComesBack(g.entries);
  }

  /** The `map $host` block of a writable URL group, alone, reads back as
      that group, relabelled and with its entries reread, and as nothing
      else. */
  lemma MapTextComesBack(g: UrlAclGroup)
    requires MapWritable(g)
    ensures Parse(MapText(g)) == NginxConfig([], UrlKept(g), [])
    ensures CanonicalUrl(g) ==> Parse(MapText(g)).urlAclGroups == [g]
  {
    MapTextBlocks(g);
    HostNotCombined(g);
    OneMapParse(MapText(g), MapBlock(g));
    UrlGroupBack(g);
    if CanonicalUrl(g) {
      RereadsPlain(g.entries);
    }
  }
}
