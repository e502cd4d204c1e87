/** Where the two block expressions of the parser, `geo\s+\$...` and
    `map\s+\$...`, cannot match.

    A block match starts with its keyword. Text in which the keyword never
    starts, or starts only before ` "` (which the expression rejects, since
    it wants `$` after the white space), is passed over by the search. The
    property is checked piece by piece: it survives concatenation as long as
    no piece ends with the beginning of the keyword. */
module Keywords {
  import opened Text
  import opened Types
  import opened Search
  import opened Parser

  /** The three-letter `keyword` may start at position `i` of `s`: the
      characters of `s` from `i` on agree with it as far as `s` goes. */
  predicate MayStart(s: string, i: nat, keyword: string)
    requires i < |s| && |keyword| == 3
  {
    s[i] == keyword[0] && (i + 1 == |s| || (s[i + 1] == keyword[1] && (i + 2 == |s| || s[i + 2] == keyword[2])))
  }

  /** Wherever `keyword` may start in `s`, `s` goes on with ` "`. */
  predicate Quiet(s: string, keyword: string)
    requires |keyword| == 3
  {
    forall i :: 0 <= i < |s| && MayStart(s, i, keyword) ==> i + 4 < |s| && s[i + 3] == ' ' && s[i + 4] == '"'
  }

  /** `keyword` does not occur in `s`. */
  predicate Absent(s: string, keyword: string)
    requires |keyword| == 3
  {
    forall i :: 0 <= i && i + 3 <= |s| ==> !MayStart(s, i, keyword)
  }

  /** Neither block keyword occurs in `s`. */
  predicate NoKeyword(s: string) {
    Absent(s, "geo") && Absent(s, "map")
  }

  /** Quiet for both block keywords. */
  predicate Silent(s: string) {
    Quiet(s, "geo") && Quiet(s, "map")
  }

  /** Where a keyword may start in `a + b`, it may start in `a` or in `b`. */
  lemma MayStartJoin(a: string, b: string, i: nat, keyword: string)
    requires |keyword| == 3 && i < |a + b| && MayStart(a + b, i, keyword)
    ensures i < |a| ==> MayStart(a, i, keyword)
    ensures i >= |a| ==> MayStart(b, i - |a|, keyword)
  {
    if i < |a| {
      assert (a + b)[i] == a[i];
      if i + 1 < |a| {
        assert (a + b)[i + 1] == a[i + 1];
      }
      if i + 2 < |a| {
        assert (a + b)[i + 2] == a[i + 2];
      }
    } else {
      assert (a + b)[i] == b[i - |a|];
      if i + 1 < |a + b| {
        assert (a + b)[i + 1] == b[i + 1 - |a|];
      }
      if i + 2 < |a + b| {
        assert (a + b)[i + 2] == b[i + 2 - |a|];
      }
    }
  }

  /** Quiet pieces make a quiet text. */
  lemma QuietJoin(a: string, b: string, keyword: string)
    requires |keyword| == 3 && Quiet(a, keyword) && Quiet(b, keyword)
    ensures Quiet(a + b, keyword)
  {
    forall i | 0 <= i < |a + b| && MayStart(a + b, i, keyword)
      ensures i + 4 < |a + b| && (a + b)[i + 3] == ' ' && (a + b)[i + 4] == '"'
    {
      MayStartJoin(a, b, i, keyword);
      if i < |a| {
        assert (a + b)[i + 3] == a[i + 3];
        assert (a + b)[i + 4] == a[i + 4];
      } else {
        assert (a + b)[i + 3] == b[i - |a| + 3];
        assert (a + b)[i + 4] == b[i - |a| + 4];
      }
    }
  }

  /** Silent pieces make a silent text. */
  lemma SilentJoin(a: string, b: string)
    requires Silent(a) && Silent(b)
    ensures Silent(a + b)
  {
    QuietJoin(a, b, "geo");
    QuietJoin(a, b, "map");
  }

  /** A text without the keyword, followed by a quiet text whose first
      character cannot continue the keyword, makes a quiet text. */
  lemma AbsentJoin(a: string, b: string, keyword: string)
    requires |keyword| == 3 && Absent(a, keyword) && Quiet(b, keyword)
    requires |b| > 0 && b[0] != keyword[1] && b[0] != keyword[2]
    ensures Quiet(a + b, keyword)
  {
    forall i | 0 <= i < |a + b| && MayStart(a + b, i, keyword)
      ensures i + 4 < |a + b| && (a + b)[i + 3] == ' ' && (a + b)[i + 4] == '"'
    {
      MayStartJoin(a, b, i, keyword);
      assert (a + b)[|a|] == b[0];
      assert i >= |a|;
      assert (a + b)[i + 3] == b[i - |a| + 3];
      assert (a + b)[i + 4] == b[i - |a| + 4];
    }
  }

  /** A text made only of characters that begin neither keyword is quiet. */
  lemma QuietChars(s: string, keyword: string)
    requires |keyword| == 3 && forall k :: 0 <= k < |s| ==> s[k] != keyword[0]
    ensures Quiet(s, keyword) && Absent(s, keyword)
  {
  }

  // ---------------------------------------------------------------------
  // The block searches pass over quiet text
  // ---------------------------------------------------------------------

  /** A block expression cannot match where its keyword is followed by ` "`
      or cannot start. */
  lemma QuietNoBlock(t: string, q: string, j: nat, k: nat, keyword: string)
    requires |keyword| == 3 && Quiet(q, keyword)
    requires j <= k < j + |q| <= |t| && t[j..j + |q|] == q
    ensures !OpensBlock(t[k..], keyword)
  {
    var u := t[k..];
    var i := k - j;
    assert q[i] == u[0];
    if i + 1 < |q| {
      assert q[i + 1] == u[1];
    }
    if i + 2 < |q| {
      assert q[i + 2] == u[2];
    }
    if MayStart(q, i, keyword) {
      assert q[i + 3] == u[3] && q[i + 4] == u[4];
      RunEndUnique(u, 3, 4, IsSpace);
    }
  }

  /** The search for a block expression that opens with `keyword` passes over
      a quiet stretch `q` of the text that starts at `j`. */
  lemma QuietSkip(matcher: string -> Option<Block>, keyword: string, t: string, q: string, j: nat)
    requires |keyword| == 3 && Quiet(q, keyword)
    requires forall u :: matcher(u).Some? ==> OpensBlock(u, keyword)
    requires j + |q| <= |t| && t[j..j + |q|] == q
    ensures Find(matcher, BlockLen, false, t, j) == Find(matcher, BlockLen, false, t, j + |q|)
  {
    forall k | j <= k < j + |q|
      ensures !HitAt(matcher, BlockLen, false, t, k)
    {
      QuietNoBlock(t, q, j, k, keyword);
    }
    FindSkip(matcher, BlockLen, false, t, j, j + |q|);
  }

  // ---------------------------------------------------------------------
  // Block openings
  // ---------------------------------------------------------------------
  //
  // A block match begins with an opening: the keyword, white space and `$`.
  // Text in which no opening starts is passed over by the block search. An
  // opening can straddle two pieces of text, so pieces are joined at seams
  // that cannot complete one.

  /** No block opening for `keyword` starts anywhere in `s`. */
  predicate Unopened(s: string, keyword: string) {
    forall k :: 0 <= k < |s| ==> !OpensBlock(s[k..], keyword)
  }

  /** From position `k` on, `s` could still grow into an opening: it is a
      beginning of `keyword`, or `keyword` followed only by white space. */
  predicate OpenEnd(s: string, k: nat, keyword: string)
    requires k < |s| && |keyword| == 3
  {
    if |s| - k < 3 then s[k..] == keyword[..|s| - k]
    else s[k..k + 3] == keyword && All(s[k + 3..], IsSpace)
  }

  /** No end of `s` can grow into an opening, whatever follows it. */
  predicate Sealed(s: string, keyword: string)
    requires |keyword| == 3
  {
    forall k :: 0 <= k < |s| ==> !OpenEnd(s, k, keyword)
  }

  /** `b` cannot complete an opening begun before it: it does not continue
      the keyword, and its first character outside `\s` is not `$`. */
  predicate Leads(b: string, keyword: string)
    requires |keyword| == 3
  {
    |b| > 0 && b[0] != keyword[1] && b[0] != keyword[2] && Led(b)
  }

  /** The first character of `b` outside `\s` exists and is not `$`. */
  predicate Led(b: string) {
    var r := RunEnd(b, 0, IsSpace); r < |b| && b[r] != '$'
  }

  /** Neither side of the seam between `a` and `b` is white space, and `b`
      does not continue the keyword. */
  predicate Tight(a: string, b: string, keyword: string)
    requires |keyword| == 3
  {
    |a| > 0 && |b| > 0 && !IsSpace(a[|a| - 1]) && !IsSpace(b[0]) && b[0] != keyword[1] && b[0] != keyword[2]
  }

  /** No opening can straddle the seam between `a` and `b`. */
  predicate Seam(a: string, b: string, keyword: string)
    requires |keyword| == 3
  {
    Sealed(a, keyword) || Leads(b, keyword) || Tight(a, b, keyword)
  }

  /** The first character of `b` outside `\s` is none of the keyword's
      letters, so nothing before `b` can reach past it into an opening. */
  predicate Stops(b: string, keyword: string)
    requires |keyword| == 3
  {
    var r := RunEnd(b, 0, IsSpace);
    r < |b| && b[r] != keyword[0] && b[r] != keyword[1] && b[r] != keyword[2]
  }

  /** An opening in `u` whose white space ends before `n` is an opening in
      any text that agrees with `u` on its first `n` characters. */
  lemma OpeningWithin(u: string, v: string, n: nat, keyword: string)
    requires |keyword| == 3 && n <= |u| && n <= |v| && OpensBlock(u, keyword)
    requires forall m :: 0 <= m < n ==> u[m] == v[m]
    ensures RunEnd(u, 3, IsSpace) < n ==> OpensBlock(v, keyword)
  {
    var r := RunEnd(u, 3, IsSpace);
    if r < n {
      assert v[..3] == u[..3];
      RunEndUnique(v, 3, r, IsSpace);
    }
  }

  /** An opening that starts at `k` in `a + b` but not in `a` alone runs
      past the end of `a`: `a` ends open there, and `b` neither leads nor
      meets `a` tightly. */
  lemma OpeningSpill(a: string, b: string, k: nat, keyword: string)
    requires |keyword| == 3 && k < |a|
    ensures OpensBlock((a + b)[k..], keyword) && !OpensBlock(a[k..], keyword)
            ==> OpenEnd(a, k, keyword) && !Leads(b, keyword) && !Tight(a, b, keyword)
  {
    var u := (a + b)[k..];
    var v := a[k..];
    var n := |a| - k;
    assert forall m :: 0 <= m < n ==> u[m] == v[m];
    assert forall m :: 0 <= m < |b| ==> u[n + m] == b[m];
    if OpensBlock(u, keyword) && !OpensBlock(v, keyword) {
      var r := RunEnd(u, 3, IsSpace);
      OpeningWithin(u, v, n, keyword);
      if n < 3 {
        assert v == keyword[..n];
        assert b[0] == u[n];
      } else {
        assert v[..3] == u[..3];
        assert forall m :: 3 <= m < n ==> IsSpace(v[m]);
        assert All(v[3..], IsSpace);
        assert b[0] == u[n];
        assert a[|a| - 1] == u[n - 1];
        RunEndUnique(b, 0, r - n, IsSpace);
      }
    }
  }

  /** Pieces without openings, joined at a seam that cannot complete one,
      make a text without openings. */
  lemma UnopenedJoin(a: string, b: string, keyword: string)
    requires |keyword| == 3 && Unopened(a, keyword) && Unopened(b, keyword) && Seam(a, b, keyword)
    ensures Unopened(a + b, keyword)
  {
    forall k | 0 <= k < |a + b|
      ensures !OpensBlock((a + b)[k..], keyword)
    {
      if k < |a| {
        OpeningSpill(a, b, k, keyword);
      } else {
        assert (a + b)[k..] == b[k - |a|..];
      }
    }
  }

  /** An end of `a + b` that starts in `a` takes in all of `b`, so it
      cannot be open when `b` stops it. */
  lemma OpenEndSpill(a: string, b: string, k: nat, keyword: string)
    requires |keyword| == 3 && k < |a| && !IsSpace(keyword[1]) && !IsSpace(keyword[2])
    ensures OpenEnd(a + b, k, keyword) ==> !Stops(b, keyword)
  {
    var s := a + b;
    if OpenEnd(s, k, keyword) {
      if |s| - k < 3 || |a| < k + 3 {
        if |b| > 0 {
          assert b[0] == s[|a|];
          if |s| - k < 3 {
            assert s[k..][|a| - k] == keyword[|a| - k];
          } else {
            assert s[k..k + 3][|a| - k] == keyword[|a| - k];
          }
          RunEndUnique(b, 0, 0, IsSpace);
        }
      } else {
        forall m | 0 <= m < |b|
          ensures IsSpace(b[m])
        {
          assert b[m] == s[k + 3..][|a| + m - k - 3];
        }
        RunEndUnique(b, 0, |b|, IsSpace);
      }
    }
  }

  /** A sealed text that stops whatever precedes it seals the join. */
  lemma SealedJoin(a: string, b: string, keyword: string)
    requires |keyword| == 3 && !IsSpace(keyword[1]) && !IsSpace(keyword[2])
    requires Sealed(b, keyword) && Stops(b, keyword)
    ensures Sealed(a + b, keyword)
  {
    forall k | 0 <= k < |a + b|
      ensures !OpenEnd(a + b, k, keyword)
    {
      if k < |a| {
        OpenEndSpill(a, b, k, keyword);
      } else {
        assert (a + b)[k..] == b[k - |a|..];
        if |a + b| - k >= 3 {
          assert (a + b)[k..k + 3] == b[k - |a|..k - |a| + 3];
          assert (a + b)[k + 3..] == b[k - |a| + 3..];
        }
        assert OpenEnd(a + b, k, keyword) == OpenEnd(b, k - |a|, keyword);
      }
    }
  }

  /** Quiet text holds no opening, and no end of it can grow into one. */
  lemma QuietSealed(s: string, keyword: string)
    requires |keyword| == 3 && Quiet(s, keyword)
    ensures Unopened(s, keyword) && Sealed(s, keyword)
  {
    forall k | 0 <= k < |s|
      ensures !OpensBlock(s[k..], keyword) && !OpenEnd(s, k, keyword)
    {
      var u := s[k..];
      if StartsWith(u, keyword) || OpenEnd(s, k, keyword) {
        assert MayStart(s, k, keyword);
        assert u[3] == ' ' && u[4] == '"';
        RunEndUnique(u, 3, 4, IsSpace);
        if |s| - k >= 3 {
          assert s[k + 3..][1] == '"';
        }
      }
    }
  }

  // ---------------------------------------------------------------------
  // Both keywords
  // ---------------------------------------------------------------------

  /** No block of either kind opens anywhere in `s`. */
  predicate Closed(s: string) {
    Unopened(s, "geo") && Unopened(s, "map")
  }

  /** No end of `s` can grow into an opening of either kind. */
  predicate Shut(s: string) {
    Sealed(s, "geo") && Sealed(s, "map")
  }

  lemma ClosedJoin(a: string, b: string)
    requires Closed(a) && Closed(b) && Seam(a, b, "geo") && Seam(a, b, "map")
    ensures Closed(a + b)
  {
    UnopenedJoin(a, b, "geo");
    UnopenedJoin(a, b, "map");
  }

  lemma ShutJoin(a: string, b: string)
    requires Shut(b) && Stops(b, "geo") && Stops(b, "map")
    ensures Shut(a + b)
  {
    SealedJoin(a, b, "geo");
    SealedJoin(a, b, "map");
  }

  /** Silent text is closed and shut. */
  lemma SilentShut(s: string)
    requires Silent(s)
    ensures Closed(s) && Shut(s)
  {
    QuietSealed(s, "geo");
    QuietSealed(s, "map");
  }

  // ---------------------------------------------------------------------
  // The block searches pass over closed text
  // ---------------------------------------------------------------------

  /** The search for a block expression that opens with `keyword` finds
      nothing in the rest of a text that holds no opening. */
  lemma UnopenedFindsNothing(matcher: string -> Option<Block>, keyword: string, t: string, j: nat)
    requires |keyword| == 3 && j <= |t| && Unopened(t[j..], keyword)
    requires forall u :: matcher(u).Some? ==> OpensBlock(u, keyword)
    ensures Find(matcher, BlockLen, false, t, j) == []
  {
    forall k | j <= k < |t|
      ensures !HitAt(matcher, BlockLen, false, t, k)
    {
      assert t[k..] == t[j..][k - j..];
    }
    FindSkip(matcher, BlockLen, false, t, j, |t|);
  }

  /** The search passes over a stretch `q` of the text, starting at `j`,
      that holds no opening and whose ends cannot grow into one. */
  lemma SealedSkip(matcher: string -> Option<Block>, keyword: string, t: string, q: string, j: nat)
    requires |keyword| == 3 && Unopened(q, keyword) && Sealed(q, keyword)
    requires forall u :: matcher(u).Some? ==> OpensBlock(u, keyword)
    requires j + |q| <= |t| && t[j..j + |q|] == q
    ensures Find(matcher, BlockLen, false, t, j) == Find(matcher, BlockLen, false, t, j + |q|)
  {
    var rest := t[j + |q|..];
    assert t[j..] == q + rest;
    forall k | j <= k < j + |q|
      ensures !HitAt(matcher, BlockLen, false, t, k)
    {
      assert t[k..] == (q + rest)[k - j..];
      OpeningSpill(q, rest, k - j, keyword);
    }
    FindSkip(matcher, BlockLen, false, t, j, j + |q|);
  }

  // ---------------------------------------------------------------------
  // Generated text, piece by piece
  // ---------------------------------------------------------------------
  //
  // The generator writes a block from fixed pieces and the user's text.
  // Joined from the right, each piece either cannot end inside an opening
  // (it is sealed) or is followed by text that leads.

  /** One of the two block keywords. */
  predicate IsKeyword(keyword: string) {
    keyword == "geo" || keyword == "map"
  }

  /** Text without the first letter of `keyword` holds no opening and
      cannot end inside one. */
  lemma LetterFree(s: string, keyword: string)
    requires |keyword| == 3 && forall k :: 0 <= k < |s| ==> s[k] != keyword[0]
    ensures Unopened(s, keyword) && Sealed(s, keyword)
  {
    forall k | 0 <= k < |s|
      ensures !OpensBlock(s[k..], keyword) && !OpenEnd(s, k, keyword)
    {
      assert s[k..][0] == s[k];
      if |s| - k >= 3 {
        assert s[k..k + 3][0] == s[k];
      }
    }
  }

  /** A run of `[a-zA-Z_]` holds no opening: the keyword would have to be
      followed by white space. */
  lemma WordUnopened(s: string, keyword: string)
    requires |keyword| == 3 && All(s, IsWordChar)
    ensures Unopened(s, keyword)
  {
    forall k | 0 <= k < |s|
      ensures !OpensBlock(s[k..], keyword)
    {
      var u := s[k..];
      if 3 < |u| {
        assert u[3] == s[k + 3];
      }
    }
  }

  /** An unopened piece followed by unopened text that leads, or an
      unopened, sealed piece followed by unopened text, is unopened. */
  lemma Prepend(x: string, r: string, keyword: string)
    requires |keyword| == 3 && Unopened(x, keyword) && Unopened(r, keyword)
    requires Sealed(x, keyword) || Leads(r, keyword)
    ensures Unopened(x + r, keyword)
  {
    UnopenedJoin(x, r, keyword);
  }

  /** A letter-free piece in front of unopened text. */
  lemma PrependPlain(x: string, r: string, keyword: string)
    requires |keyword| == 3 && forall k :: 0 <= k < |x| ==> x[k] != keyword[0]
    requires Unopened(r, keyword)
    ensures Unopened(x + r, keyword)
  {
    LetterFree(x, keyword);
    UnopenedJoin(x, r, keyword);
  }

  /** Text whose first character outside `\s` is settled keeps it, whatever
      follows. */
  lemma LedJoin(a: string, b: string)
    requires Led(a)
    ensures Led(a + b)
  {
    RunEndJoin(a, b, IsSpace);
    var r := RunEnd(a, 0, IsSpace);
    assert (a + b)[r] == a[r];
  }

  /** White space in front of text that leads. */
  lemma LedAfterSpaces(a: string, b: string)
    requires All(a, IsSpace) && Led(b)
    ensures Led(a + b)
  {
    RunEndUnique(a, 0, |a|, IsSpace);
    RunEndJoin(a, b, IsSpace);
    var r := RunEnd(b, 0, IsSpace);
    assert (a + b)[|a| + r] == b[r];
  }

  /** Text that starts with a character outside `\s` other than `$` leads. */
  lemma LedAtStart(b: string)
    requires 0 < |b| && !IsSpace(b[0]) && b[0] != '$'
    ensures Led(b)
  {
    RunEndUnique(b, 0, 0, IsSpace);
  }
}
