/** The search loop of a global JavaScript regular expression,
    `while ((m = re.exec(t)) !== null) { ... }`, for expressions that are
    modelled as matchers: functions that tell whether, and how, the
    expression matches at the start of a text.

    `exec` looks for the leftmost match at or after `lastIndex` and moves
    `lastIndex` to the end of that match. None of the expressions modelled
    here can match the empty string, so the loop always moves forward. For
    an expression with the `m` flag that begins with `^`, a match can only
    start at the beginning of the text or right after a line terminator. */
module Search {
  import opened Text
  import opened Types

  /** A match found at position `pos` of the searched text. */
  datatype Hit<T> = Hit(pos: nat, item: T)

  /** `^` in multiline mode holds at position `i`. */
  predicate LineStart(t: string, i: nat)
    requires i <= |t|
  {
    i == 0 || IsLineTerminator(t[i - 1])
  }

  /** A non-empty match that fits in the `n` characters left. */
  predicate Fits<T>(m: Option<T>, size: T -> nat, n: nat) {
    m.Some? && 0 < size(m.value) <= n
  }

  /** The search would report a match at position `i`. */
  predicate HitAt<T>(matcher: string -> Option<T>, size: T -> nat, anchored: bool, t: string, i: nat)
    requires i <= |t|
  {
    (!anchored || LineStart(t, i)) && Fits(matcher(t[i..]), size, |t| - i)
  }

  /** Every match the search reports from position `i`, in text order; `size`
      gives the number of characters a match spans and `anchored` says
      whether the expression starts with a multiline `^`. Each reported match
      is a match at its position, and reported matches do not overlap;
      `FindCovers` adds that no match is missed. */
  function Find<T>(matcher: string -> Option<T>, size: T -> nat, anchored: bool, t: string, i: nat): (r: seq<Hit<T>>)
    requires i <= |t|
    ensures forall k :: 0 <= k < |r| ==> i <= r[k].pos < |t| && HitAt(matcher, size, anchored, t, r[k].pos)
    ensures forall k :: 0 <= k < |r| ==> matcher(t[r[k].pos..]) == Some(r[k].item)
    ensures forall k :: 0 <= k < |r| - 1 ==> r[k].pos + size(r[k].item) <= r[k + 1].pos
    decreases |t| - i
  {
    if i == |t| then
      []
    else if HitAt(matcher, size, anchored, t, i) then
      var m := matcher(t[i..]).value;
      var rest := Find(matcher, size, anchored, t, i + size(m));
      var r := [Hit(i, m)] + rest;
      assert forall k :: 0 < k < |r| ==> r[k] == rest[k - 1];
      r
    else
      Find(matcher, size, anchored, t, i + 1)
  }

  /** The `k`-th of `hits` spans position `j`. */
  predicate Spans<T>(hits: seq<Hit<T>>, size: T -> nat, k: nat, j: nat) {
    k < |hits| && hits[k].pos <= j < hits[k].pos + size(hits[k].item)
  }

  /** The search misses nothing: every position at which a match would be
      reported lies inside a reported match, the `k`-th. */
  lemma {:induction false} FindCovers<T>(matcher: string -> Option<T>, size: T -> nat, anchored: bool, t: string, i: nat, j: nat)
    returns (k: nat)
    requires i <= j <= |t| && HitAt(matcher, size, anchored, t, j)
    ensures Spans(Find(matcher, size, anchored, t, i), size, k, j)
    decreases |t| - i
  {
    if !HitAt(matcher, size, anchored, t, i) {
      assert i < j;
      FindMiss(matcher, size, anchored, t, i);
      k := FindCovers(matcher, size, anchored, t, i + 1, j);
    } else {
      var m := matcher(t[i..]).value;
      FindHit(matcher, size, anchored, t, i, m);
      if j < i + size(m) {
        k := 0;
      } else {
        var k' := FindCovers(matcher, size, anchored, t, i + size(m), j);
        SpansShift(Find(matcher, size, anchored, t, i + size(m)), size, Hit(i, m), k', j);
        k := k' + 1;
      }
    }
  }

  /** Putting a match in front shifts the index of the spanning match. */
  lemma SpansShift<T>(hits: seq<Hit<T>>, size: T -> nat, h: Hit<T>, k: nat, j: nat)
    requires Spans(hits, size, k, j)
    ensures Spans([h] + hits, size, k + 1, j)
  {
    assert ([h] + hits)[k + 1] == hits[k];
  }

  /** A position at which nothing would be reported is passed over. */
  lemma FindMiss<T>(matcher: string -> Option<T>, size: T -> nat, anchored: bool, t: string, i: nat)
    requires i < |t| && !HitAt(matcher, size, anchored, t, i)
    ensures Find(matcher, size, anchored, t, i) == Find(matcher, size, anchored, t, i + 1)
  {
  }

  /** Positions at which nothing would be reported are passed over. */
  lemma {:induction false} FindSkip<T>(matcher: string -> Option<T>, size: T -> nat, anchored: bool, t: string, i: nat, j: nat)
    requires i <= j <= |t|
    requires forall k :: i <= k < j ==> !HitAt(matcher, size, anchored, t, k)
    ensures Find(matcher, size, anchored, t, i) == Find(matcher, size, anchored, t, j)
    decreases j - i
  {
    if i < j {
      FindSkip(matcher, size, anchored, t, i + 1, j);
    }
  }

  /** A match reported at `i` is followed by the search from its end. */
  lemma FindHit<T>(matcher: string -> Option<T>, size: T -> nat, anchored: bool, t: string, i: nat, m: T)
    requires i < |t| && HitAt(matcher, size, anchored, t, i) && matcher(t[i..]) == Some(m)
    ensures Find(matcher, size, anchored, t, i) == [Hit(i, m)] + Find(matcher, size, anchored, t, i + size(m))
  {
  }

  /** The same, with the position after the match named `j`. */
  lemma FindHitTo<T>(matcher: string -> Option<T>, size: T -> nat, anchored: bool, t: string, i: nat, m: T, j: nat)
    requires i < |t| && matcher(t[i..]) == Some(m) && (!anchored || LineStart(t, i))
    requires j == i + size(m) && 0 < size(m) && j <= |t|
    ensures Find(matcher, size, anchored, t, i) == [Hit(i, m)] + Find(matcher, size, anchored, t, j)
  {
    FindHit(matcher, size, anchored, t, i, m);
  }

  /** An anchored match at the start `i` of a line that ends right before
      the line terminator at `j - 1` is reported, and the search goes on at
      the start `j` of the next line. */
  lemma LineHit<T>(matcher: string -> Option<T>, size: T -> nat, t: string, i: nat, m: T, n: nat, j: nat)
    requires 1 < n && j == i + n && j <= |t| && LineStart(t, i)
    requires matcher(t[i..]) == Some(m) && size(m) == n - 1
    requires !IsLineTerminator(t[j - 2]) && IsLineTerminator(t[j - 1])
    ensures Find(matcher, size, true, t, i) == [Hit(i, m)] + Find(matcher, size, true, t, j)
    ensures LineStart(t, j)
  {
    FindHit(matcher, size, true, t, i, m);
    FindMiss(matcher, size, true, t, i + n - 1);
  }

  /** `f` applied to each element, the results written one after another. */
  function FlatMap<A, B>(f: A -> seq<B>, xs: seq<A>): seq<B> {
    if |xs| == 0 then [] else f(xs[0]) + FlatMap(f, xs[1..])
  }

  lemma {:induction false} FlatMapAppend<A, B>(f: A -> seq<B>, a: seq<A>, b: seq<A>)
    ensures FlatMap(f, a + b) == FlatMap(f, a) + FlatMap(f, b)
    decreases |a|
  {
    if |a| > 0 {
      assert (a + b)[0] == a[0] && (a + b)[1..] == a[1..] + b;
      FlatMapAppend(f, a[1..], b);
    } else {
      assert a + b == b;
    }
  }

  /** The items of the reported matches. */
  function Items<T>(hits: seq<Hit<T>>): (r: seq<T>)
    ensures |r| == |hits| && forall k :: 0 <= k < |r| ==> r[k] == hits[k].item
  {
    if |hits| == 0 then [] else [hits[0].item] + Items(hits[1..])
  }

  /** The item of a match in front comes first. */
  lemma ItemsCons<T>(h: Hit<T>, hits: seq<Hit<T>>)
    ensures Items([h] + hits) == [h.item] + Items(hits)
  {
    assert ([h] + hits)[1..] == hits;
  }

  /** The item of a single match. */
  lemma ItemsOne<T>(h: Hit<T>)
    ensures Items([h]) == [h.item]
  {
  }

  /** An expression that never matches white space alone finds nothing in
      the white space at the end of a text. */
  lemma BlankFindsNothing<T>(matcher: string -> Option<T>, size: T -> nat, anchored: bool, t: string, i: nat)
    requires i <= |t| && forall k :: i <= k < |t| ==> IsSpace(t[k])
    requires forall u :: All(u, IsSpace) ==> matcher(u).None?
    ensures Find(matcher, size, anchored, t, i) == []
  {
    forall k | i <= k < |t|
      ensures !HitAt(matcher, size, anchored, t, k)
    {
      assert All(t[k..], IsSpace);
    }
    FindSkip(matcher, size, anchored, t, i, |t|);
  }

  /** The last position `g` in `s+1..e` at which `matcher` matches the rest
      of `u`: where a greedy quantifier that starts at `s` and could run to
      `e` stops, once it has given back what the rest of the expression
      needs. */
  function LastMatch<T>(matcher: string -> Option<T>, u: string, s: nat, e: nat): (r: Option<nat>)
    requires e <= |u|
    ensures r.Some? ==> s < r.value <= e && matcher(u[r.value..]).Some?
    decreases e
  {
    if e <= s then None
    else if matcher(u[e..]).Some? then Some(e)
    else LastMatch(matcher, u, s, e - 1)
  }

  /** The last position at which the matcher matches is the one after which
      it matches nowhere. */
  lemma {:induction false} LastMatchAt<T>(matcher: string -> Option<T>, u: string, s: nat, g: nat, e: nat)
    requires s < g <= e <= |u| && matcher(u[g..]).Some?
    requires forall j :: g < j <= e ==> matcher(u[j..]).None?
    ensures LastMatch(matcher, u, s, e) == Some(g)
    decreases e
  {
    if g < e {
      LastMatchAt(matcher, u, s, g, e - 1);
    }
  }

  /** The largest position in `lo..hi` that satisfies `ok`, if any: the order
      in which a greedy quantifier gives characters back. */
  function LastWhere(ok: nat -> bool, lo: nat, hi: nat): (r: Option<nat>)
    ensures r.Some? ==> lo <= r.value <= hi && ok(r.value)
    ensures r.Some? ==> forall j :: r.value < j <= hi ==> !ok(j)
    ensures r.None? ==> forall j :: lo <= j <= hi ==> !ok(j)
    decreases hi
  {
    if hi < lo then None
    else if ok(hi) then Some(hi)
    else if hi == lo then None
    else LastWhere(ok, lo, hi - 1)
  }

  /** The largest position satisfying `ok` is the one above which nothing does. */
  lemma LastWhereAt(ok: nat -> bool, lo: nat, k: nat, hi: nat)
    requires lo <= k <= hi && ok(k)
    requires forall j :: k < j <= hi ==> !ok(j)
    ensures LastWhere(ok, lo, hi) == Some(k)
  {
  }
}
