/**
 * Python list slicing `xs[start:stop]` (step 1) and the page window
 * `xs[(page-1)*limit : (page-1)*limit + limit]` that every paginated
 * backend function applies.
 */
module PyList {

  /** How Python turns one slice bound into an index of a list of length n. */
  function Bound(i: int, n: nat): (r: nat)
    ensures r <= n
  {
    if i < 0 then (if i + n < 0 then 0 else i + n)
    else if i > n then n
    else i
  }

  /** `xs[start:stop]`: negative bounds count from the end, all bounds are clamped. */
  function Slice<T>(xs: seq<T>, start: int, stop: int): (r: seq<T>)
    ensures |r| <= |xs|
  {
    var a, b := Bound(start, |xs|), Bound(stop, |xs|);
    if b <= a then [] else xs[a..b]
  }

  function Min(a: int, b: int): int { if a <= b then a else b }

  function Max(a: int, b: int): int { if a <= b then b else a }

  /**
   * The slice holds the elements from the normalised start onwards, in
   * order, and is never longer than the distance between the bounds.
   */
  lemma SliceElements<T>(xs: seq<T>, start: int, stop: int)
    ensures forall i :: 0 <= i < |Slice(xs, start, stop)| ==>
      Bound(start, |xs|) + i < |xs| && Slice(xs, start, stop)[i] == xs[Bound(start, |xs|) + i]
    ensures |Slice(xs, start, stop)| == Max(0, Bound(stop, |xs|) - Bound(start, |xs|))
  {
    var a, b := Bound(start, |xs|), Bound(stop, |xs|);
    var r := Slice(xs, start, stop);
    if a < b {
      assert r == xs[a..b];
      assert forall i :: 0 <= i < |r| ==> r[i] == xs[a + i];
    } else {
      assert r == [];
    }
  }

  /** With non-negative bounds: exactly the elements at indices start .. stop-1 that exist. */
  lemma SliceNonNegative<T>(xs: seq<T>, start: int, stop: int)
    requires 0 <= start && 0 <= stop
    ensures |Slice(xs, start, stop)| == Max(0, Min(stop, |xs|) - Min(start, |xs|))
    ensures |Slice(xs, start, stop)| <= Max(0, stop - start)
    ensures forall i :: 0 <= i < |Slice(xs, start, stop)| ==> Slice(xs, start, stop)[i] == xs[start + i]
  {
    SliceElements(xs, start, stop);
  }

  /** Every element of a slice is an element of the list, as often at most. */
  lemma SliceSubMultiset<T>(xs: seq<T>, start: int, stop: int)
    ensures multiset(Slice(xs, start, stop)) <= multiset(xs)
  {
    var a, b := Bound(start, |xs|), Bound(stop, |xs|);
    if a < b {
      assert xs == xs[..a] + xs[a..b] + xs[b..];
    }
  }

  /** Two adjacent slices make the slice that spans both. */
  lemma SliceAdjacent<T>(xs: seq<T>, a: int, b: int, c: int)
    requires 0 <= a <= b <= c
    ensures Slice(xs, a, b) + Slice(xs, b, c) == Slice(xs, a, c)
  {
    var n := |xs|;
    if b >= n {
      assert Slice(xs, b, c) == [];
    } else if c >= n {
      assert xs[a..b] + xs[b..n] == xs[a..n];
    } else {
      assert xs[a..b] + xs[b..c] == xs[a..c];
    }
  }

  /** `xs[:stop]` with a negative stop drops that many elements from the end. */
  lemma SliceNegativeStop<T>(xs: seq<T>, k: int)
    requires k > 0
    ensures Slice(xs, 0, -k) == xs[..Max(0, |xs| - k)]
  {
  }

  /** Index of the first element on a page. */
  function PageStart(page: int, limit: int): int { (page - 1) * limit }

  lemma PageStartNonNegative(page: int, limit: int)
    requires page >= 1 && limit >= 0
    ensures PageStart(page, limit) >= 0
  {
    var p: nat := page - 1;
    assert p * limit >= 0;
  }

  /** `xs[start:start+limit]` with `start = (page-1)*limit`. */
  function Page<T>(xs: seq<T>, page: int, limit: int): (r: seq<T>)
  {
    Slice(xs, PageStart(page, limit), PageStart(page, limit) + limit)
  }

  /** A page holds at most `limit` elements, each taken from its place in the list. */
  lemma PageBounds<T>(xs: seq<T>, page: int, limit: int)
    requires page >= 1 && limit >= 0
    ensures |Page(xs, page, limit)| <= limit
    ensures forall i :: 0 <= i < |Page(xs, page, limit)| ==>
      PageStart(page, limit) + i < |xs| && Page(xs, page, limit)[i] == xs[PageStart(page, limit) + i]
  {
    var start := PageStart(page, limit);
    PageStartNonNegative(page, limit);
    SliceNonNegative(xs, start, start + limit);
  }

  /** A page that starts at or after the end of the list is empty. */
  lemma PagePastEnd<T>(xs: seq<T>, page: int, limit: int)
    requires page >= 1 && limit >= 0
    requires PageStart(page, limit) >= |xs|
    ensures Page(xs, page, limit) == []
  {
  }

  /** The first `k` pages, one after the other. */
  function FirstPages<T>(xs: seq<T>, k: nat, limit: int): seq<T>
  {
    if k == 0 then [] else FirstPages(xs, k - 1, limit) + Page(xs, k, limit)
  }

  /** Reading pages 1..k in turn yields exactly the first k*limit elements, none lost or repeated. */
  lemma {:induction false} FirstPagesCover<T>(xs: seq<T>, k: nat, limit: nat)
    ensures FirstPages(xs, k, limit) == Slice(xs, 0, k * limit)
  {
    if k > 0 {
      FirstPagesCover(xs, k - 1, limit);
      assert PageStart(k, limit) == (k - 1) * limit;
      assert (k - 1) * limit + limit == k * limit;
      assert 0 <= (k - 1) * limit;
      SliceAdjacent(xs, 0, (k - 1) * limit, k * limit);
    }
  }

  // ---------------------------------------------------------------------------
  // List comprehensions with a condition: `[x for x in xs if keep(x)]`

  function Filter<T>(xs: seq<T>, keep: T -> bool): (r: seq<T>)
    ensures |r| <= |xs|
  {
    if xs == [] then [] else (if keep(xs[0]) then [xs[0]] else []) + Filter(xs[1..], keep)
  }

  /** The comprehension keeps exactly the elements that satisfy the condition, each as often as before. */
  lemma {:induction false} FilterMeans<T>(xs: seq<T>, keep: T -> bool)
    ensures forall x :: x in Filter(xs, keep) <==> x in xs && keep(x)
    ensures forall x :: multiset(Filter(xs, keep))[x] == if keep(x) then multiset(xs)[x] else 0
    ensures (forall i :: 0 <= i < |xs| ==> keep(xs[i])) ==> Filter(xs, keep) == xs
  {
    if xs != [] {
      FilterMeans(xs[1..], keep);
      assert xs == [xs[0]] + xs[1..];
      assert multiset(xs) == multiset([xs[0]]) + multiset(xs[1..]);
    }
  }

  /** The comprehension keeps the order: filtering a concatenation filters each side in turn. */
  lemma {:induction false} FilterConcat<T>(a: seq<T>, b: seq<T>, keep: T -> bool)
    ensures Filter(a + b, keep) == Filter(a, keep) + Filter(b, keep)
  {
    if a == [] {
      assert a + b == b;
    } else {
      var ab := a + b;
      var head := if keep(a[0]) then [a[0]] else [];
      assert ab[0] == a[0] && ab[1..] == a[1..] + b;
      assert Filter(ab, keep) == head + Filter(a[1..] + b, keep);
      FilterConcat(a[1..], b, keep);
      assert Filter(a, keep) == head + Filter(a[1..], keep);
    }
  }
}
