/** What merge and merge_sort_aux of msort.c and tmsort.c compute, on values. */
module Merging {
  function Merge(a: seq<int>, b: seq<int>): (r: seq<int>)
    ensures |r| == |a| + |b|
  {
    if a == [] then b
    else if b == [] then a
    else if a[0] <= b[0] then [a[0]] + Merge(a[1..], b)
    else [b[0]] + Merge(a, b[1..])
  }

  function Sort(s: seq<int>): (r: seq<int>)
    ensures |r| == |s|
    decreases |s|
  {
    if |s| <= 1 then s else Merge(Sort(s[..|s| / 2]), Sort(s[|s| / 2..]))
  }

  predicate Sorted(s: seq<int>) { forall i, j :: 0 <= i < j < |s| ==> s[i] <= s[j] }

  lemma HeadElement(s: seq<int>, x: int, rest: seq<int>)
    requires s == [x] + rest
    ensures multiset(s) == multiset{x} + multiset(rest)
  {}

  lemma {:induction false} MergeElements(a: seq<int>, b: seq<int>)
    ensures multiset(Merge(a, b)) == multiset(a) + multiset(b)
    decreases |a| + |b|
  {
    if a != [] && b != [] {
      hide Merge;
      MergeStep(a, b);
      if a[0] <= b[0] {
        MergeElements(a[1..], b);
        HeadElement(a, a[0], a[1..]);
        HeadElement(Merge(a, b), a[0], Merge(a[1..], b));
      } else {
        MergeElements(a, b[1..]);
        HeadElement(b, b[0], b[1..]);
        HeadElement(Merge(a, b), b[0], Merge(a, b[1..]));
      }
    }
  }

  lemma {:induction false} MergeSorts(a: seq<int>, b: seq<int>)
    requires Sorted(a) && Sorted(b)
    ensures Sorted(Merge(a, b))
    decreases |a| + |b|
  {
    if a != [] && b != [] {
      if a[0] <= b[0] {
        MergeSorts(a[1..], b);
        Least(a[0], a[1..], b);
      } else {
        MergeSorts(a, b[1..]);
        Least(b[0], a, b[1..]);
      }
    }
  }

  /** A lower bound of both lists is a lower bound of the merged one. */
  lemma Least(x: int, a: seq<int>, b: seq<int>)
    requires (forall i :: 0 <= i < |a| ==> x <= a[i]) && (forall i :: 0 <= i < |b| ==> x <= b[i])
    ensures forall i :: 0 <= i < |Merge(a, b)| ==> x <= Merge(a, b)[i]
  {}

  lemma {:induction false} SortIsSorted(s: seq<int>)
    ensures Sorted(Sort(s)) && multiset(Sort(s)) == multiset(s)
    decreases |s|
  {
    hide Merge;
    if |s| > 1 {
      var h := |s| / 2;
      SortIsSorted(s[..h]);
      SortIsSorted(s[h..]);
      MergeSorts(Sort(s[..h]), Sort(s[h..]));
      MergeElements(Sort(s[..h]), Sort(s[h..]));
      assert s == s[..h] + s[h..];
    }
  }

  /** One element of a merge: what is left to merge after it. */
  lemma MergeStep(a: seq<int>, b: seq<int>)
    requires a != [] || b != []
    ensures (a != [] && (b == [] || a[0] <= b[0])) ==> Merge(a, b) == [a[0]] + Merge(a[1..], b)
    ensures !(a != [] && (b == [] || a[0] <= b[0])) ==> b != [] && Merge(a, b) == [b[0]] + Merge(a, b[1..])
  {}

  // ---------------------------------------------------------------- slices of an array

  /** The two agree outside lo..hi. */
  predicate Outside(s: seq<int>, t: seq<int>, lo: int, hi: int) {
    |s| == |t| && forall k :: 0 <= k < |s| && !(lo <= k < hi) ==> t[k] == s[k]
  }

  lemma OutsideSlice(s: seq<int>, t: seq<int>, lo: nat, hi: nat, x: nat, y: nat)
    requires Outside(s, t, lo, hi) && x <= y <= |s| && (y <= lo || hi <= x)
    ensures t[x..y] == s[x..y]
  {}

  lemma OutsideTrans(s: seq<int>, t: seq<int>, u: seq<int>, a: nat, b: nat, c: nat, d: nat, lo: nat, hi: nat)
    requires Outside(s, t, a, b) && Outside(t, u, c, d) && lo <= a && b <= hi && lo <= c && d <= hi
    ensures Outside(s, u, lo, hi)
  {}

  lemma Halves(a: seq<int>, lo: nat, mid: nat, hi: nat)
    requires lo <= mid <= hi <= |a|
    ensures a[lo..mid] == a[lo..hi][..mid - lo] && a[mid..hi] == a[lo..hi][mid - lo..]
  {}

  lemma SortSlice(s: seq<int>, lo: nat, mid: nat, hi: nat)
    requires lo + 1 < hi <= |s| && mid == (lo + hi) / 2
    ensures Sort(s[lo..hi]) == Merge(Sort(s[lo..mid]), Sort(s[mid..hi]))
  {
    hide Merge;
    Halves(s, lo, mid, hi);
    assert mid - lo == |s[lo..hi]| / 2;
  }

  // ---------------------------------------------------------------- a merge in progress

  /** g holds the result up to i = left + right - mid; the rest is still to be merged from n. */
  predicate Merged(n: seq<int>, g: seq<int>, r: seq<int>, lo: nat, mid: nat, hi: nat, left: nat, right: nat) {
    && |n| == |g| && lo <= left <= mid <= right <= hi <= |n|
    && g[lo..left + right - mid] + Merge(n[left..mid], n[right..hi]) == r
  }

  lemma MergedStarts(n: seq<int>, g: seq<int>, lo: nat, mid: nat, hi: nat)
    requires |n| == |g| && lo <= mid <= hi <= |n|
    ensures Merged(n, g, Merge(n[lo..mid], n[mid..hi]), lo, mid, hi, lo, mid)
  {}

  lemma MergedEnds(n: seq<int>, g: seq<int>, r: seq<int>, lo: nat, mid: nat, hi: nat)
    requires Merged(n, g, r, lo, mid, hi, mid, hi)
    ensures g[lo..hi] == r
  {}

  predicate TakesLeft(n: seq<int>, mid: nat, hi: nat, left: nat, right: nat)
    requires left <= mid <= right <= hi <= |n|
  {
    left < mid && (right >= hi || n[left] <= n[right])
  }

  lemma MergedLeft(n: seq<int>, g: seq<int>, r: seq<int>, lo: nat, mid: nat, hi: nat, left: nat, right: nat)
    requires Merged(n, g, r, lo, mid, hi, left, right) && TakesLeft(n, mid, hi, left, right)
    ensures Merged(n, g[left + right - mid := n[left]], r, lo, mid, hi, left + 1, right)
  {}

  lemma MergedRight(n: seq<int>, g: seq<int>, r: seq<int>, lo: nat, mid: nat, hi: nat, left: nat, right: nat)
    requires Merged(n, g, r, lo, mid, hi, left, right) && !TakesLeft(n, mid, hi, left, right) && right < hi
    ensures Merged(n, g[left + right - mid := n[right]], r, lo, mid, hi, left, right + 1)
  {
    hide Merge;
    MergeStep(n[left..mid], n[right..hi]);
    var i := left + right - mid;
    var g' := g[i := n[right]];
    assert n[right..hi][1..] == n[right + 1..hi];
    assert g'[lo..i + 1] == g[lo..i] + [n[right]];
  }

  /** When one slice is used up, copying what is left of the other ends the merge. */
  lemma MergedRest(n: seq<int>, g: seq<int>, g': seq<int>, r: seq<int>, lo: nat, mid: nat, hi: nat, left: nat,
                   right: nat)
    requires Merged(n, g, r, lo, mid, hi, left, right) && Outside(g, g', left + right - mid, hi)
    requires (left == mid && g'[right..hi] == n[right..hi]) ||
      (right == hi && g'[left + right - mid..hi] == n[left..mid])
    ensures g'[lo..hi] == r
  {}
}
