/** msort.c: the sequential sort that overwrites slices of its two arrays in turn. */
module SortCode {
  import opened Merging

  /** merge's loop: take the smaller head until one slice is used up. */
  method MergeHeads(nums: array<int>, lo: nat, mid: nat, hi: nat, target: array<int>) returns (left: nat, right: nat)
    requires nums != target && nums.Length == target.Length && lo <= mid <= hi <= nums.Length
    modifies target
    ensures lo <= left <= mid <= right <= hi && (left == mid || right == hi)
    ensures Merged(nums[..], target[..], Merge(nums[..][lo..mid], nums[..][mid..hi]), lo, mid, hi, left, right)
    ensures Outside(old(target[..]), target[..], lo, hi)
  {
    hide Merge, Merged;
    left, right := lo, mid;
    var i := lo;
    ghost var n, r := nums[..], Merge(nums[..][lo..mid], nums[..][mid..hi]);
    MergedStarts(n, target[..], lo, mid, hi);
    while i < hi && left < mid && right < hi
      invariant lo <= left <= mid <= right <= hi && i == left + right - mid && n == nums[..]
      invariant Merged(n, target[..], r, lo, mid, hi, left, right)
      invariant Outside(old(target[..]), target[..], lo, hi)
      decreases hi - i
    {
      ghost var g := target[..];
      if nums[left] <= nums[right] {
        MergedLeft(n, g, r, lo, mid, hi, left, right);
        target[i] := nums[left];
        assert target[..] == g[i := n[left]];
        left := left + 1;
      } else {
        MergedRight(n, g, r, lo, mid, hi, left, right);
        target[i] := nums[right];
        assert target[..] == g[i := n[right]];
        right := right + 1;
      }
      i := i + 1;
    }
  }

  /** The slices nums[lo..mid] and nums[mid..hi] merged into target[lo..hi]. */
  method MergeInto(nums: array<int>, lo: nat, mid: nat, hi: nat, target: array<int>)
    requires nums != target && nums.Length == target.Length && lo <= mid <= hi <= nums.Length
    modifies target
    ensures target[..][lo..hi] == Merge(nums[..][lo..mid], nums[..][mid..hi])
    ensures Outside(old(target[..]), target[..], lo, hi)
  {
    var left, right := MergeHeads(nums, lo, mid, hi, target);
    var i := left + right - mid;
    ghost var n, g := nums[..], target[..];
    hide Merge, Merged;
    if left < mid {
      Move(nums, left, mid, target, i);
      assert target[..][i..hi] == n[left..mid];
    } else if right < hi {
      Move(nums, right, hi, target, i);
      assert target[..][i..hi] == n[right..hi];
    }
    MergedRest(n, g, target[..], Merge(n[lo..mid], n[mid..hi]), lo, mid, hi, left, right);
  }

  /** memmove(&target[i], &nums[lo], (hi - lo) * sizeof(long)) */
  method Move(nums: array<int>, lo: nat, hi: nat, target: array<int>, i: nat)
    requires nums != target && lo <= hi <= nums.Length && i + (hi - lo) <= target.Length
    modifies target
    ensures target[i..i + (hi - lo)] == nums[lo..hi]
    ensures Outside(old(target[..]), target[..], i, i + (hi - lo))
  {
    var k := 0;
    while k < hi - lo
      invariant 0 <= k <= hi - lo && target[i..i + k] == nums[lo..lo + k]
      invariant Outside(old(target[..]), target[..], i, i + (hi - lo))
    {
      target[i + k] := nums[lo + k];
      k := k + 1;
    }
  }

  /** Sorts a slice on which both arrays agree into target; outside it neither array changes. */
  method MergeSortAux(nums: array<int>, lo: nat, hi: nat, target: array<int>)
    requires nums != target && nums.Length == target.Length && lo <= hi <= nums.Length
    requires nums[..][lo..hi] == target[..][lo..hi]
    modifies nums, target
    ensures target[..][lo..hi] == Sort(old(nums[..])[lo..hi])
    ensures Outside(old(target[..]), target[..], lo, hi) && Outside(old(nums[..]), nums[..], lo, hi)
    decreases hi - lo
  {
    if hi - lo <= 1 {
      return;
    }
    hide Outside, Merge, Sort;
    var mid := (lo + hi) / 2;
    ghost var n0, t0 := nums[..], target[..];
    EqualHalves(n0, t0, lo, mid, hi);
    MergeSortAux(target, lo, mid, nums);
    ghost var n1, t1 := nums[..], target[..];
    OutsideSlice(n0, n1, lo, mid, mid, hi);
    OutsideSlice(t0, t1, lo, mid, mid, hi);
    MergeSortAux(target, mid, hi, nums);
    ghost var n2, t2 := nums[..], target[..];
    MergeInto(nums, lo, mid, hi, target);
    Assembled(n0, t0, n1, t1, n2, t2, target[..], lo, mid, hi);
  }

  lemma EqualHalves(n: seq<int>, t: seq<int>, lo: nat, mid: nat, hi: nat)
    requires lo <= mid <= hi <= |n| == |t| && n[lo..hi] == t[lo..hi]
    ensures n[lo..mid] == t[lo..mid] && n[mid..hi] == t[mid..hi]
  {
    Halves(n, lo, mid, hi);
    Halves(t, lo, mid, hi);
  }

  /** The two sorted halves, merged, are the sorted slice. */
  lemma Assembled(n0: seq<int>, t0: seq<int>, n1: seq<int>, t1: seq<int>, n2: seq<int>, t2: seq<int>, t3: seq<int>,
                  lo: nat, mid: nat, hi: nat)
    requires lo + 1 < hi <= |n0| == |t0| && mid == (lo + hi) / 2 && n0[lo..mid] == t0[lo..mid]
    requires n0[mid..hi] == t0[mid..hi]
    requires Outside(n0, n1, lo, mid) && Outside(t0, t1, lo, mid) && n1[lo..mid] == Sort(t0[lo..mid])
    requires Outside(n1, n2, mid, hi) && Outside(t1, t2, mid, hi) && n2[mid..hi] == Sort(t1[mid..hi])
    requires Outside(t2, t3, lo, hi) && t3[lo..hi] == Merge(n2[lo..mid], n2[mid..hi])
    ensures t3[lo..hi] == Sort(n0[lo..hi]) && Outside(t0, t3, lo, hi) && Outside(n0, n2, lo, hi)
  {
    assert |n1| == |n2| == |n0| && |t1| == |t2| == |t3| == |t0|;
    hide Outside, Merge, Sort;
    OutsideSlice(t0, t1, lo, mid, mid, hi);
    OutsideSlice(n1, n2, mid, hi, lo, mid);
    OutsideTrans(n0, n1, n2, lo, mid, mid, hi, lo, hi);
    OutsideTrans(t0, t1, t2, lo, mid, mid, hi, lo, hi);
    OutsideTrans(t0, t2, t3, lo, hi, lo, hi, lo, hi);
    SortSlice(n0, lo, mid, hi);
  }

  /** merge_sort: a new array, sorted.  The old one is overwritten. */
  method MergeSort(nums: array<int>) returns (result: array<int>)
    modifies nums
    ensures fresh(result) && result[..] == Sort(old(nums[..]))
    ensures Sorted(result[..]) && multiset(result[..]) == old(multiset(nums[..]))
  {
    result := new int[nums.Length];
    Move(nums, 0, nums.Length, result, 0);
    assert result[..] == result[0..nums.Length] == nums[0..nums.Length] == nums[..];
    MergeSortAux(nums, 0, nums.Length, result);
    SortIsSorted(old(nums[..]));
    assert result[..] == result[..][0..nums.Length] && old(nums[..]) == old(nums[..])[0..nums.Length];
  }
}
