/**
 * Ordering on integer sequences: Python's `sorted` on a list of ints and
 * `bisect.bisect_left`, the two library routines the allow-list relies on.
 */
module Seqs {

  /** Non-decreasing order, the order `sorted` produces and `bisect` expects. */
  ghost predicate Ascending(s: seq<int>)
  {
    forall i, j :: 0 <= i < j < |s| ==> s[i] <= s[j]
  }

  /** Places `x` in front of the first element that is not smaller than it. */
  function Insert(x: int, s: seq<int>): (r: seq<int>)
    requires Ascending(s)
    ensures Ascending(r)
    ensures multiset(r) == multiset(s) + multiset{x}
    ensures |r| == |s| + 1 && (r[0] == x || (s != [] && r[0] == s[0]))
  {
    if s == [] || x <= s[0] then [x] + s
    else
      var rest := Insert(x, s[1..]);
      assert s == [s[0]] + s[1..];
      assert s[0] <= rest[0];
      assert forall k :: 0 <= k < |rest| ==> rest[0] <= rest[k];
      [s[0]] + rest
  }

  /** `sorted(s)` on integers: an ascending permutation of `s`. */
  function Sort(s: seq<int>): (r: seq<int>)
    ensures Ascending(r)
    ensures multiset(r) == multiset(s)
    ensures |r| == |s|
  {
    if s == [] then []
    else
      assert s == [s[0]] + s[1..];
      Insert(s[0], Sort(s[1..]))
  }

  /**
   * `bisect_left(a, x, lo, hi)`: the halving search of Python's bisect module.
   * On an ascending `a` the result splits `a[lo..hi]` into the part below `x`
   * and the part at or above `x`.
   */
  function BisectLeft(a: seq<int>, x: int, lo: nat, hi: nat): (i: nat)
    requires lo <= hi <= |a|
    ensures lo <= i <= hi
    ensures Ascending(a) ==> forall k :: lo <= k < i ==> a[k] < x
    ensures Ascending(a) ==> forall k :: i <= k < hi ==> x <= a[k]
    decreases hi - lo
  {
    if lo < hi then
      var mid := (lo + hi) / 2;
      if a[mid] < x then BisectLeft(a, x, mid + 1, hi) else BisectLeft(a, x, lo, mid)
    else lo
  }
}
