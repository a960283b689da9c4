/** Snapping a requested width to one of the widths the cache keeps. The source
    walks its widths from largest to smallest and stops at the first one that is
    too small; the reference definition below reads them from the smallest up. */
module Buckets {

  /** The widths in the order the source lists them: strictly decreasing, all positive. */
  predicate Descending(sizes: seq<int>) {
    (forall i, j :: 0 <= i < j < |sizes| ==> sizes[i] > sizes[j]) &&
    (forall i :: 0 <= i < |sizes| ==> sizes[i] > 0)
  }

  /** `(1920, 1366, 640, 200)` in thefractalspace/helpers.py. */
  const HelperSizes: seq<int> := [1920, 1366, 640, 200]

  /** `(1280, 640, 200)` in thefractalspace/app.py. */
  const AppSizes: seq<int> := [1280, 640, 200]

  /** Reference definition: the smallest width that is at least `size`, and the
      largest width when none is. */
  function Snap(sizes: seq<int>, size: int): (b: int)
    requires |sizes| > 0
    ensures b in sizes
  {
    var last := sizes[|sizes| - 1];
    if |sizes| == 1 || size <= last then last else Snap(sizes[..|sizes| - 1], size)
  }

  /** The source's loop: `new = sizes[0]; for s in sizes: if size <= s: new = s else: break`. */
  method SelectBucket(sizes: seq<int>, size: int) returns (bucket: int)
    requires |sizes| > 0 && Descending(sizes)
    ensures bucket == Snap(sizes, size)
  {
    bucket := sizes[0];
    var i := 0;
    while i < |sizes|
      invariant 0 <= i <= |sizes|
      invariant forall j :: 0 <= j < i ==> size <= sizes[j]
      invariant bucket == if i == 0 then sizes[0] else sizes[i - 1]
    {
      if size <= sizes[i] {
        bucket := sizes[i];
      } else {
        break;
      }
      i := i + 1;
    }
    SnapAt(sizes, size, if i == 0 then 0 else i - 1);
  }

  /** Snap picks index k when every width up to k fits the request and the next
      one (if any) does not. */
  lemma {:induction false} SnapAt(sizes: seq<int>, size: int, k: int)
    requires |sizes| > 0 && Descending(sizes) && 0 <= k < |sizes|
    requires k == 0 || size <= sizes[k]
    requires k == |sizes| - 1 || size > sizes[k + 1]
    ensures Snap(sizes, size) == sizes[k]
    decreases |sizes|
  {
    var n := |sizes|;
    if n > 1 && k < n - 1 {
      assert size > sizes[n - 1];
      SnapAt(sizes[..n - 1], size, k);
    }
  }

  /** Snap always lands on one of the widths, and on the least one that is at least
      the request; only a request above every width gets the largest width. */
  lemma {:induction false} SnapIsLeastFit(sizes: seq<int>, size: int)
    requires |sizes| > 0 && Descending(sizes)
    ensures Snap(sizes, size) in sizes
    ensures size <= sizes[0] ==> size <= Snap(sizes, size)
    ensures forall b :: b in sizes && size <= b ==> Snap(sizes, size) <= b
    ensures size > sizes[0] ==> Snap(sizes, size) == sizes[0]
    decreases |sizes|
  {
    var n := |sizes|;
    if n > 1 && size > sizes[n - 1] {
      var init := sizes[..n - 1];
      SnapIsLeastFit(init, size);
      assert forall b :: b in sizes && size <= b ==> b in init;
    }
  }

  /** A larger request never snaps to a smaller width. */
  lemma {:induction false} SnapMonotonic(sizes: seq<int>, s1: int, s2: int)
    requires |sizes| > 0 && Descending(sizes) && s1 <= s2
    ensures Snap(sizes, s1) <= Snap(sizes, s2)
    decreases |sizes|
  {
    var n := |sizes|;
    if n > 1 {
      var init := sizes[..n - 1];
      if s1 > sizes[n - 1] {
        SnapMonotonic(init, s1, s2);
      } else if s2 > sizes[n - 1] {
        SnapIsLeastFit(init, s2);
        assert Snap(init, s2) in init;
      }
    }
  }

  /** The four widths of the helpers, spelled out; sizes of 200 and below, zero and
      negative sizes included, get 200. */
  lemma HelperBuckets(size: int)
    ensures Snap(HelperSizes, size) ==
      if size <= 200 then 200 else if size <= 640 then 640 else if size <= 1366 then 1366 else 1920
  {
    assert Descending(HelperSizes);
    SnapAt(HelperSizes, size,
      if size <= 200 then 3 else if size <= 640 then 2 else if size <= 1366 then 1 else 0);
  }

  /** The three widths of app.py's `img`, spelled out. */
  lemma AppBuckets(size: int)
    ensures Snap(AppSizes, size) == if size <= 200 then 200 else if size <= 640 then 640 else 1280
  {
    assert Descending(AppSizes);
    SnapAt(AppSizes, size, if size <= 200 then 2 else if size <= 640 then 1 else 0);
  }

  /** `size * 9 // 16`: the 16:9 height rendered with a bucket's width. */
  function RenderHeight(width: nat): (h: nat)
    ensures 16 * h <= 9 * width < 16 * h + 16
  {
    width * 9 / 16
  }

  lemma BucketHeights()
    ensures RenderHeight(200) == 112 && RenderHeight(640) == 360 && RenderHeight(1280) == 720
    ensures RenderHeight(1366) == 768 && RenderHeight(1920) == 1080
  {
  }
}
