/**
 Binary heaps as Go's `container/heap` keeps them: a slice in which no element
 is less than its parent.  The nonce index of an account list and the price
 index of the pool are both held in this form.

 The order is a parameter: `le(a, b)` is the negation of Go's `Less(b, a)`.
 */
module Heaps {

  /** `le` is a total preorder, which is what `heap.Interface` demands of `Less`. */
  ghost predicate TotalPreorder<T(!new)>(le: (T, T) -> bool) {
    && (forall a, b :: le(a, b) || le(b, a))
    && (forall a, b, c :: le(a, b) && le(b, c) ==> le(a, c))
  }

  function Parent(k: nat): nat
    requires k > 0
  {
    (k - 1) / 2
  }

  /** The edge from the parent of `k` down to `k` respects the order. */
  predicate EdgeOk<T>(h: seq<T>, k: nat, le: (T, T) -> bool)
    requires 0 < k < |h|
  {
    le(h[Parent(k)], h[k])
  }

  ghost predicate Ordered<T>(h: seq<T>, le: (T, T) -> bool) {
    forall k :: 0 < k < |h| ==> EdgeOk(h, k, le)
  }

  /** Every edge inside the first `n` elements whose parent is at or below `lo` is fine, save those at `i`. */
  ghost predicate OrderedAround<T>(h: seq<T>, n: nat, lo: nat, i: nat, le: (T, T) -> bool)
    requires n <= |h|
  {
    && (forall k :: 0 < k < n && lo <= Parent(k) && k != i && Parent(k) != i ==> EdgeOk(h, k, le))
    && (i > 0 && lo <= Parent(i) ==>
          forall k :: 0 < k < n && Parent(k) == i ==> le(h[Parent(i)], h[k]))
  }

  /** The root of a heap is a least element. */
  lemma {:induction false} RootIsLeast<T(!new)>(h: seq<T>, k: nat, le: (T, T) -> bool)
    requires TotalPreorder(le) && Ordered(h, le) && k < |h|
    ensures le(h[0], h[k])
  {
    if k > 0 {
      assert EdgeOk(h, k, le);
      RootIsLeast(h, Parent(k), le);
    }
  }

  function Swapped<T>(h: seq<T>, i: nat, j: nat): (r: seq<T>)
    requires i < |h| && j < |h|
    ensures |r| == |h| && r[i] == h[j] && r[j] == h[i]
    ensures forall k :: 0 <= k < |h| && k != i && k != j ==> r[k] == h[k]
    ensures multiset(r) == multiset(h)
  {
    h[i := h[j]][j := h[i]]
  }

  /** Only the edge into `j` may be out of order, and what lies below `j` is above its parent. */
  ghost predicate OrderedBut<T>(h: seq<T>, j: nat, le: (T, T) -> bool) {
    && j < |h|
    && (forall k :: 0 < k < |h| && k != j ==> EdgeOk(h, k, le))
    && (j > 0 ==> forall k :: 0 < k < |h| && Parent(k) == j ==> le(h[Parent(j)], h[k]))
  }

  lemma UpStep<T(!new)>(q: seq<T>, j: nat, le: (T, T) -> bool)
    requires TotalPreorder(le) && OrderedBut(q, j, le) && j > 0 && !le(q[Parent(j)], q[j])
    ensures OrderedBut(Swapped(q, Parent(j), j), Parent(j), le)
  {
    var i := Parent(j);
    var r := Swapped(q, i, j);
    forall k | 0 < k < |r| && k != i
      ensures EdgeOk(r, k, le)
    {
      assert k != j ==> EdgeOk(q, k, le);
    }
    if i > 0 {
      forall k | 0 < k < |r| && Parent(k) == i
        ensures le(r[Parent(i)], r[k])
      {
        assert EdgeOk(q, i, le);
        assert k != j ==> EdgeOk(q, k, le);
      }
    }
  }

  /** `heap.up`: moves element `j0` towards the root. */
  method Up<T(!new)>(h: seq<T>, j0: nat, le: (T, T) -> bool) returns (r: seq<T>)
    requires TotalPreorder(le) && OrderedBut(h, j0, le)
    ensures multiset(r) == multiset(h) && |r| == |h|
    ensures Ordered(r, le)
  {
    r := h;
    var j := j0;
    while j > 0 && !le(r[Parent(j)], r[j])
      invariant |r| == |h| && multiset(r) == multiset(h) && OrderedBut(r, j, le)
    {
      UpStep(r, j, le);
      r, j := Swapped(r, Parent(j), j), Parent(j);
    }
  }

  /** The child of `i` that `heap.down` compares with: the right one only if it is strictly less. */
  function LeastChild<T>(h: seq<T>, i: nat, n: nat, le: (T, T) -> bool): (j: nat)
    requires 2 * i + 1 < n <= |h|
    ensures i < j < n && Parent(j) == i
  {
    if 2 * i + 2 < n && !le(h[2 * i + 1], h[2 * i + 2]) then 2 * i + 2 else 2 * i + 1
  }

  lemma LeastChildIsLeast<T(!new)>(h: seq<T>, i: nat, n: nat, le: (T, T) -> bool)
    requires TotalPreorder(le) && 2 * i + 1 < n <= |h|
    ensures forall k :: 0 < k < n && Parent(k) == i ==> le(h[LeastChild(h, i, n, le)], h[k])
  {
    forall k | 0 < k < n && Parent(k) == i
      ensures le(h[LeastChild(h, i, n, le)], h[k])
    {
      assert k == 2 * i + 1 || k == 2 * i + 2;
    }
  }

  /** `heap.down` on the first `n` elements, reporting whether the element at `i0` moved. */
  method Down<T(!new)>(h: seq<T>, i0: nat, n: nat, ghost lo: nat, le: (T, T) -> bool)
    returns (r: seq<T>, moved: bool)
    requires TotalPreorder(le) && lo <= i0 < n <= |h|
    requires OrderedAround(h, n, lo, i0, le)
    ensures multiset(r) == multiset(h) && |r| == |h|
    ensures forall k :: n <= k < |h| ==> r[k] == h[k]
    ensures !moved ==> r == h
    ensures forall k :: 0 < k < n && lo <= Parent(k) && (moved || k != i0) ==> EdgeOk(r, k, le)
  {
    r := h;
    var i := i0;
    while 2 * i + 1 < n && !le(r[i], r[LeastChild(r, i, n, le)])
      invariant i0 <= i < n <= |r| == |h| && multiset(r) == multiset(h)
      invariant forall k :: n <= k < |h| ==> r[k] == h[k]
      invariant i == i0 ==> r == h
      invariant OrderedAround(r, n, lo, i, le)
      invariant i > i0 ==> lo <= Parent(i) && EdgeOk(r, i, le)
      decreases n - i
    {
      var j := LeastChild(r, i, n, le);
      DownStep(r, n, lo, i0, i, le);
      r := Swapped(r, i, j);
      i := j;
    }
    DownStop(r, n, lo, i, le);
    moved := i > i0;
  }

  /** Once the element at `i` is no greater than its children, only the edge into `i` is in doubt. */
  lemma DownStop<T(!new)>(r: seq<T>, n: nat, lo: nat, i: nat, le: (T, T) -> bool)
    requires TotalPreorder(le) && i < n <= |r| && OrderedAround(r, n, lo, i, le)
    requires 2 * i + 1 < n ==> le(r[i], r[LeastChild(r, i, n, le)])
    ensures forall k :: 0 < k < n && lo <= Parent(k) && k != i ==> EdgeOk(r, k, le)
  {
    forall k | 0 < k < n && Parent(k) == i
      ensures EdgeOk(r, k, le)
    {
      assert k == 2 * i + 1 || k == 2 * i + 2;
      LeastChildIsLeast(r, i, n, le);
    }
  }

  /** One swap of `Down` moves the disturbed position from `i` to its least child. */
  lemma DownStep<T(!new)>(q: seq<T>, n: nat, lo: nat, i0: nat, i: nat, le: (T, T) -> bool)
    requires TotalPreorder(le) && lo <= i0 <= i < n <= |q|
    requires OrderedAround(q, n, lo, i, le)
    requires i > i0 ==> lo <= Parent(i) && EdgeOk(q, i, le)
    requires 2 * i + 1 < n && !le(q[i], q[LeastChild(q, i, n, le)])
    ensures var j := LeastChild(q, i, n, le);
            OrderedAround(Swapped(q, i, j), n, lo, j, le) && EdgeOk(Swapped(q, i, j), j, le)
  {
    var j := LeastChild(q, i, n, le);
    var r := Swapped(q, i, j);
    LeastChildIsLeast(q, i, n, le);
    forall k | 0 < k < n && lo <= Parent(k) && k != j && Parent(k) != j
      ensures EdgeOk(r, k, le)
    {
      if k != i && Parent(k) != i {
        assert EdgeOk(q, k, le);
      }
    }
    forall k | 0 < k < n && Parent(k) == j
      ensures le(r[Parent(j)], r[k])
    {
      assert EdgeOk(q, k, le);
    }
  }

  /** `heap.Init` */
  method Init<T(!new)>(h: seq<T>, le: (T, T) -> bool) returns (r: seq<T>)
    requires TotalPreorder(le)
    ensures multiset(r) == multiset(h) && |r| == |h|
    ensures Ordered(r, le)
  {
    r := h;
    var i := |h| / 2;
    while i > 0
      invariant 0 <= i <= |h| / 2 && |r| == |h| && multiset(r) == multiset(h)
      invariant forall k :: 0 < k < |r| && i <= Parent(k) ==> EdgeOk(r, k, le)
    {
      i := i - 1;
      var moved;
      r, moved := Down(r, i, |r|, i, le);
    }
  }

  /** `heap.Push` */
  method Push<T(!new)>(h: seq<T>, x: T, le: (T, T) -> bool) returns (r: seq<T>)
    requires TotalPreorder(le) && Ordered(h, le)
    ensures Ordered(r, le)
    ensures multiset(r) == multiset(h) + multiset{x}
  {
    var g := h + [x];
    forall k | 0 < k < |g| && k != |h|
      ensures EdgeOk(g, k, le)
    {
      assert EdgeOk(h, k, le);
    }
    r := Up(g, |h|, le);
  }

  /** `heap.Pop`: takes a least element. */
  method Pop<T(!new)>(h: seq<T>, le: (T, T) -> bool) returns (x: T, r: seq<T>)
    requires TotalPreorder(le) && Ordered(h, le) && h != []
    ensures Ordered(r, le)
    ensures x == h[0] && multiset(h) == multiset(r) + multiset{x}
    ensures forall y :: y in multiset(h) ==> le(x, y)
  {
    forall y | y in multiset(h) ensures le(h[0], y) {
      var k :| 0 <= k < |h| && h[k] == y;
      RootIsLeast(h, k, le);
    }
    r := RemoveAt(h, 0, le);
    x := h[0];
  }

  /** A heap without its last element is a heap. */
  lemma LastDropped<T(!new)>(h: seq<T>, lo: nat, le: (T, T) -> bool)
    requires h != [] && forall k :: 0 < k < |h| - 1 && k != lo ==> EdgeOk(h, k, le)
    ensures var r := h[..|h| - 1];
            && multiset(h) == multiset(r) + multiset{h[|h| - 1]}
            && forall k :: 0 < k < |r| && k != lo ==> EdgeOk(r, k, le)
  {
    var r := h[..|h| - 1];
    assert h == r + [h[|h| - 1]];
    forall k | 0 < k < |r| && k != lo ensures EdgeOk(r, k, le) {
      assert EdgeOk(h, k, le);
    }
  }

  /** `heap.Remove` */
  method RemoveAt<T(!new)>(h: seq<T>, i: nat, le: (T, T) -> bool) returns (r: seq<T>)
    requires TotalPreorder(le) && Ordered(h, le) && i < |h|
    ensures Ordered(r, le)
    ensures multiset(h) == multiset(r) + multiset{h[i]}
  {
    var n := |h| - 1;
    if i == n {
      LastDropped(h, |h|, le);
      return h[..n];
    }
    var g, moved := SiftHole(h, i, le);
    LastDropped(g, if moved then |h| else i, le);
    r := g[..n];
    if !moved {
      DisturbedChildren(h, r, i, le);
      r := Up(r, i, le);
    }
  }

  /** Swaps element `i` to the end and sifts what took its place down. */
  method SiftHole<T(!new)>(h: seq<T>, i: nat, le: (T, T) -> bool) returns (g: seq<T>, moved: bool)
    requires TotalPreorder(le) && Ordered(h, le) && i < |h| - 1
    ensures multiset(g) == multiset(h) && |g| == |h| && g[|h| - 1] == h[i]
    ensures forall k :: 0 < k < |h| - 1 && (moved || k != i) ==> EdgeOk(g, k, le)
    ensures !moved ==> g == Swapped(h, i, |h| - 1)
  {
    g := Swapped(h, i, |h| - 1);
    RemovalDisturbsOnePlace(h, g, i, |h| - 1, le);
    g, moved := Down(g, i, |h| - 1, 0, le);
  }

  lemma DisturbedChildren<T(!new)>(h: seq<T>, r: seq<T>, i: nat, le: (T, T) -> bool)
    requires TotalPreorder(le) && Ordered(h, le) && i < |h| - 1
    requires r == Swapped(h, i, |h| - 1)[..|h| - 1]
    ensures i > 0 ==> forall k :: 0 < k < |r| && Parent(k) == i ==> le(r[Parent(i)], r[k])
  {
    if i > 0 {
      forall k | 0 < k < |r| && Parent(k) == i
        ensures le(r[Parent(i)], r[k])
      {
        assert EdgeOk(h, k, le) && EdgeOk(h, i, le);
      }
    }
  }

  lemma RemovalDisturbsOnePlace<T(!new)>(h: seq<T>, g: seq<T>, i: nat, n: nat, le: (T, T) -> bool)
    requires TotalPreorder(le) && Ordered(h, le) && i < n == |h| - 1
    requires g == Swapped(h, i, n)
    ensures OrderedAround(g, n, 0, i, le)
  {
    forall k | 0 < k < n && k != i && Parent(k) != i
      ensures EdgeOk(g, k, le)
    {
      assert EdgeOk(h, k, le);
    }
    if i > 0 {
      forall k | 0 < k < n && Parent(k) == i
        ensures le(g[Parent(i)], g[k])
      {
        assert EdgeOk(h, k, le) && EdgeOk(h, i, le);
      }
    }
  }
}
