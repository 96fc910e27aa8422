/** What the pool asks of Go's `sort.Sort`: an ordered permutation. */
module Sorting {
  import opened Heaps

  ghost predicate Sorted<T>(s: seq<T>, le: (T, T) -> bool) {
    forall i, j :: 0 <= i < j < |s| ==> le(s[i], s[j])
  }

  method Insert<T(!new)>(s: seq<T>, x: T, le: (T, T) -> bool) returns (r: seq<T>)
    requires TotalPreorder(le) && Sorted(s, le)
    ensures Sorted(r, le) && multiset(r) == multiset(s) + multiset{x}
  {
    var i := |s|;
    while i > 0 && !le(s[i - 1], x)
      invariant 0 <= i <= |s|
      invariant forall k :: i <= k < |s| ==> le(x, s[k])
    {
      i := i - 1;
    }
    Inserted(s, x, i, le);
    r := s[..i] + [x] + s[i..];
  }

  lemma Inserted<T(!new)>(s: seq<T>, x: T, i: nat, le: (T, T) -> bool)
    requires TotalPreorder(le) && Sorted(s, le) && i <= |s|
    requires i > 0 ==> le(s[i - 1], x)
    requires forall k :: i <= k < |s| ==> le(x, s[k])
    ensures Sorted(s[..i] + [x] + s[i..], le)
    ensures multiset(s[..i] + [x] + s[i..]) == multiset(s) + multiset{x}
  {
    var a, b := s[..i], s[i..];
    assert s == a + b;
    forall k | 0 <= k < i ensures le(a[k], x) {
      assert k < i - 1 ==> le(s[k], s[i - 1]);
    }
    SortedParts(a, x, b, le);
  }

  lemma SortedParts<T(!new)>(a: seq<T>, x: T, b: seq<T>, le: (T, T) -> bool)
    requires Sorted(a + b, le)
    requires forall k :: 0 <= k < |a| ==> le(a[k], x)
    requires forall k :: 0 <= k < |b| ==> le(x, b[k])
    ensures Sorted(a + [x] + b, le)
  {
    var r := a + [x] + b;
    forall i, j | 0 <= i < j < |r| ensures le(r[i], r[j]) {
      var i', j' := if i < |a| then i else i - 1, if j < |a| then j else j - 1;
      assert i != |a| && j != |a| ==> (a + b)[i'] == r[i] && (a + b)[j'] == r[j];
    }
  }

  method Sort<T(!new)>(s: seq<T>, le: (T, T) -> bool) returns (r: seq<T>)
    requires TotalPreorder(le)
    ensures Sorted(r, le) && multiset(r) == multiset(s)
  {
    r := [];
    for i := 0 to |s|
      invariant Sorted(r, le) && multiset(r) == multiset(s[..i])
    {
      r := Insert(r, s[i], le);
      assert s[..i + 1] == s[..i] + [s[i]];
    }
    assert s[..|s|] == s;
  }
}
