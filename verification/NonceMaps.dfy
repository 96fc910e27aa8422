/**
 Plain nonce-to-transaction maps and their nonce order: the reference that the
 heap-indexed account lists are proved against.
 */
module NonceMaps {
  import opened Transactions

  ghost predicate Keyed(m: map<nat, Tx>) {
    forall n :: n in m ==> m[n].nonce == n
  }

  function Below(m: map<nat, Tx>, t: nat): map<nat, Tx> {
    map n | n in m && n < t :: m[n]
  }

  function From(m: map<nat, Tx>, t: nat): map<nat, Tx> {
    map n | n in m && n >= t :: m[n]
  }

  /** The entries for which `p` fails, and those for which it holds. */
  function Reject(m: map<nat, Tx>, p: Tx -> bool): map<nat, Tx> {
    map n | n in m && !p(m[n]) :: m[n]
  }

  function Select(m: map<nat, Tx>, p: Tx -> bool): map<nat, Tx> {
    map n | n in m && p(m[n]) :: m[n]
  }

  /** `s` lists transactions of `m`, none twice. */
  ghost predicate Picks(s: seq<Tx>, m: map<nat, Tx>) {
    && (forall i :: 0 <= i < |s| ==> s[i].nonce in m && m[s[i].nonce] == s[i])
    && (forall i, j :: 0 <= i < j < |s| ==> s[i].nonce != s[j].nonce)
  }

  /** `s` lists the transactions of `m`, each once, in some order. */
  ghost predicate Arranges(s: seq<Tx>, m: map<nat, Tx>) {
    Picks(s, m) && |s| == |m|
  }

  ghost predicate Ascending(s: seq<Tx>) {
    forall i, j :: 0 <= i < j < |s| ==> s[i].nonce < s[j].nonce
  }

  /** `s` lists the transactions of `m` in nonce order. */
  ghost predicate Lists(s: seq<Tx>, m: map<nat, Tx>) {
    Arranges(s, m) && Ascending(s)
  }

  /** `kept` is `m` without its highest nonces, cut to at most `k` entries. */
  ghost predicate IsLowest(kept: map<nat, Tx>, m: map<nat, Tx>, k: nat) {
    && |kept| == (if |m| <= k then |m| else k)
    && exists t: nat :: kept == Below(m, t)
  }

  /** `m` is cut at nonce `c` into its lower part `lo` and its upper part `hi`. */
  ghost predicate Split(m: map<nat, Tx>, lo: map<nat, Tx>, hi: map<nat, Tx>, c: nat) {
    && (forall n :: n in m ==> if n < c then n in lo else n in hi)
    && (forall n :: n in lo ==> n in m && n < c && lo[n] == m[n])
    && (forall n :: n in hi ==> n in m && n >= c && hi[n] == m[n])
  }

  lemma SplitParts(m: map<nat, Tx>, lo: map<nat, Tx>, hi: map<nat, Tx>, c: nat)
    requires Split(m, lo, hi, c)
    ensures lo == Below(m, c) == m - hi.Keys && hi == From(m, c) == m - lo.Keys
  {
  }

  /** Moving the least entry of the upper part across moves the cut just past it. */
  lemma SplitUp(m: map<nat, Tx>, lo: map<nat, Tx>, hi: map<nat, Tx>, c: nat, n: nat)
    requires Split(m, lo, hi, c) && n in hi && forall k :: k in hi ==> n <= k
    ensures Split(m, lo[n := hi[n]], hi - {n}, n + 1)
  {
  }

  /** Moving the highest entry of the lower part across moves the cut down to it. */
  lemma SplitDown(m: map<nat, Tx>, lo: map<nat, Tx>, hi: map<nat, Tx>, c: nat, n: nat)
    requires Split(m, lo, hi, c) && n in lo && forall k :: k in lo ==> k <= n
    ensures Split(m, lo - {n}, hi[n := lo[n]], n)
  {
  }

  /** `m` holds every nonce from `a` up to `b`. */
  ghost predicate Consecutive(m: map<nat, Tx>, a: nat, b: nat) {
    a <= b && forall k :: a <= k < b ==> k in m
  }

  lemma ConsecutiveMore(m: map<nat, Tx>, a: nat, b: nat)
    requires Consecutive(m, a, b) && b in m
    ensures Consecutive(m, a, b + 1)
  {
  }

  /** The run of consecutive nonces of `m` that starts at `n` ends just before `e`. */
  ghost predicate IsRunEnd(m: map<nat, Tx>, n: nat, e: nat) {
    Consecutive(m, n, e) && e !in m
  }

  ghost function Nonces(s: seq<Tx>): set<nat> {
    set i | 0 <= i < |s| :: s[i].nonce
  }

  /** A list without repeated nonces has as many nonces as entries. */
  lemma {:induction false} NonceCount(s: seq<Tx>, m: map<nat, Tx>)
    requires Picks(s, m)
    ensures |Nonces(s)| == |s| && Nonces(s) <= m.Keys
  {
    if s != [] {
      var l := |s| - 1;
      NonceCount(s[..l], m);
      assert Nonces(s) == Nonces(s[..l]) + {s[l].nonce} by {
        assert s[l].nonce in Nonces(s);
        assert forall i :: 0 <= i < l ==> s[..l][i] == s[i];
      }
    }
  }

  /** No entry is missing from a full arrangement, and one that misses none is full. */
  lemma ArrangementCovers(s: seq<Tx>, m: map<nat, Tx>)
    requires Picks(s, m)
    ensures |s| == |m| <==> Nonces(s) == m.Keys
  {
    NonceCount(s, m);
    assert m.Keys == Nonces(s) + (m.Keys - Nonces(s));
    assert |m.Keys| == |Nonces(s)| + |m.Keys - Nonces(s)|;
  }

  lemma HeadIsLeast(s: seq<Tx>, m: map<nat, Tx>)
    requires Lists(s, m) && s != []
    ensures forall n :: n in m ==> s[0].nonce <= n
  {
    ArrangementCovers(s, m);
    forall n | n in m
      ensures s[0].nonce <= n
    {
      assert n in Nonces(s);
    }
  }

  lemma TailLists(s: seq<Tx>, m: map<nat, Tx>)
    requires Lists(s, m) && s != []
    ensures Lists(s[1..], m - {s[0].nonce})
  {
    var n, t := s[0].nonce, s[1..];
    assert forall i :: 0 <= i < |t| ==> t[i] == s[i + 1];
    assert m.Keys == (m - {n}).Keys + {n};
  }

  /** There is only one listing of a map in nonce order. */
  lemma {:induction false} ListingIsUnique(a: seq<Tx>, b: seq<Tx>, m: map<nat, Tx>)
    requires Lists(a, m) && Lists(b, m)
    ensures a == b
  {
    if a != [] {
      HeadIsLeast(a, m);
      HeadIsLeast(b, m);
      assert a[0] == b[0];
      TailLists(a, m);
      TailLists(b, m);
      ListingIsUnique(a[1..], b[1..], m - {a[0].nonce});
    }
  }

  lemma ArrangesMore(s: seq<Tx>, m: map<nat, Tx>, tx: Tx)
    requires Arranges(s, m) && tx.nonce !in m
    ensures Arranges(s + [tx], m[tx.nonce := tx])
  {
    assert m[tx.nonce := tx].Keys == m.Keys + {tx.nonce};
  }

  lemma ListsMore(s: seq<Tx>, m: map<nat, Tx>, tx: Tx)
    requires Lists(s, m) && forall n :: n in m ==> n < tx.nonce
    ensures Lists(s + [tx], m[tx.nonce := tx])
  {
    ArrangesMore(s, m, tx);
  }

  /** A slice of a listing that holds all nonces of a part of the map lists that part. */
  lemma SliceLists(s: seq<Tx>, m: map<nat, Tx>, a: nat, b: nat, part: map<nat, Tx>)
    requires Lists(s, m) && a <= b <= |s|
    requires forall n :: n in part ==> n in m && part[n] == m[n]
    requires forall i :: 0 <= i < |s| ==> (a <= i < b <==> s[i].nonce in part)
    ensures Lists(s[a..b], part)
  {
    var t := s[a..b];
    assert forall i :: 0 <= i < |t| ==> t[i] == s[i + a];
    assert Picks(t, part);
    ArrangementCovers(s, m);
    SliceCovers(s, m, a, b, part);
    ArrangementCovers(t, part);
  }

  lemma SliceCovers(s: seq<Tx>, m: map<nat, Tx>, a: nat, b: nat, part: map<nat, Tx>)
    requires Nonces(s) == m.Keys && a <= b <= |s|
    requires part.Keys <= m.Keys
    requires forall i :: 0 <= i < |s| ==> (a <= i < b <==> s[i].nonce in part)
    ensures Nonces(s[a..b]) == part.Keys
  {
    var t := s[a..b];
    forall n | n in part
      ensures n in Nonces(t)
    {
      assert n in Nonces(s);
      var i :| 0 <= i < |s| && s[i].nonce == n;
      assert t[i - a].nonce == n;
    }
    assert forall i :: 0 <= i < |t| ==> t[i] == s[i + a];
  }

  /** Cutting a listing in two lists the two parts of the map. */
  lemma ListingCut(s: seq<Tx>, m: map<nat, Tx>, t: nat) returns (k: nat)
    requires Lists(s, m)
    ensures k <= |s| && Lists(s[..k], Below(m, t)) && Lists(s[k..], From(m, t))
  {
    k := 0;
    while k < |s| && s[k].nonce < t
      invariant 0 <= k <= |s|
      invariant forall i :: 0 <= i < k ==> s[i].nonce < t
    {
      k := k + 1;
    }
    SliceLists(s, m, 0, k, Below(m, t));
    SliceLists(s, m, k, |s|, From(m, t));
    assert s[0..k] == s[..k] && s[k..|s|] == s[k..];
  }

  lemma LowestLists(s: seq<Tx>, m: map<nat, Tx>, kept: map<nat, Tx>, k: nat)
    requires Lists(s, m) && IsLowest(kept, m, k)
    ensures |kept| <= |s| && Lists(s[..|kept|], kept)
  {
    var t: nat :| kept == Below(m, t);
    var c := ListingCut(s, m, t);
  }
}
