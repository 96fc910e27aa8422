/**
 `txSortedMap`: a nonce-to-transaction map with a heap of its nonces and a
 cached nonce-ordered copy.  Every method is stated on the plain map; the heap
 and the cache are redundant, and `Valid` says that they agree with it.
 */
module SortedMaps {
  import opened Heaps
  import opened NonceMaps
  import opened Sorting
  import opened Transactions

  const NonceLe := (a: nat, b: nat) => a <= b

  const TxNonceLe := (a: Tx, b: Tx) => a.nonce <= b.nonce

  /** The heap holds each key of the map exactly once. */
  ghost predicate IndexOk(index: seq<nat>, keys: set<nat>) {
    Ordered(index, NonceLe) && multiset(index) == multiset(keys)
  }

  /** `n` is the least nonce of `m`. */
  ghost predicate IsLeast(m: map<nat, Tx>, n: nat) {
    n in m && forall k :: k in m ==> n <= k
  }

  /**
   `Ready(start)` takes what lies below `e`: the maximal consecutive run from
   the least nonce if that is at most `start`, and otherwise nothing.
   */
  ghost predicate IsReadyEnd(m: map<nat, Tx>, start: nat, e: nat) {
    if exists n: nat :: IsLeast(m, n) && n <= start then
      exists n: nat :: IsLeast(m, n) && IsRunEnd(m, n, e)
    else
      e == 0
  }

  class TxSortedMap {
    var items: map<nat, Tx>
    var index: seq<nat>
    var cache: Option<seq<Tx>>

    ghost predicate Valid()
      reads this
    {
      && Keyed(items)
      && IndexOk(index, items.Keys)
      && (cache.Some? ==> Lists(cache.value, items))
    }

    constructor ()
      ensures Valid() && items == map[]
    {
      items, index, cache := map[], [], None;
      new;
      assert multiset(items.Keys) == multiset{};
    }

    method Get(nonce: nat) returns (r: Option<Tx>)
      ensures r == if nonce in items then Some(items[nonce]) else None
    {
      r := if nonce in items then Some(items[nonce]) else None;
    }

    method Put(tx: Tx)
      requires Valid()
      modifies this
      ensures Valid()
      ensures items == old(items)[tx.nonce := tx]
    {
      if tx.nonce !in items {
        index := Push(index, tx.nonce, NonceLe);
        AddedKey(items.Keys, tx.nonce);
      }
      assert tx.nonce in items ==> items[tx.nonce := tx].Keys == items.Keys;
      assert items[tx.nonce := tx].Keys == items.Keys + {tx.nonce};
      items, cache := items[tx.nonce := tx], None;
    }

    /** Drops every transaction below `threshold`, in nonce order. */
    method Forward(threshold: nat) returns (removed: seq<Tx>)
      requires Valid()
      modifies this
      ensures Valid()
      ensures items == From(old(items), threshold)
      ensures Lists(removed, Below(old(items), threshold))
    {
      removed, items, index := PopBelow(items, index, threshold);
      if cache.Some? {
        ghost var k := ListingCut(cache.value, old(items), threshold);
        cache := Some(cache.value[|removed|..]);
      }
    }

    /** Drops every transaction for which `p` holds. */
    method Filter(p: Tx -> bool) returns (removed: seq<Tx>)
      requires Valid()
      modifies this
      ensures Valid()
      ensures items == Reject(old(items), p)
      ensures Arranges(removed, Select(old(items), p))
    {
      removed, items := Sift(items, p);
      if |removed| > 0 {
        var nonces := SomeArrangement(items.Keys);
        index := Init(nonces, NonceLe);
        cache := None;
      } else {
        NothingSelected(old(items), p);
      }
    }

    /** Keeps the `threshold` lowest nonces and returns the rest, highest first. */
    method Cap(threshold: nat) returns (drops: seq<Tx>)
      requires Valid()
      modifies this
      ensures Valid()
      ensures IsLowest(items, old(items), threshold)
      ensures Arranges(drops, old(items) - items.Keys) && Descending(drops)
    {
      if |items| <= threshold {
        NothingCut(items, threshold);
        return [];
      }
      drops, items, index := CutAndReindex(items, index, threshold);
      if cache.Some? {
        CutCache(cache.value, old(items), items, drops, threshold);
        cache := Some(cache.value[..|cache.value| - |drops|]);
      }
    }

    /** Deletes one nonce, reporting whether it was there. */
    method Remove(nonce: nat) returns (found: bool)
      requires Valid()
      modifies this
      ensures Valid()
      ensures found <==> nonce in old(items)
      ensures items == old(items) - {nonce}
    {
      if nonce !in items {
        return false;
      }
      KeyIsIndexed(index, items.Keys, nonce);
      var i := Position(index, nonce);
      index := RemoveAt(index, i, NonceLe);
      RemovedKey(items.Keys, nonce);
      assert (items - {nonce}).Keys == items.Keys - {nonce};
      items, cache := items - {nonce}, None;
      found := true;
    }

    /** Takes the maximal consecutive run from the least nonce, provided that nonce is at most `start`. */
    method Ready(start: nat) returns (ready: seq<Tx>, ghost e: nat)
      requires Valid()
      modifies this
      ensures Valid()
      ensures IsReadyEnd(old(items), start, e)
      ensures items == From(old(items), e) && Lists(ready, Below(old(items), e))
    {
      TopIsLeast(index, items.Keys);
      if |index| == 0 || index[0] > start {
        assert items == From(items, 0) && Below(items, 0) == map[];
        return [], 0;
      }
      ready, items, index, e := PopRun(items, index);
      cache := None;
    }

    /** The contents in nonce order. */
    method Flatten() returns (txs: seq<Tx>)
      requires Valid()
      modifies this`cache
      ensures Valid()
      ensures Lists(txs, items)
    {
      if cache.None? {
        var all, rest := Sift(items, tx => true);
        assert Select(items, tx => true) == items;
        var sorted := Sort(all, TxNonceLe);
        SortedArrangement(all, sorted, items);
        cache := Some(sorted);
      }
      txs := cache.value;
    }
  }

  /** The scan of `Remove` for a nonce that the heap is known to hold. */
  method Position(index: seq<nat>, nonce: nat) returns (i: nat)
    requires nonce in index
    ensures i < |index| && index[i] == nonce
  {
    i := 0;
    while index[i] != nonce
      invariant i < |index| && nonce in index[i..]
      decreases |index| - i
    {
      i := i + 1;
    }
  }

  /** Removes the least nonce from the heap and the map. */
  method PopLeast(items: map<nat, Tx>, index: seq<nat>)
    returns (tx: Tx, rest: map<nat, Tx>, index': seq<nat>)
    requires Keyed(items) && IndexOk(index, items.Keys) && index != []
    ensures Keyed(rest) && IndexOk(index', rest.Keys)
    ensures IsLeast(items, tx.nonce) && tx == items[tx.nonce] && tx.nonce == index[0]
    ensures rest == items - {tx.nonce} && |rest| == |items| - 1
  {
    TopIsLeast(index, items.Keys);
    var nonce;
    nonce, index' := Pop(index, NonceLe);
    RemovedKey(items.Keys, nonce);
    tx := items[nonce];
    rest := items - {nonce};
    assert rest.Keys == items.Keys - {nonce};
  }

  /** What the popping loops keep: `gone`, listed by `done`, is the part below `c`; the rest is still indexed. */
  ghost predicate Popped(items: map<nat, Tx>, gone: map<nat, Tx>, done: seq<Tx>, rest: map<nat, Tx>, index: seq<nat>,
                         c: nat) {
    && Keyed(rest) && IndexOk(index, rest.Keys)
    && Split(items, gone, rest, c) && Lists(done, gone)
  }

  lemma PoppedMore(items: map<nat, Tx>, gone: map<nat, Tx>, done: seq<Tx>, rest: map<nat, Tx>, index: seq<nat>, c: nat,
                   tx: Tx, rest': map<nat, Tx>, index': seq<nat>)
    requires Popped(items, gone, done, rest, index, c)
    requires IsLeast(rest, tx.nonce) && tx == rest[tx.nonce] && rest' == rest - {tx.nonce}
    requires Keyed(rest') && IndexOk(index', rest'.Keys)
    ensures Popped(items, gone[tx.nonce := tx], done + [tx], rest', index', tx.nonce + 1)
    ensures tx.nonce in items && c <= tx.nonce
  {
    SplitUp(items, gone, rest, c, tx.nonce);
    ListsMore(done, gone, tx);
  }

  lemma PoppedEnd(items: map<nat, Tx>, gone: map<nat, Tx>, done: seq<Tx>, rest: map<nat, Tx>, index: seq<nat>, c: nat,
                  t: nat)
    requires Popped(items, gone, done, rest, index, c) && c <= t
    requires index != [] ==> index[0] >= t
    ensures rest == From(items, t) && Lists(done, Below(items, t))
  {
    TopIsLeast(index, rest.Keys);
    assert Split(items, gone, rest, t);
    SplitParts(items, gone, rest, t);
  }

  /** The loop of `Forward`: pops nonces off the heap until the threshold is reached. */
  method PopBelow(items: map<nat, Tx>, index: seq<nat>, threshold: nat)
    returns (removed: seq<Tx>, rest: map<nat, Tx>, index': seq<nat>)
    requires Keyed(items) && IndexOk(index, items.Keys)
    ensures Keyed(rest) && IndexOk(index', rest.Keys)
    ensures rest == From(items, threshold) && Lists(removed, Below(items, threshold))
  {
    removed, rest, index' := [], items, index;
    ghost var gone: map<nat, Tx>, c: nat := map[], 0;
    while |index'| > 0 && index'[0] < threshold
      invariant Popped(items, gone, removed, rest, index', c) && c <= threshold
      decreases |rest|
    {
      ghost var r, h := rest, index';
      var tx;
      tx, rest, index' := PopLeast(rest, index');
      PoppedMore(items, gone, removed, r, h, c, tx, rest, index');
      removed, gone, c := removed + [tx], gone[tx.nonce := tx], tx.nonce + 1;
    }
    PoppedEnd(items, gone, removed, rest, index', c, threshold);
  }

  /** The loop of `Ready`: pops nonces while they are consecutive. */
  method PopRun(items: map<nat, Tx>, index: seq<nat>)
    returns (ready: seq<Tx>, rest: map<nat, Tx>, index': seq<nat>, ghost e: nat)
    requires Keyed(items) && IndexOk(index, items.Keys) && index != []
    ensures Keyed(rest) && IndexOk(index', rest.Keys)
    ensures IsLeast(items, index[0]) && IsRunEnd(items, index[0], e)
    ensures rest == From(items, e) && Lists(ready, Below(items, e))
  {
    TopIsLeast(index, items.Keys);
    ready, rest, index' := [], items, index;
    var next: nat := index[0];
    ghost var gone: map<nat, Tx> := map[];
    while |index'| > 0 && index'[0] == next
      invariant Popped(items, gone, ready, rest, index', next)
      invariant Consecutive(items, index[0], next)
      decreases |rest|
    {
      ghost var r, h := rest, index';
      var tx;
      tx, rest, index' := PopLeast(rest, index');
      PoppedMore(items, gone, ready, r, h, next, tx, rest, index');
      ConsecutiveMore(items, index[0], next);
      ready, gone := ready + [tx], gone[tx.nonce := tx];
      next := next + 1;
    }
    e := next;
    RunStops(items, gone, ready, rest, index', next);
  }

  lemma RunStops(items: map<nat, Tx>, gone: map<nat, Tx>, done: seq<Tx>, rest: map<nat, Tx>, index: seq<nat>, next: nat)
    requires Popped(items, gone, done, rest, index, next) && (index != [] ==> index[0] != next)
    ensures next !in items
    ensures rest == From(items, next) && Lists(done, Below(items, next))
  {
    TopIsLeast(index, rest.Keys);
    SplitParts(items, gone, rest, next);
  }

  /** Sorts a map's entries, visited in an order the caller cannot rely on, by a predicate. */
  method Sift(items: map<nat, Tx>, p: Tx -> bool) returns (removed: seq<Tx>, rest: map<nat, Tx>)
    requires Keyed(items)
    ensures rest == Reject(items, p) && Keyed(rest)
    ensures Arranges(removed, Select(items, p))
  {
    var todo := items.Keys;
    ghost var gone: map<nat, Tx> := map[];
    removed, rest := [], items;
    while todo != {}
      invariant todo <= rest.Keys
      invariant Partition(items, gone, rest) && Arranges(removed, gone)
      invariant forall n :: n in gone ==> p(items[n])
      invariant forall n :: n in rest && n !in todo ==> !p(items[n])
    {
      var nonce :| nonce in todo;
      if p(rest[nonce]) {
        ArrangesMore(removed, gone, rest[nonce]);
        removed, gone := removed + [rest[nonce]], gone[nonce := rest[nonce]];
        rest := rest - {nonce};
      }
      todo := todo - {nonce};
    }
    assert gone == Select(items, p) && rest == Reject(items, p);
  }

  /** Sorts the index, drops the highest nonces and rebuilds the heap from what is left of it. */
  method CutAndReindex(items: map<nat, Tx>, index: seq<nat>, threshold: nat)
    returns (drops: seq<Tx>, rest: map<nat, Tx>, index': seq<nat>)
    requires Keyed(items) && IndexOk(index, items.Keys) && threshold < |items|
    ensures Keyed(rest) && IndexOk(index', rest.Keys)
    ensures IsLowest(rest, items, threshold)
    ensures Arranges(drops, items - rest.Keys) && Descending(drops)
  {
    var sorted := Sort(index, NonceLe);
    SortedIndex(sorted, items.Keys);
    drops, rest := CutHighest(items, sorted, threshold);
    EnumerationIsIndex(sorted[..threshold], rest.Keys);
    index' := Init(sorted[..threshold], NonceLe);
  }

  ghost predicate Increasing(s: seq<nat>) {
    forall i, j :: 0 <= i < j < |s| ==> s[i] < s[j]
  }

  /** `sorted` lists `keys` in increasing order. */
  ghost predicate Enumerates(sorted: seq<nat>, keys: set<nat>) {
    Increasing(sorted) && |sorted| == |keys| && forall i :: 0 <= i < |sorted| ==> sorted[i] in keys
  }

  lemma {:induction false} ElementCount(s: seq<nat>)
    requires Increasing(s)
    ensures |set i | 0 <= i < |s| :: s[i]| == |s|
  {
    if s != [] {
      var l := |s| - 1;
      ElementCount(s[..l]);
      assert (set i | 0 <= i < |s| :: s[i]) == (set i | 0 <= i < l :: s[..l][i]) + {s[l]};
    }
  }

  lemma LastIsHighest(sorted: seq<nat>, keys: set<nat>)
    requires Enumerates(sorted, keys) && sorted != []
    ensures forall k :: k in keys ==> k <= sorted[|sorted| - 1]
  {
    var elems := set i | 0 <= i < |sorted| :: sorted[i];
    ElementCount(sorted);
    assert keys == elems + (keys - elems);
  }

  /** The nonce at which a map sorted as `sorted` is cut to its `size` lowest entries. */
  ghost function CutNonce(sorted: seq<nat>, size: nat): nat
    requires size <= |sorted|
  {
    if size < |sorted| then sorted[size] else if sorted == [] then 0 else sorted[|sorted| - 1] + 1
  }

  /** The loop of `Cap`: drops from the end of the sorted index. */
  method CutHighest(items: map<nat, Tx>, sorted: seq<nat>, threshold: nat)
    returns (drops: seq<Tx>, rest: map<nat, Tx>)
    requires Keyed(items) && Enumerates(sorted, items.Keys) && threshold < |items|
    ensures Keyed(rest) && IsLowest(rest, items, threshold)
    ensures Enumerates(sorted[..threshold], rest.Keys)
    ensures Arranges(drops, items - rest.Keys) && Descending(drops)
  {
    drops, rest := [], items;
    var size := |items|;
    ghost var gone: map<nat, Tx> := map[];
    CutStart(items, sorted);
    while size > threshold
      invariant threshold <= size <= |sorted| && CutTo(items, gone, drops, rest, sorted, size)
    {
      CutMore(items, gone, drops, rest, sorted, size);
      size := size - 1;
      var nonce := sorted[size];
      gone := gone[nonce := rest[nonce]];
      drops, rest := drops + [rest[nonce]], rest - {nonce};
    }
    SplitParts(items, rest, gone, sorted[size]);
  }

  /** What the cutting loop keeps: `rest` are the `size` lowest entries and `drops` lists the others. */
  ghost predicate CutTo(items: map<nat, Tx>, gone: map<nat, Tx>, drops: seq<Tx>, rest: map<nat, Tx>,
                        sorted: seq<nat>, size: nat)
    requires size <= |sorted|
  {
    && |rest| == size && Split(items, rest, gone, CutNonce(sorted, size))
    && Arranges(drops, gone) && Descending(drops)
  }

  lemma CutStart(items: map<nat, Tx>, sorted: seq<nat>)
    requires Enumerates(sorted, items.Keys) && items != map[]
    ensures CutTo(items, map[], [], items, sorted, |items|)
  {
    LastIsHighest(sorted, items.Keys);
  }

  lemma PrefixEnumerates(items: map<nat, Tx>, rest: map<nat, Tx>, gone: map<nat, Tx>, sorted: seq<nat>, size: nat)
    requires Enumerates(sorted, items.Keys) && size <= |sorted| && |rest| == size
    requires Split(items, rest, gone, CutNonce(sorted, size))
    ensures Enumerates(sorted[..size], rest.Keys)
  {
  }

  lemma HighestKept(items: map<nat, Tx>, rest: map<nat, Tx>, gone: map<nat, Tx>, sorted: seq<nat>, size: nat)
    requires Enumerates(sorted, items.Keys) && 0 < size <= |sorted| && |rest| == size
    requires Split(items, rest, gone, CutNonce(sorted, size))
    ensures sorted[size - 1] in rest && forall k :: k in rest ==> k <= sorted[size - 1]
  {
    PrefixEnumerates(items, rest, gone, sorted, size);
    LastIsHighest(sorted[..size], rest.Keys);
    assert sorted[..size][size - 1] == sorted[size - 1];
  }

  lemma DropsMore(drops: seq<Tx>, gone: map<nat, Tx>, tx: Tx)
    requires Arranges(drops, gone) && Descending(drops) && forall n :: n in gone ==> n > tx.nonce
    ensures Arranges(drops + [tx], gone[tx.nonce := tx]) && Descending(drops + [tx])
  {
    ArrangesMore(drops, gone, tx);
  }

  lemma CutMore(items: map<nat, Tx>, gone: map<nat, Tx>, drops: seq<Tx>, rest: map<nat, Tx>,
                sorted: seq<nat>, size: nat)
    requires 0 < size <= |sorted| && CutTo(items, gone, drops, rest, sorted, size)
    requires Keyed(items) && Enumerates(sorted, items.Keys)
    ensures sorted[size - 1] in rest
    ensures var n := sorted[size - 1];
            CutTo(items, gone[n := rest[n]], drops + [rest[n]], rest - {n}, sorted, size - 1)
  {
    var n := sorted[size - 1];
    HighestKept(items, rest, gone, sorted, size);
    DropsMore(drops, gone, rest[n]);
    SplitDown(items, rest, gone, CutNonce(sorted, size), n);
    assert (rest - {n}).Keys == rest.Keys - {n};
  }

  lemma {:induction false} Bound(s: set<nat>) returns (t: nat)
    ensures forall n :: n in s ==> n < t
  {
    t := 0;
    if s != {} {
      var n :| n in s;
      assert s == (s - {n}) + {n};
      t := Bound(s - {n});
      t := if t <= n then n + 1 else t;
    }
  }

  lemma NothingCut(m: map<nat, Tx>, k: nat)
    requires |m| <= k
    ensures IsLowest(m, m, k) && m - m.Keys == map[]
  {
    var t := Bound(m.Keys);
    assert m == Below(m, t);
  }

  lemma CutCache(s: seq<Tx>, m: map<nat, Tx>, kept: map<nat, Tx>, drops: seq<Tx>, k: nat)
    requires Lists(s, m) && IsLowest(kept, m, k) && Arranges(drops, m - kept.Keys)
    ensures |drops| <= |s| && Lists(s[..|s| - |drops|], kept)
  {
    LowestLists(s, m, kept, k);
    assert m.Keys == kept.Keys + (m - kept.Keys).Keys;
  }

  ghost predicate Descending(s: seq<Tx>) {
    forall i, j :: 0 <= i < j < |s| ==> s[i].nonce > s[j].nonce
  }

  /** `m` is the disjoint union of `a` and `b`. */
  ghost predicate Partition(m: map<nat, Tx>, a: map<nat, Tx>, b: map<nat, Tx>) {
    && (forall n :: n in m ==> n in a || n in b)
    && (forall n :: n in a ==> n in m && n !in b && a[n] == m[n])
    && (forall n :: n in b ==> n in m && b[n] == m[n])
  }

  lemma NothingSelected(m: map<nat, Tx>, p: Tx -> bool)
    requires |Select(m, p)| == 0
    ensures Reject(m, p) == m
  {
    assert forall n :: n in m ==> n !in Select(m, p);
  }

  lemma AddedKey(keys: set<nat>, n: nat)
    requires n !in keys
    ensures multiset(keys + {n}) == multiset(keys) + multiset{n}
  {
  }

  lemma RemovedKey(keys: set<nat>, n: nat)
    requires n in keys
    ensures multiset(keys - {n}) == multiset(keys) - multiset{n}
  {
  }

  lemma KeyIsIndexed(index: seq<nat>, keys: set<nat>, n: nat)
    requires multiset(index) == multiset(keys)
    ensures n in keys <==> n in index
    ensures |index| == |keys|
  {
    assert n in multiset(index) <==> n in index;
    assert |multiset(index)| == |multiset(keys)|;
  }

  lemma TopIsLeast(index: seq<nat>, keys: set<nat>)
    requires IndexOk(index, keys)
    ensures index == [] <==> keys == {}
    ensures index != [] ==> index[0] in keys && forall k :: k in keys ==> index[0] <= k
  {
    forall k
      ensures k in keys <==> k in index
    {
      KeyIsIndexed(index, keys, k);
    }
    forall i | 0 <= i < |index|
      ensures index[0] <= index[i]
    {
      RootIsLeast(index, i, NonceLe);
    }
    KeyIsIndexed(index, keys, 0);
  }

  /** Go's iteration over a map's keys: every key once, in an order the caller cannot rely on. */
  method SomeArrangement(keys: set<nat>) returns (s: seq<nat>)
    ensures multiset(s) == multiset(keys)
  {
    s := [];
    var todo := keys;
    while todo != {}
      invariant todo <= keys
      invariant multiset(s) == multiset(keys - todo)
    {
      var n :| n in todo;
      s := s + [n];
      AddedKey(keys - todo, n);
      assert keys - (todo - {n}) == (keys - todo) + {n};
      todo := todo - {n};
    }
    assert keys - todo == keys;
  }

  /** A sorted index is strictly increasing, for it holds no key twice. */
  lemma SortedIndex(sorted: seq<nat>, keys: set<nat>)
    requires Sorted(sorted, NonceLe) && multiset(sorted) == multiset(keys)
    ensures Enumerates(sorted, keys)
  {
    KeyIsIndexed(sorted, keys, 0);
    forall i | 0 <= i < |sorted| ensures sorted[i] in keys {
      KeyIsIndexed(sorted, keys, sorted[i]);
    }
    forall i, j | 0 <= i < j < |sorted|
      ensures sorted[i] < sorted[j]
    {
      OncePerKey(sorted, keys, i, j);
    }
  }

  /** What lists a set in increasing order holds each of its elements once. */
  lemma {:induction false} EnumerationIsIndex(s: seq<nat>, keys: set<nat>)
    requires Enumerates(s, keys)
    ensures multiset(s) == multiset(keys)
  {
    if s == [] {
      assert keys == {};
    } else {
      var l := |s| - 1;
      assert s == s[..l] + [s[l]];
      EnumerationIsIndex(s[..l], keys - {s[l]});
      RemovedKey(keys, s[l]);
    }
  }

  lemma OncePerKey(s: seq<nat>, keys: set<nat>, i: nat, j: nat)
    requires multiset(s) == multiset(keys) && i < j < |s|
    ensures s[i] != s[j]
  {
    if s[i] == s[j] {
      TwoCopies(s, i, j);
    }
  }

  lemma TwoCopies<T>(s: seq<T>, i: nat, j: nat)
    requires i < j < |s| && s[i] == s[j]
    ensures multiset(s)[s[i]] >= 2
  {
    assert s == s[..j] + [s[j]] + s[j + 1..];
    assert s[..j][i] == s[i];
  }

  lemma {:induction false} OneCopy(s: seq<Tx>, x: Tx)
    requires forall i, j :: 0 <= i < j < |s| ==> s[i] != s[j]
    ensures multiset(s)[x] <= 1
  {
    if s != [] {
      var l := |s| - 1;
      assert s == s[..l] + [s[l]];
      OneCopy(s[..l], x);
    }
  }

  lemma SortedArrangement(all: seq<Tx>, sorted: seq<Tx>, m: map<nat, Tx>)
    requires Arranges(all, m) && Sorted(sorted, TxNonceLe) && multiset(sorted) == multiset(all)
    ensures Lists(sorted, m)
  {
    assert |multiset(sorted)| == |multiset(all)|;
    forall i | 0 <= i < |sorted|
      ensures sorted[i].nonce in m && m[sorted[i].nonce] == sorted[i]
    {
      assert sorted[i] in multiset(all);
    }
    forall i, j | 0 <= i < j < |sorted|
      ensures sorted[i].nonce != sorted[j].nonce
    {
      OneCopy(all, sorted[i]);
      if sorted[i] == sorted[j] {
        TwoCopies(sorted, i, j);
      }
    }
  }
}
