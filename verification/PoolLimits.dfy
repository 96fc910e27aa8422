/**
 The size limits of the pool: how many transactions the lists hold in total,
 and what evicting the highest nonces of the largest senders does to them.
 */
module PoolLimits {
  import opened NonceMaps
  import opened PoolState
  import opened PoolSteps
  import Pricing
  import opened SortedMaps
  import opened Transactions

  function Size(m: ListMap, a: Address): nat {
    |Items(m, a)|
  }

  /** The number of transactions in all lists. */
  ghost function Total(m: ListMap): nat {
    if m == map[] then 0
    else
      var a :| a in m;
      Size(m, a) + Total(m - {a})
  }

  lemma {:induction false} TotalWithout(m: ListMap, a: Address)
    requires a in m
    ensures Total(m) == Size(m, a) + Total(m - {a})
  {
    var b :| b in m && Total(m) == Size(m, b) + Total(m - {b});
    if a != b {
      TotalWithout(m - {b}, a);
      TotalWithout(m - {a}, b);
      assert Size(m - {b}, a) == Size(m, a) && Size(m - {a}, b) == Size(m, b);
      assert m - {a} - {b} == m - {b} - {a};
    }
  }

  lemma TotalAt(m: ListMap, a: Address)
    ensures Total(m) == Size(m, a) + Total(m - {a})
  {
    if a in m {
      TotalWithout(m, a);
    } else {
      assert m - {a} == m;
    }
  }

  // ----- lists and index hold equally many -----

  /** The transactions in all lists. */
  ghost function Listing(m: ListMap): set<Tx> {
    set a, n | a in m && n in m[a].items :: m[a].items[n]
  }

  lemma {:induction false} ValuesCount<K(!new), V>(m: map<K, V>)
    requires forall k, l :: k in m && l in m && m[k] == m[l] ==> k == l
    ensures |m.Values| == |m|
    decreases |m|
  {
    if m != map[] {
      var k :| k in m;
      var rest := m - {k};
      assert m.Keys == rest.Keys + {k};
      ValuesCount(rest);
      forall v ensures v in m.Values <==> v in rest.Values + {m[k]} {
        assert v in m.Values ==> exists l :: l in m && m[l] == v;
        assert v in rest.Values ==> exists l :: l in rest && rest[l] == v;
      }
      assert m.Values == rest.Values + {m[k]};
    }
  }

  ghost predicate AllOwned(m: ListMap) {
    forall a :: a in m ==> Owned(a, m[a].items)
  }

  lemma ListingIsHeld(m: ListMap, tx: Tx)
    requires AllOwned(m)
    ensures tx in Listing(m) <==> Held(m, tx)
  {
  }

  /** One account's part of the listing. */
  lemma ListingWithout(m: ListMap, a: Address)
    requires AllOwned(m) && a in m
    ensures Listing(m) == Listing(m - {a}) + m[a].items.Values && Listing(m - {a}) !! m[a].items.Values
  {
    var rest, own := m - {a}, m[a].items;
    forall tx ensures tx in Listing(m) <==> tx in Listing(rest) || tx in own.Values {
      ListingIsHeld(m, tx);
      ListingIsHeld(rest, tx);
      assert tx in own.Values <==> tx.sender == a && Held(m, tx);
    }
    forall tx | tx in own.Values ensures tx !in Listing(rest) {
      ListingIsHeld(rest, tx);
    }
  }

  lemma {:induction false} ListingCount(m: ListMap)
    requires AllOwned(m)
    ensures |Listing(m)| == Total(m)
    decreases |m|
  {
    if m != map[] {
      var a :| a in m;
      assert m.Keys == (m - {a}).Keys + {a};
      TotalWithout(m, a);
      ListingCount(m - {a});
      ListingWithout(m, a);
      OwnedCount(a, m[a].items);
    }
  }

  lemma OwnedCount(a: Address, items: map<nat, Tx>)
    requires Owned(a, items)
    ensures |items.Values| == |items|
  {
    ValuesCount(items);
  }

  lemma FiledCount(all: map<TxHash, Tx>)
    requires Pricing.Filed(all)
    ensures |all.Values| == |all| && forall tx :: tx in all.Values <==> tx.Hash() in all && all[tx.Hash()] == tx
  {
    ValuesCount(all);
  }

  lemma CountFewer(all: map<TxHash, Tx>, all': map<TxHash, Tx>, hash: TxHash)
    requires all' == all - {hash} && Pricing.Filed(all)
    ensures |all'| == |all| - (if hash in all then 1 else 0) && Pricing.Filed(all')
  {
    if hash in all {
      assert all.Keys == all'.Keys + {hash};
    } else {
      assert all' == all;
    }
  }

  /** What is indexed is what is pending or queued, and nothing is both. */
  lemma IndexIsListing(p: ListMap, q: ListMap, all: map<TxHash, Tx>)
    requires Agree(p, q, all, 0, map[]) && AllOwned(p) && AllOwned(q) && Pricing.Filed(all)
    ensures all.Values == Listing(p) + Listing(q) && Listing(p) !! Listing(q)
  {
    FiledCount(all);
    forall tx ensures tx in all.Values <==> tx in Listing(p) || tx in Listing(q) {
      assert Indexed(p, q, all, 0, map[], tx);
      ListingIsHeld(p, tx);
      ListingIsHeld(q, tx);
    }
    forall tx | tx in Listing(p) ensures tx !in Listing(q) {
      ListingIsHeld(p, tx);
      ListingIsHeld(q, tx);
      assert Apart(p, q, 0, map[], tx.sender, tx.nonce);
    }
  }

  lemma AgreeIsOwned(p: ListMap, q: ListMap, all: map<TxHash, Tx>)
    requires Agree(p, q, all, 0, map[])
    ensures AllOwned(p) && AllOwned(q)
  {
    forall a ensures (a in p ==> Owned(a, p[a].items)) && (a in q ==> Owned(a, q[a].items)) {
      assert ListOk(p, true, a) && ListOk(q, false, a);
    }
  }

  /** The hash index has as many entries as the lists have transactions. */
  lemma IndexCount(p: ListMap, q: ListMap, all: map<TxHash, Tx>)
    requires Agree(p, q, all, 0, map[])
    ensures |all| == Total(p) + Total(q)
  {
    AgreeIsFiled(p, q, all, 0, map[]);
    AgreeIsOwned(p, q, all);
    IndexIsListing(p, q, all);
    FiledCount(all);
    ListingCount(p);
    ListingCount(q);
  }

  lemma SameRest(m: ListMap, m': ListMap, a: Address)
    requires OnlyAt(m, m', a)
    ensures m - {a} == m' - {a}
  {
    forall b ensures b in m - {a} <==> b in m' - {a} {
      assert SameAt(m, m', a, b);
    }
    forall b | b in m - {a} ensures (m - {a})[b] == (m' - {a})[b] {
      assert SameAt(m, m', a, b);
    }
  }

  /** If only one account changed, the total changed by the difference in its size. */
  lemma TotalChange(m: ListMap, m': ListMap, a: Address)
    requires OnlyAt(m, m', a)
    ensures Total(m) - Size(m, a) == Total(m') - Size(m', a)
  {
    SameRest(m, m', a);
    TotalAt(m, a);
    TotalAt(m', a);
  }

  /** The counting loop. */
  method CountAll(m: ListMap) returns (total: nat)
    ensures total == Total(m)
  {
    total := 0;
    var rest := m;
    while rest != map[]
      invariant total + Total(rest) == Total(m)
      decreases |rest|
    {
      var a :| a in rest;
      TotalWithout(rest, a);
      total := total + |rest[a].items|;
      assert rest.Keys == (rest - {a}).Keys + {a};
      rest := rest - {a};
    }
  }

  /** `m'` is `m` without its highest nonces. */
  ghost predicate IsCut(m: map<nat, Tx>, m': map<nat, Tx>) {
    exists t: nat :: m' == Below(m, t)
  }

  lemma CutTwice(m: map<nat, Tx>, m': map<nat, Tx>, m'': map<nat, Tx>)
    requires IsCut(m, m') && IsCut(m', m'')
    ensures IsCut(m, m'')
  {
    var t: nat :| m' == Below(m, t);
    var u: nat :| m'' == Below(m', u);
    assert m'' == Below(m, if t < u then t else u);
  }

  lemma NoCut(m: map<nat, Tx>)
    ensures IsCut(m, m)
  {
    var t := Bound(m.Keys);
    assert m == Below(m, t);
  }

  lemma CutToNothing(m: map<nat, Tx>)
    ensures IsCut(m, map[])
  {
    assert Below(m, 0) == map[];
  }

  /** The scan for the highest nonce. */
  method HighestNonce(m: map<nat, Tx>) returns (n: nat)
    requires m != map[]
    ensures n in m && forall k :: k in m ==> k <= n
  {
    n :| n in m;
    var todo := m.Keys - {n};
    while todo != {}
      invariant n in m && todo <= m.Keys && forall k :: k in m && k !in todo ==> k <= n
    {
      var k :| k in todo;
      n := if n < k then k else n;
      todo := todo - {k};
    }
  }

  /** Cutting a list by one drops its highest nonce. */
  lemma HighestDropped(m: map<nat, Tx>, n: nat)
    requires n in m && forall k :: k in m ==> k <= n
    ensures Below(m, n) == m - {n} && |m - {n}| == |m| - 1
  {
    var kept := m - {n};
    assert m.Keys == kept.Keys + {n};
    assert |m.Keys| == |kept.Keys| + 1;
  }

  lemma CutByOne(m: map<nat, Tx>, n: nat)
    requires n in m && forall k :: k in m ==> k <= n
    ensures IsCut(m, Below(m, n)) && |Below(m, n)| == |m| - 1
  {
    HighestDropped(m, n);
  }

  // ----- evicting from the largest senders -----

  /** Account `a` lost at most its highest nonces, and was not cut below `slots`. */
  ghost predicate Trimmed(m: ListMap, m': ListMap, slots: nat, a: Address) {
    && (a in m <==> a in m') && IsCut(Items(m, a), Items(m', a))
    && (Items(m', a) == Items(m, a) || slots <= Size(m', a) < Size(m, a))
  }

  ghost predicate AllTrimmed(m: ListMap, m': ListMap, slots: nat) {
    forall a :: Trimmed(m, m', slots, a)
  }

  lemma TrimmedNot(m: ListMap, slots: nat)
    ensures AllTrimmed(m, m, slots)
  {
    forall a ensures Trimmed(m, m, slots, a) {
      NoCut(Items(m, a));
    }
  }

  lemma TrimmedMore(m: ListMap, m': ListMap, m'': ListMap, slots: nat, a: Address)
    requires AllTrimmed(m, m', slots) && OnlyAt(m', m'', a) && a in m' && a in m''
    requires IsCut(Items(m', a), Items(m'', a)) && slots <= Size(m'', a) < Size(m', a)
    ensures AllTrimmed(m, m'', slots)
  {
    forall b ensures Trimmed(m, m'', slots, b) {
      assert Trimmed(m, m', slots, b) && SameAt(m', m'', a, b);
      if b == a {
        CutTwice(Items(m, a), Items(m', a), Items(m'', a));
      }
    }
  }

  /** One account was cut or not; if it was, its virtual nonce came down to the lowest nonce it lost. */
  ghost predicate Lowered(pm: map<nat, Tx>, pm': map<nat, Tx>, pn: nat, pn': nat) {
    || (pm' == pm && pn' == pn)
    || exists t :: t in pm && pm' == Below(pm, t) && pn' == if pn > t then t else pn
  }

  ghost predicate LoweredAt(p: ListMap, p': ListMap, ns: map<Address, nat>, ns': map<Address, nat>, st: ChainState,
                            a: Address) {
    Lowered(Items(p, a), Items(p', a), NonceOf(ns, st, a), NonceOf(ns', st, a))
  }

  /** The virtual nonces of exactly the accounts that were cut moved, each down to the lowest nonce lost. */
  ghost predicate AllLowered(p: ListMap, p': ListMap, ns: map<Address, nat>, ns': map<Address, nat>, st: ChainState) {
    forall a :: LoweredAt(p, p', ns, ns', st, a)
  }

  lemma LoweredTwice(pm: map<nat, Tx>, pm1: map<nat, Tx>, pn: nat, pn1: nat, n: nat)
    requires Lowered(pm, pm1, pn, pn1) && n in pm1
    ensures Lowered(pm, Below(pm1, n), pn, if pn1 > n then n else pn1)
  {
    assert n in pm && Below(pm1, n) == Below(pm, n);
  }

  /** Account `x` is cut at nonce `n` on top of what was cut before. */
  lemma LoweredMore(p: ListMap, p1: ListMap, p': ListMap, ns: map<Address, nat>, ns1: map<Address, nat>,
                    ns': map<Address, nat>, st: ChainState, x: Address, n: nat)
    requires AllLowered(p, p1, ns, ns1, st) && OnlyAt(p1, p', x) && OnlyAt(ns1, ns', x)
    requires n in Items(p1, x) && Items(p', x) == Below(Items(p1, x), n)
    requires NonceOf(ns', st, x) == if NonceOf(ns1, st, x) > n then n else NonceOf(ns1, st, x)
    ensures AllLowered(p, p', ns, ns', st)
  {
    forall a ensures LoweredAt(p, p', ns, ns', st, a) {
      assert LoweredAt(p, p1, ns, ns1, st, a) && SameAt(p1, p', x, a) && SameAt(ns1, ns', x, a);
      if a == x {
        LoweredTwice(Items(p, a), Items(p1, a), NonceOf(ns, st, a), NonceOf(ns1, st, a), n);
      }
    }
  }

  /** No address is listed twice. */
  ghost predicate Distinct(offs: seq<Address>) {
    forall i, j :: 0 <= i < j < |offs| ==> offs[i] != offs[j]
  }

  /** The accounts from `offs[from..to]` all have `level` transactions. */
  ghost predicate LevelAt(m: ListMap, offs: seq<Address>, from: nat, to: nat, level: nat) {
    to <= |offs| && forall i :: from <= i < to ==> offs[i] in m && Size(m, offs[i]) == level
  }

  ghost predicate Listed(offs: seq<Address>, a: Address) {
    exists i :: 0 <= i < |offs| && offs[i] == a
  }

  /** An account outside `offs` is as it was. */
  ghost predicate LeftAlone(m: ListMap, m': ListMap, offs: seq<Address>, a: Address) {
    Listed(offs, a) || SameAt(m, m', a + 1, a)
  }

  /** Only accounts in `offs` differ. */
  ghost predicate OnlyIn(m: ListMap, m': ListMap, offs: seq<Address>) {
    forall a :: LeftAlone(m, m', offs, a)
  }

  lemma OnlyInNone(m: ListMap, offs: seq<Address>)
    ensures OnlyIn(m, m, offs)
  {
  }

  lemma OnlyInMore(m: ListMap, m': ListMap, m'': ListMap, offs: seq<Address>, i: nat)
    requires OnlyIn(m, m', offs) && i < |offs| && OnlyAt(m', m'', offs[i])
    ensures OnlyIn(m, m'', offs)
  {
    assert Listed(offs, offs[i]);
    forall a ensures LeftAlone(m, m'', offs, a) {
      assert LeftAlone(m, m', offs, a) && SameAt(m', m'', offs[i], a);
    }
  }

  lemma OnlyInTwice(m: ListMap, m': ListMap, m'': ListMap, offs: seq<Address>)
    requires OnlyIn(m, m', offs) && OnlyIn(m', m'', offs)
    ensures OnlyIn(m, m'', offs)
  {
    forall a ensures LeftAlone(m, m'', offs, a) {
      assert LeftAlone(m, m', offs, a) && LeftAlone(m', m'', offs, a);
    }
  }

  /** One account of a round was cut from `level` to `level - 1`. */
  lemma RoundMore(m: ListMap, m': ListMap, offs: seq<Address>, i: nat, level: nat)
    requires Distinct(offs) && i < |offs| && level > 0
    requires LevelAt(m, offs, 0, i, level - 1) && LevelAt(m, offs, i, |offs|, level)
    requires OnlyAt(m, m', offs[i]) && offs[i] in m' && Size(m', offs[i]) == level - 1
    ensures LevelAt(m', offs, 0, i + 1, level - 1) && LevelAt(m', offs, i + 1, |offs|, level)
    ensures Total(m') == Total(m) - 1
  {
    TotalChange(m, m', offs[i]);
    forall k | 0 <= k < |offs| && k != i ensures offs[k] in m' && Size(m', offs[k]) == Size(m, offs[k]) {
      assert SameAt(m, m', offs[i], offs[k]);
    }
  }

  // ----- the whole eviction -----

  predicate Spams(m: ListMap, locals: set<Address>, slots: nat, a: Address) {
    a in m && a !in locals && Size(m, a) > slots
  }

  /** No remote account has more than its slots. */
  ghost predicate WithinSlots(m: ListMap, locals: set<Address>, slots: nat) {
    forall a :: a in m && a !in locals ==> |m[a].items| <= slots
  }

  /** A spammer with the most transactions, as the priority queue pops it. */
  method PopLargest(spammers: set<Address>, m: ListMap) returns (a: Address)
    requires spammers != {}
    ensures a in spammers && forall b :: b in spammers ==> Size(m, b) <= Size(m, a)
  {
    a :| a in spammers;
    var todo := spammers - {a};
    while todo != {}
      invariant a in spammers && todo <= spammers
      invariant forall b :: b in spammers && b !in todo ==> Size(m, b) <= Size(m, a)
    {
      var b :| b in todo;
      a := if Size(m, a) < Size(m, b) then b else a;
      todo := todo - {b};
    }
  }

  /** Account `a` lost transactions. */
  ghost predicate WasCut(m: ListMap, m': ListMap, a: Address) {
    Items(m', a) != Items(m, a)
  }

  /** All accounts that were cut are level, and no remote account left with more than its slots exceeds them. */
  ghost predicate FairPair(m: ListMap, m': ListMap, locals: set<Address>, slots: nat, a: Address, b: Address) {
    WasCut(m, m', a) ==>
      && a !in locals
      && (WasCut(m, m', b) ==> Size(m', a) == Size(m', b))
      && (b in m' && b !in locals && |m'[b].items| > slots ==> |m'[b].items| <= |Items(m', a)|)
  }

  ghost predicate Fair(m: ListMap, m': ListMap, locals: set<Address>, slots: nat) {
    forall a, b :: FairPair(m, m', locals, slots, a, b)
  }

  /** Where a remote account with more than its slots stands during the eviction. */
  ghost predicate Sorted(m': ListMap, locals: set<Address>, slots: nat, offs: seq<Address>, spammers: set<Address>,
                         level: nat, a: Address) {
    && (Listed(offs, a) ==> a !in spammers && a !in locals)
    && (a in spammers ==> Spams(m', locals, slots, a) && Size(m', a) <= level)
    && (Spams(m', locals, slots, a) ==> Listed(offs, a) || a in spammers)
  }

  ghost predicate AllSorted(m': ListMap, locals: set<Address>, slots: nat, offs: seq<Address>, spammers: set<Address>,
                            level: nat) {
    forall a :: Sorted(m', locals, slots, offs, spammers, level, a)
  }

  /** A level eviction is a fair one. */
  lemma LevelIsFair(m: ListMap, m': ListMap, locals: set<Address>, slots: nat, offs: seq<Address>,
                    spammers: set<Address>, level: nat)
    requires OnlyIn(m, m', offs) && LevelAt(m', offs, 0, |offs|, level)
    requires AllSorted(m', locals, slots, offs, spammers, level)
    ensures Fair(m, m', locals, slots)
  {
    forall a, b ensures FairPair(m, m', locals, slots, a, b) {
      assert LeftAlone(m, m', offs, a) && LeftAlone(m, m', offs, b);
      assert Sorted(m', locals, slots, offs, spammers, level, a) && Sorted(m', locals, slots, offs, spammers, level, b);
    }
  }

  lemma OnlyInExtended(m: ListMap, m': ListMap, offs: seq<Address>, x: Address)
    requires OnlyIn(m, m', offs)
    ensures OnlyIn(m, m', offs + [x])
  {
    forall a ensures LeftAlone(m, m', offs + [x], a) {
      assert LeftAlone(m, m', offs, a);
      ListedExtended(offs, x, a);
    }
  }

  lemma ListedExtended(offs: seq<Address>, x: Address, a: Address)
    ensures Listed(offs + [x], a) <==> Listed(offs, a) || a == x
  {
    if Listed(offs, a) {
      var i :| 0 <= i < |offs| && offs[i] == a;
      assert (offs + [x])[i] == a;
    }
    assert (offs + [x])[|offs|] == x;
  }

  lemma SizeWithinTotal(m: ListMap, a: Address)
    ensures Size(m, a) <= Total(m)
  {
    TotalAt(m, a);
  }

  /** Cutting the offenders down to a common level leaves everyone else sorted as before. */
  lemma SortedStill(m: ListMap, m': ListMap, locals: set<Address>, slots: nat, offs: seq<Address>,
                    spammers: set<Address>, level: nat, level': nat)
    requires AllSorted(m, locals, slots, offs, spammers, level) && OnlyIn(m, m', offs)
    requires forall a :: a in spammers ==> Size(m, a) <= level'
    ensures AllSorted(m', locals, slots, offs, spammers, level')
  {
    forall a ensures Sorted(m', locals, slots, offs, spammers, level', a) {
      assert Sorted(m, locals, slots, offs, spammers, level, a) && LeftAlone(m, m', offs, a);
    }
  }

  /** The popped spammer becomes an offender. */
  lemma SortedPop(m: ListMap, locals: set<Address>, slots: nat, offs: seq<Address>, spammers: set<Address>,
                  level: nat, x: Address)
    requires AllSorted(m, locals, slots, offs, spammers, level) && x in spammers && Size(m, x) == level
    requires LevelAt(m, offs, 0, |offs|, level) && Distinct(offs)
    ensures AllSorted(m, locals, slots, offs + [x], spammers - {x}, level)
    ensures LevelAt(m, offs + [x], 0, |offs| + 1, level) && Distinct(offs + [x])
  {
    var offs', spammers' := offs + [x], spammers - {x};
    assert Sorted(m, locals, slots, offs, spammers, level, x);
    forall a ensures Sorted(m, locals, slots, offs', spammers', level, a) {
      assert Sorted(m, locals, slots, offs, spammers, level, a);
      ListedExtended(offs, x, a);
    }
    assert forall i :: 0 <= i < |offs| ==> Listed(offs, offs[i]);
  }

  /** With nobody spamming and offenders down to their slots, nobody is over. */
  lemma NobodySpams(m: ListMap, locals: set<Address>, slots: nat, offs: seq<Address>, level: nat)
    requires AllSorted(m, locals, slots, offs, {}, level) && LevelAt(m, offs, 0, |offs|, slots)
    ensures WithinSlots(m, locals, slots)
  {
    forall a | a in m && a !in locals ensures |m[a].items| <= slots {
      assert Sorted(m, locals, slots, offs, {}, level, a) && !Spams(m, locals, slots, a);
    }
  }

  lemma SortedStart(m: ListMap, locals: set<Address>, slots: nat, spammers: set<Address>)
    requires spammers == set a | a in m && Spams(m, locals, slots, a)
    ensures AllSorted(m, locals, slots, [], spammers, Total(m))
  {
    forall a ensures Sorted(m, locals, slots, [], spammers, Total(m), a) {
      SizeWithinTotal(m, a);
    }
  }

  lemma UntouchedIsFair(m: ListMap, locals: set<Address>, slots: nat)
    ensures Fair(m, m, locals, slots)
  {
  }

  /** The accounts that lost transactions. */
  ghost function Cut(m: ListMap, m': ListMap): set<Address> {
    set a | a in m && WasCut(m, m', a)
  }

  /** No more was evicted than needed: with one transaction back for each account that was cut, there are too many. */
  ghost predicate NotTooMany(m: ListMap, m': ListMap, limit: nat) {
    Total(m') + |Cut(m, m')| > limit
  }

  lemma {:induction false} DistinctCount(offs: seq<Address>, s: set<Address>)
    requires Distinct(offs) && forall i :: 0 <= i < |offs| ==> offs[i] in s
    ensures |offs| <= |s|
    decreases |offs|
  {
    if offs != [] {
      var n := |offs| - 1;
      DistinctCount(offs[..n], s - {offs[n]});
      assert s == (s - {offs[n]}) + {offs[n]};
    }
  }

  /** A round that was needed, and cut all of `offs`, did not evict too many. */
  lemma RoundNotTooMany(m: ListMap, p: ListMap, p': ListMap, slots: nat, offs: seq<Address>, level: nat, limit: nat)
    requires AllTrimmed(m, p, slots) && Distinct(offs) && level > 0
    requires LevelAt(p, offs, 0, |offs|, level) && LevelAt(p', offs, 0, |offs|, level - 1)
    requires Total(p') + |offs| > limit
    ensures NotTooMany(m, p', limit)
  {
    forall i | 0 <= i < |offs| ensures offs[i] in Cut(m, p') {
      assert Trimmed(m, p, slots, offs[i]);
    }
    DistinctCount(offs, Cut(m, p'));
  }

  /** The state between two offenders: the offenders so far are level, and everyone else is untouched. */
  ghost predicate Evicting(m: ListMap, m': ListMap, locals: set<Address>, slots: nat, offs: seq<Address>,
                           spammers: set<Address>, level: nat) {
    && OnlyIn(m, m', offs) && AllTrimmed(m, m', slots) && Distinct(offs)
    && LevelAt(m', offs, 0, |offs|, level) && AllSorted(m', locals, slots, offs, spammers, level)
    && (offs != [] ==> level > slots)
  }

  lemma EvictingStart(m: ListMap, locals: set<Address>, slots: nat, spammers: set<Address>)
    requires spammers == set a | a in m && Spams(m, locals, slots, a)
    ensures Evicting(m, m, locals, slots, [], spammers, Total(m))
  {
    OnlyInNone(m, []);
    TrimmedNot(m, slots);
    SortedStart(m, locals, slots, spammers);
  }

  lemma OffenderFits(m: ListMap, m': ListMap, locals: set<Address>, slots: nat, offs: seq<Address>,
                     spammers: set<Address>, level: nat, x: Address)
    requires Evicting(m, m', locals, slots, offs, spammers, level) && x in spammers
    ensures slots < Size(m', x) <= level
  {
    assert Sorted(m', locals, slots, offs, spammers, level, x);
  }

  /** After the earlier offenders were cut to `level'`, which is the newcomer's size unless the pool fits. */
  lemma EvictingMore(m: ListMap, p: ListMap, p': ListMap, locals: set<Address>, slots: nat, offs: seq<Address>,
                     spammers: set<Address>, level: nat, level': nat, x: Address)
    requires Evicting(m, p, locals, slots, offs, spammers, level) && x in spammers
    requires forall b :: b in spammers ==> Size(p, b) <= Size(p, x)
    requires OnlyIn(p, p', offs) && AllTrimmed(m, p', slots)
    requires LevelAt(p', offs, 0, |offs|, level') && Size(p, x) <= level'
    ensures Fair(m, p', locals, slots)
    ensures level' == Size(p, x) ==> Evicting(m, p', locals, slots, offs + [x], spammers - {x}, level')
  {
    assert Sorted(p, locals, slots, offs, spammers, level, x) && LeftAlone(p, p', offs, x);
    OnlyInTwice(m, p, p', offs);
    SortedStill(p, p', locals, slots, offs, spammers, level, level');
    LevelIsFair(m, p', locals, slots, offs, spammers, level');
    if level' == Size(p, x) {
      SortedPop(p', locals, slots, offs, spammers, level', x);
      OnlyInExtended(m, p', offs, x);
    }
  }

  /** The last cut, of all offenders together, down to their slots or until the pool fits. */
  lemma EvictingEnd(m: ListMap, p: ListMap, p': ListMap, locals: set<Address>, slots: nat, offs: seq<Address>,
                    level: nat, level': nat)
    requires Evicting(m, p, locals, slots, offs, {}, level) && OnlyIn(p, p', offs)
    requires LevelAt(p', offs, 0, |offs|, level')
    ensures Fair(m, p', locals, slots)
    ensures level' == slots ==> WithinSlots(p', locals, slots)
  {
    OnlyInTwice(m, p, p', offs);
    SortedStill(p, p', locals, slots, offs, {}, level, level');
    LevelIsFair(m, p', locals, slots, offs, {}, level');
    if level' == slots {
      NobodySpams(p', locals, slots, offs, level');
    }
  }

  // ----- dropping queued transactions -----

  /** The account with the latest heartbeat: the last of the list sorted by heartbeat. */
  method PopLatest(addresses: set<Address>, beats: Address -> int) returns (a: Address)
    requires addresses != {}
    ensures a in addresses && forall b :: b in addresses ==> beats(b) <= beats(a)
  {
    a :| a in addresses;
    var todo := addresses - {a};
    while todo != {}
      invariant a in addresses && todo <= addresses
      invariant forall b :: b in addresses && b !in todo ==> beats(b) <= beats(a)
    {
      var b :| b in todo;
      a := if beats(a) < beats(b) then b else a;
      todo := todo - {b};
    }
  }

  /** Where account `a` stands while queued transactions are dropped; `done` once the pool fits. */
  ghost predicate Standing(q: ListMap, q': ListMap, locals: set<Address>, addresses: set<Address>, done: bool,
                           a: Address) {
    && IsCut(Items(q, a), Items(q', a))
    && (a in addresses ==> a in q' && a !in locals)
    && (a in addresses || a in locals ==> !WasCut(q, q', a))
    && (a in q' && a !in locals ==> a in addresses || (done && WasCut(q, q', a)))
  }

  /** Accounts are cut in the order of their heartbeats, latest first. */
  ghost predicate Later(q: ListMap, q': ListMap, addresses: set<Address>, beats: Address -> int, a: Address,
                        b: Address) {
    WasCut(q, q', a) && b in addresses ==> beats(b) <= beats(a)
  }

  ghost predicate Dropping(q: ListMap, q': ListMap, locals: set<Address>, addresses: set<Address>, done: bool,
                           beats: Address -> int) {
    && (forall a :: Standing(q, q', locals, addresses, done, a))
    && (forall a, b :: Later(q, q', addresses, beats, a, b))
  }

  lemma DroppingStart(q: ListMap, locals: set<Address>, addresses: set<Address>, beats: Address -> int)
    requires addresses == set a | a in q && a !in locals
    ensures Dropping(q, q, locals, addresses, false, beats)
  {
    forall a ensures Standing(q, q, locals, addresses, false, a) {
      NoCut(Items(q, a));
    }
  }

  /** The latest account was cut: entirely, or, if that was enough, in part. */
  /** An account that is still to be looked at has a queue. */
  lemma StillQueued(q: ListMap, q': ListMap, locals: set<Address>, addresses: set<Address>, beats: Address -> int,
                    x: Address)
    requires Dropping(q, q', locals, addresses, false, beats) && x in addresses
    ensures x in q' && |addresses - {x}| < |addresses|
  {
    assert Standing(q, q', locals, addresses, false, x);
    assert addresses == (addresses - {x}) + {x};
  }

  lemma DroppingMore(q: ListMap, q': ListMap, q'': ListMap, locals: set<Address>, addresses: set<Address>,
                     done: bool, beats: Address -> int, x: Address)
    requires Dropping(q, q', locals, addresses, false, beats) && x in addresses
    requires forall b :: b in addresses ==> beats(b) <= beats(x)
    requires OnlyAt(q', q'', x) && IsCut(Items(q', x), Items(q'', x)) && WasCut(q', q'', x)
    requires x in q'' ==> done
    ensures Dropping(q, q'', locals, addresses - {x}, done, beats)
  {
    var addresses' := addresses - {x};
    assert Standing(q, q', locals, addresses, false, x);
    forall a ensures Standing(q, q'', locals, addresses', done, a) {
      assert Standing(q, q', locals, addresses, false, a) && SameAt(q', q'', x, a);
    }
    forall a, b ensures Later(q, q'', addresses', beats, a, b) {
      assert Later(q, q', addresses, beats, a, b) && SameAt(q', q'', x, a);
    }
  }

  /**
   A queue within the limit is left alone; otherwise it is cut to the limit, or to
   the local accounts if these exceed it.
   */
  ghost predicate QueueFitted(q: ListMap, q': ListMap, locals: set<Address>, limit: nat) {
    if Total(q) <= limit then q' == q
    else Total(q') == limit || (Total(q') > limit && forall a :: a in q' ==> a in locals)
  }

  /** Pending lists within the limit are left alone; otherwise they are cut, but not by more than needed. */
  ghost predicate PendingFitted(p: ListMap, p': ListMap, limit: nat) {
    if Total(p) <= limit then p' == p else NotTooMany(p, p', limit)
  }

  /** What dropping queued transactions did: latest heartbeats first, highest nonces first, never a local's. */
  ghost predicate QueueDropped(q: ListMap, q': ListMap, locals: set<Address>, beats: Address -> int, a: Address,
                               b: Address) {
    && IsCut(Items(q, a), Items(q', a))
    && (WasCut(q, q', a) ==> a !in locals)
    && (WasCut(q, q', a) && b in q' && b !in locals && !WasCut(q, q', b) ==> beats(b) <= beats(a))
  }

  lemma DroppingEnd(q: ListMap, q': ListMap, locals: set<Address>, addresses: set<Address>, done: bool,
                    beats: Address -> int)
    requires Dropping(q, q', locals, addresses, done, beats)
    ensures forall a, b :: QueueDropped(q, q', locals, beats, a, b)
    ensures addresses == {} && !done ==> forall a :: a in q' ==> a in locals
  {
    forall a, b ensures QueueDropped(q, q', locals, beats, a, b) {
      assert Standing(q, q', locals, addresses, done, a) && Standing(q, q', locals, addresses, done, b);
      assert Later(q, q', addresses, beats, a, b);
    }
    forall a | a in q' ensures addresses == {} && !done ==> a in locals {
      assert Standing(q, q', locals, addresses, done, a);
    }
  }

  lemma UntouchedQueue(q: ListMap, locals: set<Address>, beats: Address -> int)
    ensures forall a, b :: QueueDropped(q, q, locals, beats, a, b)
  {
    forall a, b ensures QueueDropped(q, q, locals, beats, a, b) {
      NoCut(Items(q, a));
    }
  }
}
