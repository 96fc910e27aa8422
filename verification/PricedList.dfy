/**
 `txLookup` and `txPricedList`: the hash index of the pool and the price heap
 that is cleaned lazily behind it.  The heap may hold entries for transactions
 that left the pool, and several for one that left and came back; what the
 operations rely on is only that every pooled transaction has an entry.
 */
module Pricing {
  import opened Heaps
  import opened Transactions

  /** `TxByPriceAsc`: cheaper first and, at one price, the higher nonce first. */
  const PriceLe := (a: Tx, b: Tx) => a.price < b.price || (a.price == b.price && a.nonce >= b.nonce)

  class TxLookup {
    var all: map<TxHash, Tx>

    constructor ()
      ensures all == map[]
    {
      all := map[];
    }

    method Add(tx: Tx)
      modifies this
      ensures all == old(all)[tx.Hash() := tx]
    {
      all := all[tx.Hash() := tx];
    }

    method Remove(hash: TxHash)
      modifies this
      ensures all == old(all) - {hash}
    {
      all := all - {hash};
    }
  }

  /** Each transaction is filed under its own hash. */
  ghost predicate Filed(all: map<TxHash, Tx>) {
    forall h :: h in all ==> all[h].Hash() == h
  }

  /** Every pooled transaction has a heap entry. */
  ghost predicate Covers(entries: multiset<Tx>, all: map<TxHash, Tx>) {
    forall h :: h in all ==> all[h] in entries
  }

  predicate Live(all: map<TxHash, Tx>, tx: Tx) {
    tx.Hash() in all
  }

  /** `tx` is pooled and its sender is not local. */
  predicate Remote(all: map<TxHash, Tx>, locals: set<Address>, tx: Tx) {
    Live(all, tx) && tx.sender !in locals
  }

  /** From `before` to `after`, `d` entries were given up, none of them of a pooled transaction. */
  ghost predicate OnlyStaleGone(before: multiset<Tx>, after: multiset<Tx>, all: map<TxHash, Tx>, d: int) {
    && |before| == |after| + d && after <= before
    && forall tx :: Live(all, tx) ==> after[tx] == before[tx]
  }

  lemma OneMoreGone(before: multiset<Tx>, after: multiset<Tx>, all: map<TxHash, Tx>, d: int, x: Tx,
                    after': multiset<Tx>)
    requires OnlyStaleGone(before, after, all, d) && !Live(all, x) && after == after' + multiset{x}
    ensures OnlyStaleGone(before, after', all, d + 1)
  {
  }

  /** A sweep that gives up only stale entries leaves none uncounted. */
  lemma SweptCount(before: multiset<Tx>, after: multiset<Tx>, drop: multiset<Tx>, stales: int, stales': int,
                   all: map<TxHash, Tx>)
    requires OnlyStaleGone(before, after + drop, all, stales - stales') && |before| <= |all| + stales
    ensures |after| + |drop| <= |all| + stales' && after + multiset{} == after
  {
  }

  class TxPricedList {
    const lookup: TxLookup
    var items: seq<Tx>
    var stales: int

    ghost predicate Valid()
      reads this
    {
      Ordered(items, PriceLe)
    }

    constructor (lookup: TxLookup)
      ensures Valid() && items == [] && stales == 0 && this.lookup == lookup
    {
      this.lookup := lookup;
      items, stales := [], 0;
    }

    method Put(tx: Tx)
      requires Valid()
      modifies this
      ensures Valid()
      ensures multiset(items) == multiset(old(items)) + multiset{tx} && stales == old(stales)
    {
      items := Push(items, tx, PriceLe);
    }

    /** Counts a stale entry; once more than a quarter are stale, rebuilds the heap from the hash index. */
    method Removed()
      requires Valid()
      modifies this
      ensures Valid()
      ensures if old(stales) + 1 <= |old(items)| / 4
              then items == old(items) && stales == old(stales) + 1
              else multiset(items) == multiset(lookup.all.Values) && stales == 0
      ensures Covers(multiset(old(items)), lookup.all) ==> Covers(multiset(items), lookup.all)
    {
      stales := stales + 1;
      if stales <= |items| / 4 {
        return;
      }
      stales := 0;
      var range := Range(lookup.all.Values);
      items := Init(range, PriceLe);
    }

    /** Takes out the transactions of remote senders below `threshold`. */
    method Cap(threshold: nat, locals: set<Address>) returns (drop: seq<Tx>)
      requires Valid() && Filed(lookup.all) && Covers(multiset(items), lookup.all)
      modifies this
      ensures Valid()
      ensures forall tx :: tx in multiset(drop) ==> Remote(lookup.all, locals, tx) && tx.price < threshold
      ensures Covers(multiset(items) + multiset(drop), lookup.all)
      ensures OnlyStaleGone(multiset(old(items)), multiset(items) + multiset(drop), lookup.all, old(stales) - stales)
      // no remote below the threshold survives
      ensures forall tx :: Remote(lookup.all, locals, tx) && tx !in multiset(drop) ==> tx.price >= threshold
    {
      var d;
      drop, items, d := CapLoop(items, lookup.all, threshold, locals);
      stales := stales - d;
    }

    /**
     Compares with the cheapest pooled price.  This is what a full scan of the
     pool would answer, however many stale entries the heap holds.
     */
    method Underpriced(tx: Tx, locals: set<Address>) returns (b: bool)
      requires Valid() && Filed(lookup.all) && Covers(multiset(items), lookup.all)
      modifies this
      ensures Valid() && Covers(multiset(items), lookup.all)
      ensures b <==> && tx.sender !in locals && lookup.all != map[]
                     && forall h :: h in lookup.all ==> lookup.all[h].price >= tx.price
      ensures OnlyStaleGone(multiset(old(items)), multiset(items), lookup.all, old(stales) - stales)
    {
      if tx.sender in locals {
        return false;
      }
      var d;
      items, d := DropStaleHeads(items, lookup.all);
      stales := stales - d;
      if |items| == 0 {
        CoverMeansEmpty(lookup.all);
        return false;
      }
      HeadIsCheapest(items, lookup.all);
      b := items[0].price >= tx.price;
    }

    /** Takes out up to `count` of the cheapest transactions of remote senders. */
    method Discard(count: int, locals: set<Address>) returns (drop: seq<Tx>)
      requires Valid() && Filed(lookup.all) && Covers(multiset(items), lookup.all)
      modifies this
      ensures Valid()
      ensures |drop| <= count || drop == []
      ensures forall tx :: tx in multiset(drop) ==> Remote(lookup.all, locals, tx)
      ensures Covers(multiset(items) + multiset(drop), lookup.all)
      ensures OnlyStaleGone(multiset(old(items)), multiset(items) + multiset(drop), lookup.all, old(stales) - stales)
      // every victim is no dearer than any surviving remote and, at one price, has no lower a nonce
      ensures forall v, tx :: v in multiset(drop) && Remote(lookup.all, locals, tx) && tx !in multiset(drop) ==>
                v.price < tx.price || (v.price == tx.price && v.nonce >= tx.nonce)
      // fewer victims than asked for only if no remote survives
      ensures |drop| < count ==> forall tx :: Remote(lookup.all, locals, tx) ==> tx in multiset(drop)
    {
      var d;
      drop, items, d := DiscardLoop(items, lookup.all, count, locals);
      stales := stales - d;
    }
  }

  lemma CoverMeansEmpty(all: map<TxHash, Tx>)
    requires Covers(multiset{}, all)
    ensures all == map[]
  {
    assert forall h :: h !in all;
  }

  lemma HeadIsCheapest(items: seq<Tx>, all: map<TxHash, Tx>)
    requires Ordered(items, PriceLe) && items != [] && Filed(all) && Covers(multiset(items), all)
    requires Live(all, items[0])
    ensures all[items[0].Hash()] == items[0]
    ensures forall h :: h in all ==> items[0].price <= all[h].price
  {
    forall h | h in all
      ensures items[0].price <= all[h].price
    {
      var i :| 0 <= i < |items| && items[i] == all[h];
      RootIsLeast(items, i, PriceLe);
    }
  }

  /** Iterating over the hash index visits every pooled transaction once. */
  method Range(txs: set<Tx>) returns (s: seq<Tx>)
    ensures multiset(s) == multiset(txs)
  {
    s := [];
    var todo := txs;
    while todo != {}
      invariant todo <= txs
      invariant multiset(s) + multiset(todo) == multiset(txs)
    {
      var tx :| tx in todo;
      s := s + [tx];
      assert multiset(todo) == multiset(todo - {tx}) + multiset{tx};
      todo := todo - {tx};
    }
  }

  /** Pushes saved transactions back. */
  method PushAll(h: seq<Tx>, save: seq<Tx>) returns (r: seq<Tx>)
    requires Ordered(h, PriceLe)
    ensures Ordered(r, PriceLe) && multiset(r) == multiset(h) + multiset(save)
  {
    r := h;
    for i := 0 to |save|
      invariant Ordered(r, PriceLe) && multiset(r) == multiset(h) + multiset(save[..i])
    {
      r := Push(r, save[i], PriceLe);
      assert save[..i + 1] == save[..i] + [save[i]];
    }
    assert save[..|save|] == save;
  }

  method DropStaleHeads(h: seq<Tx>, all: map<TxHash, Tx>) returns (r: seq<Tx>, d: nat)
    requires Ordered(h, PriceLe) && Filed(all) && Covers(multiset(h), all)
    ensures Ordered(r, PriceLe) && Covers(multiset(r), all)
    ensures r != [] ==> Live(all, r[0])
    ensures OnlyStaleGone(multiset(h), multiset(r), all, d)
  {
    r, d := h, 0;
    while |r| > 0 && !Live(all, r[0])
      invariant Ordered(r, PriceLe) && Covers(multiset(r), all) && OnlyStaleGone(multiset(h), multiset(r), all, d)
      decreases |multiset(r)|
    {
      var x;
      ghost var q := r;
      x, r := Pop(r, PriceLe);
      StillCovers(multiset(q), multiset(r), x, all);
      OneMoreGone(multiset(h), multiset(q), all, d, x, multiset(r));
      d := d + 1;
    }
  }

  lemma StillCovers(before: multiset<Tx>, after: multiset<Tx>, x: Tx, all: map<TxHash, Tx>)
    requires Filed(all) && Covers(before, all) && !Live(all, x) && before == after + multiset{x}
    ensures Covers(after, all)
  {
  }

  /**
   What the sweeps over the heap keep: every entry is still in the heap, saved or
   dropped, but for `d` stale ones; the saved ones are local and the dropped ones remote;
   and no dropped one is dearer than what the heap still holds.
   */
  ghost predicate Sweep(before: multiset<Tx>, heap: multiset<Tx>, save: multiset<Tx>, drop: multiset<Tx>, d: int,
                        all: map<TxHash, Tx>, locals: set<Address>) {
    SortedOut(heap, save, drop, all, locals) && OnlyStaleGone(before, heap + save + drop, all, d)
  }

  ghost predicate SortedOut(heap: multiset<Tx>, save: multiset<Tx>, drop: multiset<Tx>, all: map<TxHash, Tx>,
                         locals: set<Address>) {
    && Filed(all) && Covers(heap + save + drop, all)
    && (forall tx :: tx in save ==> tx.sender in locals)
    && (forall tx :: tx in drop ==> Remote(all, locals, tx))
    && (forall v, tx :: v in drop && tx in heap ==> PriceLe(v, tx))
  }

  lemma SortedOutStep(heap: multiset<Tx>, rest: multiset<Tx>, x: Tx, save: multiset<Tx>, drop: multiset<Tx>,
                   all: map<TxHash, Tx>, locals: set<Address>)
    requires SortedOut(heap, save, drop, all, locals) && heap == rest + multiset{x}
    requires forall y :: y in heap ==> PriceLe(x, y)
    ensures !Live(all, x) ==> SortedOut(rest, save, drop, all, locals)
    ensures Live(all, x) && x.sender in locals ==> SortedOut(rest, save + multiset{x}, drop, all, locals)
    ensures Remote(all, locals, x) ==> SortedOut(rest, save, drop + multiset{x}, all, locals)
  {
  }

  lemma SweepStep(before: multiset<Tx>, heap: multiset<Tx>, rest: multiset<Tx>, x: Tx, save: multiset<Tx>,
                  drop: multiset<Tx>, d: int, all: map<TxHash, Tx>)
    requires OnlyStaleGone(before, heap + save + drop, all, d) && heap == rest + multiset{x}
    ensures !Live(all, x) ==> OnlyStaleGone(before, rest + save + drop, all, d + 1)
    ensures OnlyStaleGone(before, rest + (save + multiset{x}) + drop, all, d)
    ensures OnlyStaleGone(before, rest + save + (drop + multiset{x}), all, d)
  {
    assert rest + (save + multiset{x}) + drop == heap + save + drop == rest + save + (drop + multiset{x});
    if !Live(all, x) {
      OneMoreGone(before, heap + save + drop, all, d, x, rest + save + drop);
    }
  }

  /** A surviving remote is still in the heap, so it is no cheaper than any victim. */
  lemma SweepEnd(before: multiset<Tx>, heap: multiset<Tx>, save: multiset<Tx>, drop: multiset<Tx>, d: int,
                 all: map<TxHash, Tx>, locals: set<Address>)
    requires Sweep(before, heap, save, drop, d, all, locals)
    ensures forall tx :: Remote(all, locals, tx) && tx !in drop ==> tx in heap
    ensures Covers(heap + save + drop, all) && OnlyStaleGone(before, heap + save + drop, all, d)
  {
    forall tx | Remote(all, locals, tx) && tx !in drop
      ensures tx in heap
    {
      assert all[tx.Hash()] == tx;
    }
  }

  /** What becomes of an entry taken off the heap: a stale one is counted, a local one saved, a remote one dropped. */
  method SortOut(x: Tx, all: map<TxHash, Tx>, locals: set<Address>, save: seq<Tx>, drop: seq<Tx>, d: nat,
                 ghost before: multiset<Tx>, ghost heap: multiset<Tx>, ghost rest: multiset<Tx>)
    returns (save': seq<Tx>, drop': seq<Tx>, d': nat)
    requires Sweep(before, heap, multiset(save), multiset(drop), d, all, locals) && heap == rest + multiset{x}
    requires forall y :: y in heap ==> PriceLe(x, y)
    ensures Sweep(before, rest, multiset(save'), multiset(drop'), d', all, locals)
    ensures drop' == if Remote(all, locals, x) then drop + [x] else drop
  {
    SortedOutStep(heap, rest, x, multiset(save), multiset(drop), all, locals);
    SweepStep(before, heap, rest, x, multiset(save), multiset(drop), d, all);
    save', drop', d' := save, drop, d;
    if !Live(all, x) {
      d' := d + 1;
    } else if x.sender in locals {
      save' := save + [x];
    } else {
      drop' := drop + [x];
    }
  }

  /** The end of a sweep: what was saved goes back into the heap. */
  method PutBack(rest: seq<Tx>, save: seq<Tx>, all: map<TxHash, Tx>, ghost before: multiset<Tx>,
                 ghost kept: multiset<Tx>, ghost drop: multiset<Tx>, ghost d: int)
    returns (r: seq<Tx>)
    requires Ordered(rest, PriceLe) && multiset(rest) + multiset(save) == kept
    requires Covers(kept + drop, all) && OnlyStaleGone(before, kept + drop, all, d)
    ensures Ordered(r, PriceLe) && multiset(r) == kept
    ensures Covers(multiset(r) + drop, all) && OnlyStaleGone(before, multiset(r) + drop, all, d)
  {
    r := PushAll(rest, save);
  }

  method DiscardLoop(h: seq<Tx>, all: map<TxHash, Tx>, count: int, locals: set<Address>)
    returns (drop: seq<Tx>, r: seq<Tx>, d: nat)
    requires Ordered(h, PriceLe) && Filed(all) && Covers(multiset(h), all)
    ensures Ordered(r, PriceLe) && Covers(multiset(r) + multiset(drop), all)
    ensures |drop| <= count || drop == []
    ensures forall tx :: tx in multiset(drop) ==> Remote(all, locals, tx)
    ensures forall v, tx :: v in multiset(drop) && Remote(all, locals, tx) && tx !in multiset(drop) ==> PriceLe(v, tx)
    ensures |drop| < count ==> forall tx :: Remote(all, locals, tx) ==> tx in multiset(drop)
    ensures OnlyStaleGone(multiset(h), multiset(r) + multiset(drop), all, d)
  {
    drop, r, d := [], h, 0;
    var save := [];
    while |r| > 0 && |drop| < count
      invariant Ordered(r, PriceLe) && Sweep(multiset(h), multiset(r), multiset(save), multiset(drop), d, all, locals)
      invariant |drop| <= count || drop == []
      decreases |multiset(r)|
    {
      var x, rest := Pop(r, PriceLe);
      save, drop, d := SortOut(x, all, locals, save, drop, d, multiset(h), multiset(r), multiset(rest));
      r := rest;
    }
    SweepEnd(multiset(h), multiset(r), multiset(save), multiset(drop), d, all, locals);
    r := PutBack(r, save, all, multiset(h), multiset(r) + multiset(save), multiset(drop), d);
  }

  ghost predicate AllBelow(drop: multiset<Tx>, threshold: nat) {
    forall tx :: tx in drop ==> tx.price < threshold
  }

  ghost predicate NoneBelow(heap: multiset<Tx>, threshold: nat) {
    forall tx :: tx in heap ==> tx.price >= threshold
  }

  lemma BelowMore(all: map<TxHash, Tx>, locals: set<Address>, threshold: nat, drop: seq<Tx>, x: Tx, drop': seq<Tx>)
    requires AllBelow(multiset(drop), threshold) && (Live(all, x) ==> x.price < threshold)
    requires drop' == if Remote(all, locals, x) then drop + [x] else drop
    ensures AllBelow(multiset(drop'), threshold)
  {
  }

  /** Once the heap is empty or its least entry not below the threshold, no remote below it is left. */
  lemma NoneLeftBelow(before: multiset<Tx>, heap: multiset<Tx>, save: multiset<Tx>, drop: multiset<Tx>, d: int,
                      all: map<TxHash, Tx>, locals: set<Address>, threshold: nat)
    requires Sweep(before, heap, save, drop, d, all, locals)
    requires NoneBelow(heap, threshold)
    ensures forall tx :: Remote(all, locals, tx) && tx !in drop ==> tx.price >= threshold
    ensures Covers(heap + save + drop, all) && OnlyStaleGone(before, heap + save + drop, all, d)
    ensures forall tx :: tx in drop ==> Remote(all, locals, tx)
  {
    SweepEnd(before, heap, save, drop, d, all, locals);
  }

  /** The sweep for the entries below a price; it is over once it has come to `last`, which is not below it. */
  ghost predicate Capping(before: multiset<Tx>, r: seq<Tx>, last: seq<Tx>, save: seq<Tx>, drop: seq<Tx>, d: int,
                          all: map<TxHash, Tx>, locals: set<Address>, threshold: nat) {
    && Ordered(r, PriceLe) && AllBelow(multiset(drop), threshold)
    && Sweep(before, multiset(r) + multiset(last), multiset(save), multiset(drop), d, all, locals)
    && (last != [] ==> NoneBelow(multiset(r) + multiset(last), threshold))
  }

  /** One round: takes the least entry off the heap. */
  method CapStep(r: seq<Tx>, save: seq<Tx>, drop: seq<Tx>, d: nat, all: map<TxHash, Tx>, locals: set<Address>,
                 threshold: nat, ghost before: multiset<Tx>)
    returns (r': seq<Tx>, last: seq<Tx>, save': seq<Tx>, drop': seq<Tx>, d': nat)
    requires r != [] && Capping(before, r, [], save, drop, d, all, locals, threshold)
    ensures Capping(before, r', last, save', drop', d', all, locals, threshold)
    ensures |multiset(r')| < |multiset(r)|
  {
    assert multiset(r) + multiset([]) == multiset(r);
    var x;
    x, r' := Pop(r, PriceLe);
    last, save', drop', d' := [], save, drop, d;
    if Live(all, x) && x.price >= threshold {
      last := [x];
      assert multiset(r') + multiset(last) == multiset(r);
    } else {
      save', drop', d' := SortOut(x, all, locals, save, drop, d, before, multiset(r), multiset(r'));
      BelowMore(all, locals, threshold, drop, x, drop');
      assert multiset(r') + multiset(last) == multiset(r');
    }
  }

  lemma CappingStarts(h: seq<Tx>, all: map<TxHash, Tx>, locals: set<Address>, threshold: nat)
    requires Ordered(h, PriceLe) && Filed(all) && Covers(multiset(h), all)
    ensures Capping(multiset(h), h, [], [], [], 0, all, locals, threshold)
  {
    assert multiset(h) + multiset([]) == multiset(h);
  }

  method CapEnd(r: seq<Tx>, last: seq<Tx>, save: seq<Tx>, ghost drop: seq<Tx>, ghost d: nat, all: map<TxHash, Tx>,
                ghost locals: set<Address>, ghost threshold: nat, ghost before: multiset<Tx>)
    returns (r': seq<Tx>)
    requires Capping(before, r, last, save, drop, d, all, locals, threshold) && (r == [] || last != [])
    ensures Ordered(r', PriceLe) && Covers(multiset(r') + multiset(drop), all)
    ensures forall tx :: tx in multiset(drop) ==> Remote(all, locals, tx) && tx.price < threshold
    ensures forall tx :: Remote(all, locals, tx) && tx !in multiset(drop) ==> tx.price >= threshold
    ensures OnlyStaleGone(before, multiset(r') + multiset(drop), all, d)
  {
    ghost var heap := multiset(r) + multiset(last);
    NoneLeftBelow(before, heap, multiset(save), multiset(drop), d, all, locals, threshold);
    r' := PutBack(r, save + last, all, before, heap + multiset(save), multiset(drop), d);
  }

  method CapLoop(h: seq<Tx>, all: map<TxHash, Tx>, threshold: nat, locals: set<Address>)
    returns (drop: seq<Tx>, r: seq<Tx>, d: nat)
    requires Ordered(h, PriceLe) && Filed(all) && Covers(multiset(h), all)
    ensures Ordered(r, PriceLe) && Covers(multiset(r) + multiset(drop), all)
    ensures forall tx :: tx in multiset(drop) ==> Remote(all, locals, tx) && tx.price < threshold
    ensures forall tx :: Remote(all, locals, tx) && tx !in multiset(drop) ==> tx.price >= threshold
    ensures OnlyStaleGone(multiset(h), multiset(r) + multiset(drop), all, d)
  {
    drop, r, d := [], h, 0;
    var save, last := [], [];
    CappingStarts(h, all, locals, threshold);
    while |r| > 0 && last == []
      invariant Capping(multiset(h), r, last, save, drop, d, all, locals, threshold)
      decreases |multiset(r)|
    {
      r, last, save, drop, d := CapStep(r, save, drop, d, all, locals, threshold, multiset(h));
    }
    r := CapEnd(r, last, save, drop, d, all, locals, threshold, multiset(h));
  }
}
