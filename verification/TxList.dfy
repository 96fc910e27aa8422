/**
 `txList`: the transactions of one account, and the caps that let `Filter` skip
 its scan.

 `AccountList` is the value of a list, with every operation as a function on
 that value.  The class `TxList` keeps the value in a heap-indexed sorted map
 and is proved to compute those functions.  The pool holds lists as values.
 */
module TxLists {
  import opened NonceMaps
  import opened SortedMaps
  import opened Transactions

  /** The filter predicate: the account, or the creator that pays for it, cannot afford the transaction. */
  predicate Unpayable(st: ChainState, tx: Tx, costLimit: nat, gasLimit: nat) {
    if tx.gasLimit == 0 then
      || tx.to.None?
      || !st.paysFor(tx.sender, tx)
      || tx.price * st.contractGasLimit(tx.to.value) > st.balanceOf(st.creatorOrSelf(tx.to.value))
      || tx.value > costLimit
      || st.contractGasLimit(tx.to.value) > gasLimit
    else
      tx.Cost() > costLimit || tx.Gas() > gasLimit
  }

  function UnpayableAt(st: ChainState, costLimit: nat, gasLimit: nat): Tx -> bool {
    tx => Unpayable(st, tx, costLimit, gasLimit)
  }

  function NonceAbove(n: nat): Tx -> bool {
    (tx: Tx) => tx.nonce > n
  }

  /** How many nonces of `m` lie below `n`. */
  function Rank(m: map<nat, Tx>, n: nat): nat {
    |Below(m, n)|
  }

  /** The `k` lowest entries of `m`. */
  function Lowest(m: map<nat, Tx>, k: nat): map<nat, Tx> {
    map n | n in m && Rank(m, n) < k :: m[n]
  }

  /** The entries of `kept` above some entry of `removed`. */
  function Above(kept: map<nat, Tx>, removed: map<nat, Tx>): map<nat, Tx> {
    map n | n in kept && (exists r | r in removed :: r < n) :: kept[n]
  }

  /** `m` has no missing nonce between two that it holds. */
  ghost predicate GapFree(m: map<nat, Tx>) {
    forall a: nat, b: nat, c: nat :: a in m && c in m && a <= b <= c ==> b in m
  }

  /** A replacement must pay more, and at least `bump` percent more. */
  predicate Outbids(tx: Tx, prior: Tx, bump: nat) {
    prior.price < tx.price && prior.price * (100 + bump) / 100 <= tx.price
  }

  /** In whole numbers: the percentage is compared without the fraction that the division drops. */
  lemma OutbidsMeans(tx: Tx, prior: Tx, bump: nat)
    ensures Outbids(tx, prior, bump) <==> tx.price > prior.price && prior.price * (100 + bump) < 100 * (tx.price + 1)
  {
    var raised := prior.price * (100 + bump);
    assert raised / 100 <= tx.price <==> raised < 100 * (tx.price + 1);
  }

  datatype AccountList = AccountList(strict: bool, items: map<nat, Tx>, costcap: nat, gascap: nat)
  {
    predicate Overlaps(tx: Tx) { tx.nonce in items }

    /** A new nonce is accepted; a known one only at a price bumped by at least `bump` percent. */
    predicate Accepts(tx: Tx, bump: nat) {
      tx.nonce in items ==> Outbids(tx, items[tx.nonce], bump)
    }

    function Added(tx: Tx): AccountList {
      AccountList(strict, items[tx.nonce := tx],
                  if costcap < tx.Cost() then tx.Cost() else costcap,
                  if gascap < tx.Gas() then tx.Gas() else gascap)
    }

    function Without(nonces: set<nat>): AccountList {
      this.(items := items - nonces)
    }

    /** Deletes by nonce; a strict list gives up everything above the deleted nonce too. */
    function Removed(nonce: nat): AccountList {
      this.(items := if strict && nonce in items then Below(items, nonce) else items - {nonce})
    }

    /** What `Removed` gives up besides the deleted transaction. */
    function Orphans(nonce: nat): map<nat, Tx> {
      if strict && nonce in items then From(items, nonce + 1) else map[]
    }

    /** Both caps are within the limits, so that `Filter` does not look at the transactions. */
    predicate Skips(costLimit: nat, gasLimit: nat) {
      costcap <= costLimit && gascap <= gasLimit
    }

    function Dropped(st: ChainState, costLimit: nat, gasLimit: nat): map<nat, Tx> {
      if Skips(costLimit, gasLimit) then map[]
      else Select(items, UnpayableAt(st, costLimit, gasLimit))
    }

    /** What a strict list loses besides the dropped transactions: everything above the lowest of them. */
    function Invalids(st: ChainState, costLimit: nat, gasLimit: nat): map<nat, Tx> {
      var dropped := Dropped(st, costLimit, gasLimit);
      if strict then Above(items - dropped.Keys, dropped) else map[]
    }

    function Filtered(st: ChainState, costLimit: nat, gasLimit: nat): AccountList {
      if Skips(costLimit, gasLimit) then this
      else
        AccountList(strict,
                    items - Dropped(st, costLimit, gasLimit).Keys - Invalids(st, costLimit, gasLimit).Keys,
                    costLimit, gasLimit)
    }

    /** The caps bound every transaction that the sender pays for. */
    ghost predicate CapsBound() {
      forall n :: n in items && items[n].SelfPaying() ==> items[n].Cost() <= costcap && items[n].Gas() <= gascap
    }
  }

  const EmptyStrict := AccountList(true, map[], 0, 0)
  const EmptyLoose := AccountList(false, map[], 0, 0)

  // ----- the caps -----

  lemma AddedKeepsCaps(l: AccountList, tx: Tx)
    requires l.CapsBound()
    ensures l.Added(tx).CapsBound()
  {
  }

  lemma WithoutKeepsCaps(l: AccountList, nonces: set<nat>)
    requires l.CapsBound()
    ensures l.Without(nonces).CapsBound()
  {
  }

  lemma PartKeepsCaps(l: AccountList, part: map<nat, Tx>)
    requires l.CapsBound() && forall n :: n in part ==> n in l.items && part[n] == l.items[n]
    ensures l.(items := part).CapsBound()
  {
  }

  lemma FilteredKeepsCaps(l: AccountList, st: ChainState, costLimit: nat, gasLimit: nat)
    requires l.CapsBound()
    ensures l.Filtered(st, costLimit, gasLimit).CapsBound()
  {
    var r := l.Filtered(st, costLimit, gasLimit);
    if !l.Skips(costLimit, gasLimit) {
      forall n | n in r.items && r.items[n].SelfPaying()
        ensures r.items[n].Cost() <= costLimit && r.items[n].Gas() <= gasLimit
      {
        assert n !in l.Dropped(st, costLimit, gasLimit);
      }
    }
  }

  /** After `Filter`, skipped or not, no transaction its sender pays for is beyond the limits. */
  lemma FilterIsExactForSelfPaying(l: AccountList, st: ChainState, costLimit: nat, gasLimit: nat)
    requires l.CapsBound()
    ensures forall n :: n in l.items && l.items[n].SelfPaying() ==>
              (n in l.Dropped(st, costLimit, gasLimit) <==> Unpayable(st, l.items[n], costLimit, gasLimit))
  {
  }

  /** A head state in which no creator pays for anything. */
  function Stingy(): ChainState {
    ChainState(a => 0, a => 0, a => 0, a => false, a => a, a => a, a => 0, (a, tx) => false)
  }

  /**
   The skipped scan is exact whatever the contract registries say if and only
   if every transaction of the list is paid for by its sender: a creator's
   willingness and balance can change without touching the caps.
   */
  lemma SkipIsExactIffSelfPaying(l: AccountList, costLimit: nat, gasLimit: nat)
    requires l.CapsBound() && l.Skips(costLimit, gasLimit)
    ensures (forall st, n :: n in l.items ==> !Unpayable(st, l.items[n], costLimit, gasLimit))
       <==> (forall n :: n in l.items ==> l.items[n].SelfPaying())
  {
    if n :| n in l.items && !l.items[n].SelfPaying() {
      assert Unpayable(Stingy(), l.items[n], costLimit, gasLimit);
    }
  }

  // ----- gap-free lists stay gap-free -----

  lemma CutsKeepGapFree(m: map<nat, Tx>, t: nat)
    requires GapFree(m)
    ensures GapFree(Below(m, t)) && GapFree(From(m, t))
  {
  }

  /** What is left of a list after dropping some entries and everything above the lowest of them is a cut. */
  lemma FilteredIsCut(m: map<nat, Tx>, dropped: map<nat, Tx>)
    requires dropped.Keys <= m.Keys
    ensures exists t: nat :: m - dropped.Keys - Above(m - dropped.Keys, dropped).Keys == Below(m, t)
  {
    var kept := m - dropped.Keys - Above(m - dropped.Keys, dropped).Keys;
    if dropped == map[] {
      var t := Bound(m.Keys);
      assert kept == Below(m, t);
    } else {
      var l := LeastOf(dropped.Keys);
      assert kept == Below(m, l);
    }
  }

  lemma {:induction false} LeastOf(s: set<nat>) returns (n: nat)
    requires s != {}
    ensures n in s && forall k :: k in s ==> n <= k
  {
    n :| n in s;
    if s != {n} {
      assert s == (s - {n}) + {n};
      var k := LeastOf(s - {n});
      n := if k < n then k else n;
    }
  }

  lemma FilterKeepsGapFree(l: AccountList, st: ChainState, costLimit: nat, gasLimit: nat)
    requires l.strict && GapFree(l.items)
    ensures GapFree(l.Filtered(st, costLimit, gasLimit).items)
  {
    if !l.Skips(costLimit, gasLimit) {
      FilteredIsCut(l.items, l.Dropped(st, costLimit, gasLimit));
      var t: nat :| l.Filtered(st, costLimit, gasLimit).items == Below(l.items, t);
      CutsKeepGapFree(l.items, t);
    }
  }

  lemma RemoveKeepsGapFree(l: AccountList, nonce: nat)
    requires l.strict && GapFree(l.items)
    ensures GapFree(l.Removed(nonce).items)
  {
    CutsKeepGapFree(l.items, nonce);
    if nonce !in l.items {
      assert l.items - {nonce} == l.items;
    }
  }

  lemma CapKeepsGapFree(m: map<nat, Tx>, k: nat)
    requires GapFree(m)
    ensures GapFree(Lowest(m, k))
  {
    forall a: nat, b: nat, c: nat | a in Lowest(m, k) && c in Lowest(m, k) && a <= b <= c
      ensures b in Lowest(m, k)
    {
      assert b in m;
      Smaller(Below(m, b).Keys, Below(m, c).Keys);
    }
  }

  /** The `k` lowest entries by rank are the cut that `txSortedMap.Cap` makes. */
  lemma LowestIsCut(kept: map<nat, Tx>, m: map<nat, Tx>, k: nat)
    requires IsLowest(kept, m, k)
    ensures kept == Lowest(m, k)
  {
    var t: nat :| kept == Below(m, t);
    forall n | n in m
      ensures n < t <==> Rank(m, n) < k
    {
      CutsNest(m, n, t);
    }
  }

  /** The highest entry, if there is one. */
  lemma {:induction false} HighestOf(s: set<nat>) returns (n: nat)
    requires s != {}
    ensures n in s && forall k :: k in s ==> k <= n
  {
    n :| n in s;
    if s != {n} {
      assert s == (s - {n}) + {n};
      var k := HighestOf(s - {n});
      n := if k > n then k else n;
    }
  }

  /** The highest entry does not count for the others. */
  lemma SameRank(m: map<nat, Tx>, h: nat, n: nat)
    requires n < h
    ensures Rank(m - {h}, n) == Rank(m, n)
  {
    assert Below(m - {h}, n) == Below(m, n);
  }

  lemma HighestRank(m: map<nat, Tx>, h: nat)
    requires h in m && forall n :: n in m ==> n <= h
    ensures |m - {h}| == |m| - 1 && Rank(m, h) == |m| - 1
  {
    assert m.Keys == (m - {h}).Keys + {h};
    assert Below(m, h) == m - {h};
  }

  /** Over the limit, it is not among the lowest. */
  lemma LowestStep(m: map<nat, Tx>, h: nat, k: nat)
    requires h in m && (forall n :: n in m ==> n <= h) && |m| > k
    ensures Lowest(m - {h}, k) == Lowest(m, k)
  {
    HighestRank(m, h);
    var l, l' := Lowest(m, k), Lowest(m - {h}, k);
    forall n: nat ensures n in l <==> n in l' {
      if n < h {
        SameRank(m, h, n);
      }
    }
  }

  /** The lowest entries are as many as the limit allows. */
  lemma {:induction false} LowestCount(m: map<nat, Tx>, k: nat)
    ensures |Lowest(m, k)| == if |m| <= k then |m| else k
    decreases |m|
  {
    if |m| > k {
      var h := HighestOf(m.Keys);
      HighestRank(m, h);
      LowestStep(m, h, k);
      LowestCount(m - {h}, k);
    } else {
      forall n | n in m ensures n in Lowest(m, k) {
        CutsNest(m, n, n);
      }
      assert Lowest(m, k) == m;
    }
  }

  /** And they lie below all others. */
  lemma LowestLieBelow(m: map<nat, Tx>, k: nat)
    ensures forall n, d :: n in Lowest(m, k) && d in m && d !in Lowest(m, k) ==> n < d
  {
    forall n, d | n in Lowest(m, k) && d in m && d !in Lowest(m, k) ensures n < d {
      CutsNest(m, d, n);
    }
  }

  /** A lower cut holds fewer entries. */
  lemma CutsNest(m: map<nat, Tx>, n: nat, t: nat)
    requires n in m
    ensures n < t ==> Rank(m, n) < |Below(m, t)|
    ensures n >= t ==> |Below(m, t)| <= Rank(m, n) && |Below(m, t)| < |m|
  {
    var a, b := Below(m, n).Keys, Below(m, t).Keys;
    if n < t {
      assert a + {n} <= b;
      Smaller(a + {n}, b);
    } else {
      Smaller(b, a);
      assert b + {n} <= m.Keys;
      Smaller(b + {n}, m.Keys);
    }
  }

  lemma Smaller(a: set<nat>, b: set<nat>)
    requires a <= b
    ensures |a| <= |b|
  {
    assert b == a + (b - a);
  }

  /**
   Filtering, said of each nonce: unless the caps show that all is payable, a transaction
   stays if and only if it is payable and, in a strict list, all below it are; the caps
   are then the limits.
   */
  ghost predicate FilteredAs(l: AccountList, l': AccountList, st: ChainState, costLimit: nat, gasLimit: nat) {
    if l.costcap <= costLimit && l.gascap <= gasLimit then l' == l
    else
      && l'.strict == l.strict && l'.costcap == costLimit && l'.gascap == gasLimit
      && (forall n :: n in l'.items ==> n in l.items && l'.items[n] == l.items[n])
      && (forall n :: n in l.items ==> (n in l'.items <==> StaysIn(l, st, costLimit, gasLimit, n)))
  }

  ghost predicate StaysIn(l: AccountList, st: ChainState, costLimit: nat, gasLimit: nat, n: nat)
    requires n in l.items
  {
    && !Unpayable(st, l.items[n], costLimit, gasLimit)
    && (l.strict ==> forall k :: k in l.items && k < n ==> !Unpayable(st, l.items[k], costLimit, gasLimit))
  }

  lemma FilteredMeans(l: AccountList, st: ChainState, costLimit: nat, gasLimit: nat)
    ensures FilteredAs(l, l.Filtered(st, costLimit, gasLimit), st, costLimit, gasLimit)
  {
    var l', dropped := l.Filtered(st, costLimit, gasLimit), l.Dropped(st, costLimit, gasLimit);
    if !l.Skips(costLimit, gasLimit) {
      forall n | n in l.items ensures n in l'.items <==> StaysIn(l, st, costLimit, gasLimit, n) {
        assert forall k :: k in dropped <==> k in l.items && Unpayable(st, l.items[k], costLimit, gasLimit);
      }
    }
  }

  // ----- the list object -----

  class TxList {
    const strict: bool
    const txs: TxSortedMap
    var costcap: nat
    var gascap: nat

    /** The caps bound every self-paying transaction of the list, whatever was done to it. */
    ghost predicate Valid()
      reads this, txs
    {
      txs.Valid() && View().CapsBound()
    }

    ghost function View(): AccountList
      reads this, txs
    {
      AccountList(strict, txs.items, costcap, gascap)
    }

    constructor (strict: bool)
      ensures Valid() && View() == AccountList(strict, map[], 0, 0) && fresh(txs)
    {
      this.strict := strict;
      txs := new TxSortedMap();
      costcap, gascap := 0, 0;
    }

    method Overlaps(tx: Tx) returns (b: bool)
      ensures b == View().Overlaps(tx)
    {
      var r := txs.Get(tx.nonce);
      b := r.Some?;
    }

    /** Inserts or replaces, reporting what was replaced. */
    method Add(tx: Tx, bump: nat) returns (inserted: bool, replaced: Option<Tx>)
      requires Valid()
      modifies this, txs
      ensures Valid()
      ensures inserted == old(View()).Accepts(tx, bump)
      ensures inserted <==>
                tx.nonce in old(View()).items ==>
                  var p := old(View()).items[tx.nonce].price;
                  tx.price > p && p * (100 + bump) < 100 * (tx.price + 1)
      ensures View() == if inserted then old(View()).Added(tx) else old(View())
      ensures inserted ==>
                && View().items == old(View()).items[tx.nonce := tx]
                && costcap == (if old(costcap) < tx.Cost() then tx.Cost() else old(costcap))
                && gascap == (if old(gascap) < tx.Gas() then tx.Gas() else old(gascap))
      ensures replaced == if inserted && tx.nonce in old(View()).items then Some(old(View()).items[tx.nonce]) else None
    {
      var prior := txs.Get(tx.nonce);
      if prior.Some? {
        OutbidsMeans(tx, prior.value, bump);
        var threshold := prior.value.price * (100 + bump) / 100;
        if prior.value.price >= tx.price || threshold > tx.price {
          return false, None;
        }
      }
      txs.Put(tx);
      if costcap < tx.Cost() {
        costcap := tx.Cost();
      }
      if gascap < tx.Gas() {
        gascap := tx.Gas();
      }
      AddedKeepsCaps(old(View()), tx);
      return true, prior;
    }

    method Forward(threshold: nat) returns (removed: seq<Tx>)
      requires Valid()
      modifies txs
      ensures Valid()
      ensures View() == old(View()).(items := From(old(View()).items, threshold))
      ensures Lists(removed, Below(old(View()).items, threshold))
    {
      removed := txs.Forward(threshold);
      PartKeepsCaps(old(View()), txs.items);
    }

    method Filter(st: ChainState, costLimit: nat, gasLimit: nat) returns (removed: seq<Tx>, invalids: seq<Tx>)
      requires Valid()
      modifies this, txs
      ensures Valid()
      ensures View() == old(View()).Filtered(st, costLimit, gasLimit)
      ensures FilteredAs(old(View()), View(), st, costLimit, gasLimit)
      ensures Arranges(removed, old(View()).Dropped(st, costLimit, gasLimit))
      ensures Arranges(invalids, old(View()).Invalids(st, costLimit, gasLimit))
    {
      FilteredMeans(View(), st, costLimit, gasLimit);
      if costcap <= costLimit && gascap <= gasLimit {
        return [], [];
      }
      removed, invalids := Scan(st, costLimit, gasLimit);
    }

    /** The part of `Filter` after the early return. */
    method Scan(st: ChainState, costLimit: nat, gasLimit: nat) returns (removed: seq<Tx>, invalids: seq<Tx>)
      requires Valid() && !View().Skips(costLimit, gasLimit)
      modifies this, txs
      ensures Valid()
      ensures View() == old(View()).Filtered(st, costLimit, gasLimit)
      ensures Arranges(removed, old(View()).Dropped(st, costLimit, gasLimit))
      ensures Arranges(invalids, old(View()).Invalids(st, costLimit, gasLimit))
    {
      ghost var l := View();
      costcap, gascap := costLimit, gasLimit;
      removed := txs.Filter(UnpayableAt(st, costLimit, gasLimit));
      KeptByFilter(l.items, UnpayableAt(st, costLimit, gasLimit));
      invalids := GiveUpAbove(removed, l, st, costLimit, gasLimit);
      assert View() == l.Filtered(st, costLimit, gasLimit);
      FilteredKeepsCaps(l, st, costLimit, gasLimit);
    }

    /** A strict list gives up what lies above the lowest transaction removed. */
    method GiveUpAbove(removed: seq<Tx>, ghost l: AccountList, ghost st: ChainState, ghost costLimit: nat,
                       ghost gasLimit: nat)
      returns (invalids: seq<Tx>)
      requires txs.Valid() && strict == l.strict && !l.Skips(costLimit, gasLimit) && Keyed(l.items)
      requires txs.items == l.items - l.Dropped(st, costLimit, gasLimit).Keys
      requires Arranges(removed, l.Dropped(st, costLimit, gasLimit))
      modifies txs
      ensures txs.Valid() && txs.items == l.Filtered(st, costLimit, gasLimit).items
      ensures Arranges(invalids, l.Invalids(st, costLimit, gasLimit))
    {
      invalids := [];
      if strict && |removed| > 0 {
        var lowest := LowestNonce(removed);
        ghost var rest := txs.items;
        invalids := txs.Filter(NonceAbove(lowest));
        InvalidsAreAbove(l, st, costLimit, gasLimit, removed, lowest, rest, invalids, txs.items);
      } else {
        NothingAbove(l.items, l.Dropped(st, costLimit, gasLimit), strict);
      }
    }

    method Cap(threshold: nat) returns (drops: seq<Tx>)
      requires Valid()
      modifies txs
      ensures Valid()
      ensures View() == old(View()).(items := Lowest(old(View()).items, threshold))
      ensures Arranges(drops, old(View()).items - View().items.Keys) && Descending(drops)
    {
      drops := txs.Cap(threshold);
      LowestIsCut(txs.items, old(txs.items), threshold);
      PartKeepsCaps(old(View()), txs.items);
    }

    method Remove(tx: Tx) returns (found: bool, invalids: seq<Tx>)
      requires Valid()
      modifies txs
      ensures Valid()
      ensures found <==> tx.nonce in old(View()).items
      ensures View() == old(View()).Removed(tx.nonce)
      ensures forall n :: n in View().items <==>
                n in old(View()).items && n != tx.nonce && (strict && found ==> n < tx.nonce)
      ensures Arranges(invalids, old(View()).Orphans(tx.nonce))
    {
      found := txs.Remove(tx.nonce);
      invalids := [];
      if found && strict {
        ghost var m := txs.items;
        invalids := txs.Filter(NonceAbove(tx.nonce));
        OrphansAreAbove(old(View()), tx.nonce, m, invalids, txs.items);
      }
      PartKeepsCaps(old(View()), txs.items);
    }

    method Ready(start: nat) returns (ready: seq<Tx>, ghost e: nat)
      requires Valid()
      modifies txs
      ensures Valid()
      ensures IsReadyEnd(old(View()).items, start, e)
      ensures View() == old(View()).(items := From(old(View()).items, e))
      ensures Lists(ready, Below(old(View()).items, e))
    {
      ready, e := txs.Ready(start);
      PartKeepsCaps(old(View()), txs.items);
    }

    method Flatten() returns (s: seq<Tx>)
      requires Valid()
      modifies txs`cache
      ensures Valid() && View() == old(View())
      ensures Lists(s, View().items)
    {
      s := txs.Flatten();
    }
  }

  lemma KeptByFilter(m: map<nat, Tx>, p: Tx -> bool)
    ensures Reject(m, p) == m - Select(m, p).Keys
  {
  }

  lemma NothingAbove(m: map<nat, Tx>, dropped: map<nat, Tx>, strict: bool)
    requires strict ==> |dropped| == 0
    ensures strict ==> Above(m - dropped.Keys, dropped) == map[]
    ensures m - dropped.Keys - {} == m - dropped.Keys
  {
    if strict {
      assert dropped.Keys == {};
    }
  }

  /** The scan of `Filter` for the lowest removed nonce. */
  method LowestNonce(removed: seq<Tx>) returns (lowest: nat)
    requires removed != []
    ensures exists i :: 0 <= i < |removed| && removed[i].nonce == lowest
    ensures forall i :: 0 <= i < |removed| ==> lowest <= removed[i].nonce
  {
    lowest := removed[0].nonce;
    for i := 1 to |removed|
      invariant exists k :: 0 <= k < |removed| && removed[k].nonce == lowest
      invariant forall k :: 0 <= k < i ==> lowest <= removed[k].nonce
    {
      if lowest > removed[i].nonce {
        lowest := removed[i].nonce;
      }
    }
  }

  /** Lying above some removed nonce is lying above the lowest one. */
  lemma LowestBounds(removed: seq<Tx>, dropped: map<nat, Tx>, lowest: nat, kept: map<nat, Tx>)
    requires Arranges(removed, dropped) && Keyed(kept)
    requires exists i :: 0 <= i < |removed| && removed[i].nonce == lowest
    requires forall i :: 0 <= i < |removed| ==> lowest <= removed[i].nonce
    ensures Select(kept, NonceAbove(lowest)) == Above(kept, dropped)
    ensures Reject(kept, NonceAbove(lowest)) == kept - Above(kept, dropped).Keys
  {
    ArrangementCovers(removed, dropped);
    assert lowest in dropped;
    forall r | r in dropped ensures lowest <= r {
      assert r in Nonces(removed);
    }
  }

  /** Filtering out what lies above a deleted nonce is what `Removed` and `Orphans` say. */
  lemma OrphansAreAbove(l: AccountList, nonce: nat, rest: map<nat, Tx>, invalids: seq<Tx>, kept: map<nat, Tx>)
    requires Keyed(l.items) && l.strict && nonce in l.items && rest == l.items - {nonce}
    requires Arranges(invalids, Select(rest, NonceAbove(nonce))) && kept == Reject(rest, NonceAbove(nonce))
    ensures Arranges(invalids, l.Orphans(nonce)) && kept == l.Removed(nonce).items
  {
    FilterAbove(l.items, nonce);
  }

  lemma FilterAbove(m: map<nat, Tx>, nonce: nat)
    requires Keyed(m)
    ensures Select(m - {nonce}, NonceAbove(nonce)) == From(m, nonce + 1)
    ensures Reject(m - {nonce}, NonceAbove(nonce)) == Below(m, nonce)
  {
  }

  /** Likewise for the two scans of `Filter`. */
  lemma InvalidsAreAbove(l: AccountList, st: ChainState, costLimit: nat, gasLimit: nat, removed: seq<Tx>,
                         lowest: nat, rest: map<nat, Tx>, invalids: seq<Tx>, kept: map<nat, Tx>)
    requires Keyed(l.items) && l.strict && !l.Skips(costLimit, gasLimit)
    requires Arranges(removed, l.Dropped(st, costLimit, gasLimit))
    requires exists i :: 0 <= i < |removed| && removed[i].nonce == lowest
    requires forall i :: 0 <= i < |removed| ==> lowest <= removed[i].nonce
    requires rest == l.items - l.Dropped(st, costLimit, gasLimit).Keys
    requires Arranges(invalids, Select(rest, NonceAbove(lowest))) && kept == Reject(rest, NonceAbove(lowest))
    ensures Arranges(invalids, l.Invalids(st, costLimit, gasLimit))
    ensures kept == l.Filtered(st, costLimit, gasLimit).items
  {
    LowestBounds(removed, l.Dropped(st, costLimit, gasLimit), lowest, rest);
  }
}
