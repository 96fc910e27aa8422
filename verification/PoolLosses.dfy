/**
 What promoting and demoting an account may cost it, said of its nonces and
 transactions before and after alone.
 */
module PoolLosses {
  import opened NonceMaps
  import opened PoolLimits
  import opened PoolState
  import opened PoolSteps
  import opened PoolTraces
  import opened SortedMaps
  import opened Transactions
  import opened TxLists

  /**
   Account `a` covers value and gas of `tx`, and the gas is within a block; or it covers the
   value, and the creator of the called contract pays for the gas it grants.
   */
  predicate CanPay(terms: Terms, a: Address, tx: Tx) {
    var st := terms.st;
    if tx.gasLimit > 0 then tx.value + tx.price * tx.gasLimit <= st.balanceOf(a) && tx.gasLimit <= terms.maxGas
    else
      && tx.to.Some? && st.paysFor(tx.sender, tx) && tx.value <= st.balanceOf(a)
      && st.contractGasLimit(tx.to.value) <= terms.maxGas
      && tx.price * st.contractGasLimit(tx.to.value) <= st.balanceOf(st.creatorOrSelf(tx.to.value))
  }

  lemma CanPayMeans(terms: Terms, a: Address, tx: Tx)
    ensures CanPay(terms, a, tx) <==> !Unpayable(terms.st, tx, terms.st.balanceOf(a), terms.maxGas)
  {
  }

  /** What survives the filter of a list is payable, if its sender pays for it. */
  lemma PayableAre(l: AccountList, st: ChainState, a: Address, maxGas: nat, n: nat)
    requires l.CapsBound() && n in Payable(l, st, a, maxGas).items
    ensures n in l.items && Payable(l, st, a, maxGas).items[n] == l.items[n] && n >= st.nonceOf(a)
    ensures l.items[n].SelfPaying() ==> !Unpayable(st, l.items[n], st.balanceOf(a), maxGas)
  {
    var l1 := l.Without(Below(l.items, st.nonceOf(a)).Keys);
    WithoutKeepsCaps(l, Below(l.items, st.nonceOf(a)).Keys);
    FilterIsExactForSelfPaying(l1, st, st.balanceOf(a), maxGas);
  }

  /** And what is payable survives the filter of a queue. */
  lemma PayableStays(l: AccountList, st: ChainState, a: Address, maxGas: nat, n: nat)
    requires !l.strict && n in l.items && n >= st.nonceOf(a) && !Unpayable(st, l.items[n], st.balanceOf(a), maxGas)
    ensures n in Payable(l, st, a, maxGas).items
  {
  }

  // ----- promotion -----

  /**
   One account was promoted.  Its pending transactions are still there; what joined
   them, and what is still queued, was queued before, is not used up and, if its
   sender pays for it, payable.  A local account loses nothing payable.  Another
   keeps at most its limit queued, and loses something payable only above all it
   keeps, and only if it keeps just as many as the limit.
   */
  ghost predicate QueueServed(l: Lists, l': Lists, terms: Terms, a: Address) {
    var pm, qm, pm', qm' := Items(l.p, a), Items(l.q, a), Items(l'.p, a), Items(l'.q, a);
    && (forall n :: n in pm ==> n in pm' && pm'[n] == pm[n])
    && (forall n :: n in pm' && n !in pm ==> n in qm && pm'[n] == qm[n] && Fit(terms, a, qm, n))
    && (forall n :: n in qm' ==> n in qm && qm'[n] == qm[n] && Fit(terms, a, qm, n) && n !in pm')
    && (a !in terms.locals ==> |qm'| <= terms.limit)
    && (forall d :: d in qm && d >= terms.st.nonceOf(a) && CanPay(terms, a, qm[d]) && d !in pm' && d !in qm' ==>
          a !in terms.locals && |qm'| == terms.limit && forall n :: n in qm' ==> n < d)
  }

  predicate Fit(terms: Terms, a: Address, m: map<nat, Tx>, n: nat)
    requires n in m
  {
    n >= terms.st.nonceOf(a) && (m[n].SelfPaying() ==> CanPay(terms, a, m[n]))
  }

  lemma PromotionServes(l: Lists, l': Lists, terms: Terms, full: set<Address>, a: Address, e: nat, c: nat)
    requires a in l.q && Promotion(l, l', terms, full, a, e, c) && ListOk(l.q, false, a)
    requires forall n :: n in Items(l.p, a) ==> n !in Items(l.q, a)
    ensures QueueServed(l, l', terms, a)
  {
    var items := Payable(l.q[a], terms.st, a, terms.maxGas).items;
    CappedIsKept(From(items, c), a in terms.locals, terms.limit);
    FilterKeepsPayable(l.q[a], terms, a);
    ServedFrom(l, l', terms, a, items, c);
  }

  /** `items` is what is left of `qm` without what is used up or not payable. */
  ghost predicate PayablePart(terms: Terms, a: Address, qm: map<nat, Tx>, items: map<nat, Tx>) {
    && (forall n :: n in items ==> n in qm && items[n] == qm[n] && Fit(terms, a, qm, n))
    && (forall n :: n in qm && n >= terms.st.nonceOf(a) && CanPay(terms, a, qm[n]) ==> n in items)
  }

  lemma FilterKeepsPayable(l: AccountList, terms: Terms, a: Address)
    requires l.CapsBound() && !l.strict
    ensures PayablePart(terms, a, l.items, Payable(l, terms.st, a, terms.maxGas).items)
  {
    var items := Payable(l, terms.st, a, terms.maxGas).items;
    forall n | n in items ensures n in l.items && items[n] == l.items[n] && Fit(terms, a, l.items, n) {
      PayableAre(l, terms.st, a, terms.maxGas, n);
      CanPayMeans(terms, a, l.items[n]);
    }
    forall n | n in l.items && n >= terms.st.nonceOf(a) && CanPay(terms, a, l.items[n]) ensures n in items {
      CanPayMeans(terms, a, l.items[n]);
      PayableStays(l, terms.st, a, terms.maxGas, n);
    }
  }

  lemma ServedFrom(l: Lists, l': Lists, terms: Terms, a: Address, items: map<nat, Tx>, c: nat)
    requires PayablePart(terms, a, Items(l.q, a), items) && Items(l'.p, a) == Items(l.p, a) + Below(items, c)
    requires QueueKept(From(items, c), Items(l'.q, a), a in terms.locals, terms.limit)
    requires forall n :: n in Items(l.p, a) ==> n !in Items(l.q, a)
    ensures QueueServed(l, l', terms, a)
  {
    ServedBy(Items(l.p, a), items, Items(l'.p, a), Items(l'.q, a), c, a in terms.locals, terms.limit);
  }

  /** The values behind `QueueServed`. */
  lemma ServedBy(pm: map<nat, Tx>, items: map<nat, Tx>, pm': map<nat, Tx>, qm': map<nat, Tx>, c: nat, local: bool,
                 limit: nat)
    requires pm' == pm + Below(items, c) && QueueKept(From(items, c), qm', local, limit)
    requires forall n :: n in pm ==> n !in items
    ensures forall n :: n in pm ==> n in pm' && pm'[n] == pm[n]
    ensures forall n :: n in pm' && n !in pm ==> n in items && pm'[n] == items[n]
    ensures forall n :: n in qm' ==> n in items && qm'[n] == items[n] && n !in pm'
    ensures !local ==> |qm'| <= limit
    ensures forall d :: d in items && d !in pm' && d !in qm' ==>
              !local && |qm'| == limit && forall n :: n in qm' ==> n < d
  {
    forall d | d in items && d !in pm' && d !in qm'
      ensures !local && |qm'| == limit && forall n :: n in qm' ==> n < d
    {
      assert d in From(items, c);
    }
  }

  /** All given accounts that have a queue were promoted. */
  ghost predicate AllServed(l: Lists, l': Lists, terms: Terms, accounts: set<Address>) {
    forall a :: a in accounts && a in l.q ==> QueueServed(l, l', terms, a)
  }

  lemma PromotionServesAll(l: Lists, all: map<TxHash, Tx>, l': Lists, terms: Terms, full: set<Address>,
                           accounts: set<Address>)
    requires Agree(l.p, l.q, all, 0, map[]) && PromotedExcept(l, l', terms, full, accounts, {})
    ensures AllServed(l, l', terms, accounts)
  {
    forall a | a in accounts && a in l.q ensures QueueServed(l, l', terms, a) {
      assert PromotedUnless(l, l', terms, full, accounts, {}, a) && ListOk(l.q, false, a);
      var e, c :| Promotion(l, l', terms, full, a, e, c);
      OwnApart(l.p, l.q, all, a);
      PromotionServes(l, l', terms, full, a, e, c);
    }
  }

  /** The limits on the whole pool leave a local queue alone and only cut others. */
  ghost predicate QueueWithin(l: Lists, l': Lists, terms: Terms, a: Address) {
    if a in terms.locals then Items(l'.q, a) == Items(l.q, a) else |Items(l'.q, a)| <= terms.limit
  }

  lemma LimitsKeepQueue(l: Lists, l': Lists, terms: Terms, config: Config, beats: Address -> int, a: Address)
    requires Limited(l, l', terms, config, beats)
    requires a !in terms.locals ==> |Items(l.q, a)| <= terms.limit
    ensures QueueWithin(l, l', terms, a)
  {
    assert QueueDropped(l.q, l'.q, terms.locals, beats, a, a);
    if a !in terms.locals {
      assert Items(l'.q, a).Keys <= Items(l.q, a).Keys;
      Within(Items(l'.q, a).Keys, Items(l.q, a).Keys);
      assert |Items(l'.q, a)| == |Items(l'.q, a).Keys| && |Items(l.q, a)| == |Items(l.q, a).Keys|;
    }
  }

  lemma LimitsKeepQueues(l: Lists, mid: Lists, l': Lists, terms: Terms, accounts: set<Address>, config: Config,
                         beats: Address -> int)
    requires AllServed(l, mid, terms, accounts) && Limited(mid, l', terms, config, beats)
    ensures forall a :: a in accounts && a in l.q ==> QueueWithin(mid, l', terms, a)
  {
    forall a | a in accounts && a in l.q ensures QueueWithin(mid, l', terms, a) {
      assert QueueServed(l, mid, terms, a);
      LimitsKeepQueue(mid, l', terms, config, beats, a);
    }
  }

  // ----- demotion -----

  /**
   One account was demoted.  What stays pending is not used up and, if its sender pays
   for it, payable; it starts at the state nonce, and nothing that was pending in
   between is missing.  A payable transaction that is not used up is pending or
   queued afterwards.  The queue loses nothing and gains only what was pending.
   */
  ghost predicate DemotionServed(p: ListMap, q: ListMap, p': ListMap, q': ListMap, terms: Terms, a: Address) {
    var pm, qm, pm', qm', sn := Items(p, a), Items(q, a), Items(p', a), Items(q', a), terms.st.nonceOf(a);
    && (forall n :: n in pm' ==> n in pm && pm'[n] == pm[n] && Fit(terms, a, pm, n))
    && (pm' != map[] ==> sn in pm') && (forall n, k :: n in pm' && k in pm && sn <= k <= n ==> k in pm')
    && (forall n :: n in pm && n >= sn && CanPay(terms, a, pm[n]) && n !in pm' ==> n in qm' && qm'[n] == pm[n])
    && (forall n :: n in qm ==> n in qm' && qm'[n] == qm[n])
    && (forall n :: n in qm' && n !in qm ==> n in pm && qm'[n] == pm[n] && n >= sn && n !in pm')
    && (sn in pm ==> forall n :: n in pm && n >= sn && PaidUpTo(terms, a, pm, n) ==> n in pm')
  }

  /** Everything from the state nonce up to `n` is payable. */
  ghost predicate PaidUpTo(terms: Terms, a: Address, pm: map<nat, Tx>, n: nat) {
    forall k :: k in pm && terms.st.nonceOf(a) <= k <= n ==> CanPay(terms, a, pm[k])
  }

  /** Demotion keeps a pending transaction if it and those below it, from the state nonce, are payable. */
  lemma PayableUpTo(l: AccountList, terms: Terms, a: Address, n: nat)
    requires l.strict && n in l.items && n >= terms.st.nonceOf(a) && PaidUpTo(terms, a, l.items, n)
    ensures n in Payable(l, terms.st, a, terms.maxGas).items
  {
    var st := terms.st;
    var l1 := l.Without(Below(l.items, st.nonceOf(a)).Keys);
    var dropped := l1.Dropped(st, st.balanceOf(a), terms.maxGas);
    assert n in l1.items;
    assert forall m :: m in dropped ==> m > n;
  }

  /** What is payable and not used up is kept or goes back to the queue. */
  lemma KeptOrRequeued(l: AccountList, terms: Terms, a: Address, n: nat)
    requires l.strict && n in l.items && n >= terms.st.nonceOf(a) && CanPay(terms, a, l.items[n])
    ensures n in Payable(l, terms.st, a, terms.maxGas).items || n in Unsupported(l, terms.st, a, terms.maxGas)
  {
  }

  lemma RequeuedArePending(l: AccountList, terms: Terms, a: Address, n: nat)
    requires n in Unsupported(l, terms.st, a, terms.maxGas)
    ensures n in l.items && Unsupported(l, terms.st, a, terms.maxGas)[n] == l.items[n] && n >= terms.st.nonceOf(a)
    ensures n !in Payable(l, terms.st, a, terms.maxGas).items
  {
  }

  lemma DemotionServes(p: ListMap, q: ListMap, p': ListMap, q': ListMap, terms: Terms, a: Address)
    requires a in p && DemotedItems(p[a], Items(q, a), Items(p', a), Items(q', a), terms.st, a, terms.maxGas)
    requires ListOk(p, true, a) && forall n :: n in Items(p, a) ==> n !in Items(q, a)
    ensures DemotionServed(p, q, p', q', terms, a)
  {
    var l := p[a];
    var kept, lost := Payable(l, terms.st, a, terms.maxGas).items, Unsupported(l, terms.st, a, terms.maxGas);
    PruningKeepsPayable(l, terms, a);
    var t := PrunedRun(l, terms.st, a, terms.maxGas);
    DemotedBy(l.items, Items(q, a), kept, lost, Items(p', a), Items(q', a), terms, a, t);
  }

  /** Of `pm`, `kept` stays pending and `lost` goes back to the queue; nothing else that is payable leaves. */
  ghost predicate PrunedInto(terms: Terms, a: Address, pm: map<nat, Tx>, kept: map<nat, Tx>, lost: map<nat, Tx>) {
    var sn := terms.st.nonceOf(a);
    && (forall n :: n in kept ==> n in pm && kept[n] == pm[n] && Fit(terms, a, pm, n))
    && (forall n :: n in lost ==> n in pm && lost[n] == pm[n] && n >= sn && n !in kept)
    && (forall n :: n in pm && n >= sn && CanPay(terms, a, pm[n]) ==> n in kept || n in lost)
    && (forall n :: n in pm && n >= sn && PaidUpTo(terms, a, pm, n) ==> n in kept)
  }

  lemma PruningKeepsPayable(l: AccountList, terms: Terms, a: Address)
    requires l.strict && l.CapsBound()
    ensures PrunedInto(terms, a, l.items, Payable(l, terms.st, a, terms.maxGas).items,
                       Unsupported(l, terms.st, a, terms.maxGas))
  {
    var kept, lost := Payable(l, terms.st, a, terms.maxGas).items, Unsupported(l, terms.st, a, terms.maxGas);
    var sn := terms.st.nonceOf(a);
    forall n | n in kept ensures n in l.items && kept[n] == l.items[n] && Fit(terms, a, l.items, n) {
      PayableAre(l, terms.st, a, terms.maxGas, n);
      CanPayMeans(terms, a, l.items[n]);
    }
    forall n | n in lost ensures n in l.items && lost[n] == l.items[n] && n >= sn && n !in kept {
      RequeuedArePending(l, terms, a, n);
    }
    forall n | n in l.items && n >= sn && CanPay(terms, a, l.items[n]) ensures n in kept || n in lost {
      KeptOrRequeued(l, terms, a, n);
    }
    forall n | n in l.items && n >= sn && PaidUpTo(terms, a, l.items, n) ensures n in kept {
      PayableUpTo(l, terms, a, n);
    }
  }

  /** The values behind `DemotionServed`. */
  lemma DemotedBy(pm: map<nat, Tx>, qm: map<nat, Tx>, kept: map<nat, Tx>, lost: map<nat, Tx>, pm': map<nat, Tx>,
                  qm': map<nat, Tx>, terms: Terms, a: Address, t: nat)
    requires (forall n :: n in pm ==> n !in qm) && PrunedInto(terms, a, pm, kept, lost)
    requires forall n :: n in kept <==> n in pm && terms.st.nonceOf(a) <= n < t
    requires if kept != map[] && terms.st.nonceOf(a) !in kept then pm' == map[] && qm' == qm + lost + kept
             else pm' == kept && qm' == qm + lost
    ensures forall n :: n in pm' ==> n in pm && pm'[n] == pm[n] && Fit(terms, a, pm, n)
    ensures pm' != map[] ==> terms.st.nonceOf(a) in pm'
    ensures forall n, k :: n in pm' && k in pm && terms.st.nonceOf(a) <= k <= n ==> k in pm'
    ensures forall n :: n in pm && n >= terms.st.nonceOf(a) && CanPay(terms, a, pm[n]) && n !in pm' ==>
              n in qm' && qm'[n] == pm[n]
    ensures forall n :: n in qm ==> n in qm' && qm'[n] == qm[n]
    ensures forall n :: n in qm' && n !in qm ==>
              n in pm && qm'[n] == pm[n] && n >= terms.st.nonceOf(a) && n !in pm'
    ensures terms.st.nonceOf(a) in pm ==>
              forall n :: n in pm && n >= terms.st.nonceOf(a) && PaidUpTo(terms, a, pm, n) ==> n in pm'
  {
    var sn := terms.st.nonceOf(a);
    if sn in pm && kept != map[] {
      var n :| n in kept;
      assert sn in kept;
    }
  }

  lemma DemotionServesAll(p: ListMap, q: ListMap, all: map<TxHash, Tx>, p': ListMap, q': ListMap, terms: Terms)
    requires Agree(p, q, all, 0, map[]) && DemotedExcept(p, q, p', q', terms.st, terms.maxGas, {})
    ensures forall a :: a in p ==> DemotionServed(p, q, p', q', terms, a)
  {
    forall a | a in p ensures DemotionServed(p, q, p', q', terms, a) {
      assert DemotedUnless(p, q, p', q', terms.st, terms.maxGas, {}, a) && ListOk(p, true, a);
      OwnApart(p, q, all, a);
      DemotionServes(p, q, p', q', terms, a);
    }
  }
}
