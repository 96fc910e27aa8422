/**
 Every pool operation under one head state keeps the nonces of an account a run:
 pending from the state nonce up to the virtual nonce, the rest queued above.
 */
module PoolRuns {
  import opened PoolLimits
  import opened PoolState
  import opened PoolSteps
  import opened PoolTraces
  import opened Transactions

  /** The nonces of `a` are a run afterwards if they were before. */
  ghost predicate RunKept(l: Lists, l': Lists, st: ChainState, a: Address) {
    l.RunAt(st, a) ==> l'.RunAt(st, a)
  }

  ghost predicate RunsKept(l: Lists, l': Lists, st: ChainState) {
    forall a :: RunKept(l, l', st, a)
  }

  /** Removing one transaction cuts the pending run there, or takes it out of the queue. */
  lemma RemovalKeepsRuns(l: Lists, l': Lists, st: ChainState, a: Address, n: nat)
    requires RemovedFrom(l.p, l.q, l.ns, l'.p, l'.q, l'.ns, st, a, n)
    ensures RunsKept(l, l', st)
  {
    forall b ensures RunKept(l, l', st, b) {
      assert SameAt(l.p, l'.p, a, b) && SameAt(l.q, l'.q, a, b) && SameAt(l.ns, l'.ns, a, b);
    }
  }

  /** Dropping transactions cuts the pending run at the lowest of them. */
  lemma PurgedKeepsRun(l: Lists, l': Lists, drop: multiset<Tx>, st: ChainState, a: Address)
    requires PurgedAt(l, l', drop, st, a)
    ensures RunKept(l, l', st, a)
  {
    var pm, qm, pn := Items(l.p, a), Items(l.q, a), NonceOf(l.ns, st, a);
    var t: nat :| PurgedTo(pm, qm, pn, Items(l'.p, a), Items(l'.q, a), NonceOf(l'.ns, st, a), drop, t);
  }

  /** A transaction that is not pending is queued above the run, unless its nonce is used up. */
  lemma PlacedKeepsRun(l: Lists, l': Lists, st: ChainState, tx: Tx, accepted: bool, a: Address)
    requires Placed(l.p, l.q, l'.p, l'.q, tx, accepted) && l'.ns == l.ns && tx.nonce >= st.nonceOf(tx.sender)
    ensures RunKept(l, l', st, a)
  {
    if accepted && tx.sender == a {
      var pm, qm := Items(l.p, a), Items(l.q, a);
      assert ListOf(l.q, a, false).items == qm;
      if tx.nonce in pm {
        assert Items(l'.p, a) == pm[tx.nonce := tx] && Items(l'.q, a) == qm;
      } else {
        assert Items(l'.p, a) == pm && Items(l'.q, a) == qm[tx.nonce := tx];
      }
    }
  }

  lemma AddedKeepsRun(v: PoolView, v': PoolView, rules: AddRules, tx: Tx, local: bool, r: AddResult, a: Address)
    requires AddedOne(v, v', rules, tx, local, r)
    ensures RunKept(v.l, v'.l, rules.st, a)
  {
    var drop, mid :| AddedVia(v, v', rules, tx, local, r, drop, mid);
    if !(r.Known? || r.Invalid? || r.Underpriced?) {
      assert PurgedAt(v.l, mid.l, drop, rules.st, a);
      PurgedKeepsRun(v.l, mid.l, drop, rules.st, a);
      PlacedKeepsRun(mid.l, v'.l, rules.st, tx, r.Accepted?, a);
    }
  }

  lemma AddingOneKeepsRuns(v: PoolView, v': PoolView, rules: AddRules, tx: Tx, local: bool, r: AddResult)
    requires AddedOne(v, v', rules, tx, local, r)
    ensures RunsKept(v.l, v'.l, rules.st)
  {
    forall a ensures RunKept(v.l, v'.l, rules.st, a) {
      AddedKeepsRun(v, v', rules, tx, local, r, a);
    }
  }

  lemma {:induction false} BatchKeepsRun(v: PoolView, trace: seq<PoolView>, rules: AddRules, txs: seq<Tx>, n: nat,
                                         local: bool, rs: seq<AddResult>, k: nat, a: Address)
    requires AddedAll(v, trace, rules, txs, n, local, rs) && k <= n
    ensures RunKept(v.l, trace[k].l, rules.st, a)
  {
    if k > 0 {
      var i := k - 1;
      BatchKeepsRun(v, trace, rules, txs, n, local, rs, i, a);
      BatchStep(v, trace, rules, txs, n, local, rs, i);
      AddedKeepsRun(trace[i], trace[k], rules, txs[i], local, rs[i], a);
    }
  }

  /** Promotion extends the run, the limits cut it. */
  lemma PromotedKeepsRun(l: Lists, mid: Lists, l': Lists, terms: Terms, full: set<Address>, accounts: set<Address>,
                         config: Config, beats: Address -> int, a: Address)
    requires Promoted(l, mid, l', terms, full, accounts, config, beats)
    ensures RunKept(l, l', terms.st, a)
  {
    assert PromotedUnless(l, mid, terms, full, accounts, {}, a);
    PromotionKeepsRunAt(l, mid, terms, full, accounts, a);
    LimitsKeepRun(mid, l', terms, config, beats, a);
  }

  lemma PromotionKeepsRunAt(l: Lists, l': Lists, terms: Terms, full: set<Address>, accounts: set<Address>, a: Address)
    requires PromotedUnless(l, l', terms, full, accounts, {}, a)
    ensures RunKept(l, l', terms.st, a)
  {
    if a in accounts && a in l.q {
      var e, c :| Promotion(l, l', terms, full, a, e, c);
      PayableIsPart(l.q[a], terms.st, a, terms.maxGas);
      if l.RunAt(terms.st, a) {
        PromotionKeepsRun(Items(l.p, a), Items(l.q, a), Payable(l.q[a], terms.st, a, terms.maxGas).items,
                          NonceOf(l.ns, terms.st, a), terms.st.nonceOf(a), e, c, a in terms.locals, terms.limit);
      }
    } else {
      assert Items(l'.p, a) == Items(l.p, a) && Items(l'.q, a) == Items(l.q, a);
    }
  }

  lemma PromotionKeepsRuns(l: Lists, l': Lists, terms: Terms, full: set<Address>, accounts: set<Address>)
    requires PromotedExcept(l, l', terms, full, accounts, {})
    ensures RunsKept(l, l', terms.st)
  {
    forall a ensures RunKept(l, l', terms.st, a) {
      assert PromotedUnless(l, l', terms, full, accounts, {}, a);
      PromotionKeepsRunAt(l, l', terms, full, accounts, a);
    }
  }

  lemma PassingKeepsRuns(l: Lists, mid: Lists, l': Lists, terms: Terms, full: set<Address>, accounts: set<Address>,
                         config: Config, beats: Address -> int)
    requires Promoted(l, mid, l', terms, full, accounts, config, beats)
    ensures RunsKept(l, l', terms.st)
  {
    forall a ensures RunKept(l, l', terms.st, a) {
      PromotedKeepsRun(l, mid, l', terms, full, accounts, config, beats, a);
    }
  }

  /** Cutting pending lists, with the virtual nonces to match, keeps runs. */
  lemma LoweringKeepsRuns(l: Lists, l': Lists, st: ChainState)
    requires AllLowered(l.p, l'.p, l.ns, l'.ns, st) && l'.q == l.q
    ensures RunsKept(l, l', st)
  {
    forall a ensures RunKept(l, l', st, a) {
      assert LoweredAt(l.p, l'.p, l.ns, l'.ns, st, a);
      NoCut(Items(l.q, a));
      CutKeepsRun(Items(l.p, a), Items(l.q, a), NonceOf(l.ns, st, a), st.nonceOf(a),
                  Items(l'.p, a), Items(l'.q, a), NonceOf(l'.ns, st, a));
    }
  }

  /** And so does dropping from queues. */
  lemma DroppingKeepsRuns(l: Lists, l': Lists, st: ChainState, locals: set<Address>, beats: Address -> int)
    requires l'.p == l.p && l'.ns == l.ns && forall a, b :: QueueDropped(l.q, l'.q, locals, beats, a, b)
    ensures RunsKept(l, l', st)
  {
    forall a ensures RunKept(l, l', st, a) {
      assert QueueDropped(l.q, l'.q, locals, beats, a, a);
      CutKeepsRun(Items(l.p, a), Items(l.q, a), NonceOf(l.ns, st, a), st.nonceOf(a),
                  Items(l'.p, a), Items(l'.q, a), NonceOf(l'.ns, st, a));
    }
  }

  lemma LimitsKeepRun(l: Lists, l': Lists, terms: Terms, config: Config, beats: Address -> int, a: Address)
    requires Limited(l, l', terms, config, beats)
    ensures RunKept(l, l', terms.st, a)
  {
    assert LoweredAt(l.p, l'.p, l.ns, l'.ns, terms.st, a) && QueueDropped(l.q, l'.q, terms.locals, beats, a, a);
    CutKeepsRun(Items(l.p, a), Items(l.q, a), NonceOf(l.ns, terms.st, a), terms.st.nonceOf(a),
                Items(l'.p, a), Items(l'.q, a), NonceOf(l'.ns, terms.st, a));
  }

  lemma CutKeepsRun(pm: map<nat, Tx>, qm: map<nat, Tx>, pn: nat, sn: nat, pm': map<nat, Tx>, qm': map<nat, Tx>,
                    pn': nat)
    requires Lowered(pm, pm', pn, pn') && IsCut(qm, qm')
    ensures Run(pm, qm, pn, sn) ==> Run(pm', qm', pn', sn)
  {
  }

  /** Adding a batch and promoting what is new. */
  lemma PassedKeepsRun(via: Passage, l': Lists, terms: Terms, full: set<Address>, config: Config,
                       beats: Address -> int, a: Address)
    requires PassedThrough(via, l', terms, full, config, beats)
    ensures RunKept(via.added, l', terms.st, a)
  {
    if via.accounts != {} {
      PromotedKeepsRun(via.added, via.promoted, l', terms, full, via.accounts, config, beats, a);
    }
  }

  lemma PurgingKeepsRuns(l: Lists, l': Lists, drop: multiset<Tx>, st: ChainState)
    requires AllPurged(l, l', drop, st)
    ensures RunsKept(l, l', st)
  {
    forall a ensures RunKept(l, l', st, a) {
      assert PurgedAt(l, l', drop, st, a);
      PurgedKeepsRun(l, l', drop, st, a);
    }
  }

  lemma AddingKeepsRuns(v: PoolView, mid: PoolView, via: Passage, l': Lists, rules: AddRules, tx: Tx, local: bool,
                        r: AddResult, terms: Terms, full: set<Address>, config: Config, beats: Address -> int)
    requires AddedOne(v, mid, rules, tx, local, r) && mid.l == via.added && rules.st == terms.st
    requires PassedThrough(via, l', terms, full, config, beats)
    ensures RunsKept(v.l, l', terms.st)
  {
    forall a ensures RunKept(v.l, l', terms.st, a) {
      AddedKeepsRun(v, mid, rules, tx, local, r, a);
      PassedKeepsRun(via, l', terms, full, config, beats, a);
    }
  }

  lemma BatchKeepsRuns(v: PoolView, trace: seq<PoolView>, via: Passage, l': Lists, rules: AddRules, txs: seq<Tx>,
                       n: nat, local: bool, rs: seq<AddResult>, terms: Terms, full: set<Address>, config: Config,
                       beats: Address -> int)
    requires AddedAll(v, trace, rules, txs, n, local, rs) && trace[n].l == via.added && rules.st == terms.st
    requires PassedThrough(via, l', terms, full, config, beats)
    ensures RunsKept(v.l, l', terms.st)
  {
    forall a ensures RunKept(v.l, l', terms.st, a) {
      BatchKeepsRun(v, trace, rules, txs, n, local, rs, n, a);
      PassedKeepsRun(via, l', terms, full, config, beats, a);
    }
  }

  /** The eviction timer only drops whole queues. */
  lemma EvictionKeepsRuns(p: ListMap, q: ListMap, q': ListMap, ns: map<Address, nat>, st: ChainState,
                          idle: set<Address>)
    requires Evicted(q, q', idle, {})
    ensures RunsKept(Lists(p, q, ns), Lists(p, q', ns), st)
  {
    forall a ensures RunKept(Lists(p, q, ns), Lists(p, q', ns), st, a) {
      assert EvictedUnless(q, q', idle, {}, a);
    }
  }
}
