/**
 What a head reset does to an account that nothing is reinjected for.  Room for the
 batch can be made at its expense: the pool does not look whether what it drops is
 used up already, and takes the virtual nonce down with it.
 */
module Bystanders {
  import opened NonceMaps
  import opened PoolLimits
  import opened PoolState
  import opened PoolSteps
  import opened PoolTraces
  import opened Reinjections
  import opened Transactions

  ghost predicate NotIn(txs: seq<Tx>, a: Address) {
    forall i :: 0 <= i < |txs| ==> txs[i].sender != a
  }

  /** Two cuts, one after the other, are one. */
  lemma LoweredThrough(pm: map<nat, Tx>, pm1: map<nat, Tx>, pm2: map<nat, Tx>, pn: nat, pn1: nat, pn2: nat)
    requires Lowered(pm, pm1, pn, pn1) && Lowered(pm1, pm2, pn1, pn2)
    ensures Lowered(pm, pm2, pn, pn2)
  {
    if !(pm2 == pm1 && pn2 == pn1) {
      var t :| t in pm1 && pm2 == Below(pm1, t) && pn2 == if pn1 > t then t else pn1;
      LoweredTwice(pm, pm1, pn, pn1, t);
    }
  }

  /** Dropping transactions cuts a pending list at the lowest of them. */
  lemma PurgedIsLowered(l: Lists, l': Lists, drop: multiset<Tx>, st: ChainState, a: Address)
    requires PurgedAt(l, l', drop, st, a)
    ensures LoweredAt(l.p, l'.p, l.ns, l'.ns, st, a)
  {
    var pm := Items(l.p, a);
    var t: nat :| PurgedTo(pm, Items(l.q, a), NonceOf(l.ns, st, a), Items(l'.p, a), Items(l'.q, a),
                           NonceOf(l'.ns, st, a), drop, t);
    if t !in pm {
      assert Below(pm, t) == pm;
    }
  }

  lemma AddedElsewhere(v: PoolView, v': PoolView, rules: AddRules, tx: Tx, r: AddResult, a: Address)
    requires AddedOne(v, v', rules, tx, false, r) && tx.sender != a
    ensures LoweredAt(v.l.p, v'.l.p, v.l.ns, v'.l.ns, rules.st, a)
  {
    var drop, mid :| AddedVia(v, v', rules, tx, false, r, drop, mid);
    if !(r.Known? || r.Invalid? || r.Underpriced?) {
      assert PurgedAt(v.l, mid.l, drop, rules.st, a);
      PurgedIsLowered(v.l, mid.l, drop, rules.st, a);
      assert Items(v'.l.p, a) == Items(mid.l.p, a);
    }
  }

  /** Account `a` was at most cut on the way from `v` to `w`. */
  ghost predicate OnlyCut(v: PoolView, w: PoolView, st: ChainState, a: Address) {
    LoweredAt(v.l.p, w.l.p, v.l.ns, w.l.ns, st, a)
  }

  lemma ElsewhereMore(v: PoolView, v1: PoolView, v2: PoolView, rules: AddRules, tx: Tx, r: AddResult, a: Address)
    requires OnlyCut(v, v1, rules.st, a) && AddedOne(v1, v2, rules, tx, false, r) && tx.sender != a
    ensures OnlyCut(v, v2, rules.st, a)
  {
    AddedElsewhere(v1, v2, rules, tx, r, a);
    LoweredThrough(Items(v.l.p, a), Items(v1.l.p, a), Items(v2.l.p, a), NonceOf(v.l.ns, rules.st, a),
                   NonceOf(v1.l.ns, rules.st, a), NonceOf(v2.l.ns, rules.st, a));
  }

  lemma {:induction false} BatchElsewhere(v: PoolView, trace: seq<PoolView>, rules: AddRules, txs: seq<Tx>, n: nat,
                                          rs: seq<AddResult>, k: nat, a: Address)
    requires AddedAll(v, trace, rules, txs, n, false, rs) && k <= n && NotIn(txs, a)
    ensures OnlyCut(v, trace[k], rules.st, a)
  {
    if k > 0 {
      var i := k - 1;
      BatchElsewhere(v, trace, rules, txs, n, rs, i, a);
      BatchStep(v, trace, rules, txs, n, false, rs, i);
      assert txs[i].sender != a;
      ElsewhereMore(v, trace[i], trace[k], rules, txs[i], rs[i], a);
    }
  }

  lemma PassedElsewhere(via: Passage, l': Lists, terms: Terms, full: set<Address>, config: Config,
                        beats: Address -> int, a: Address)
    requires PassedThrough(via, l', terms, full, config, beats) && a !in via.accounts
    ensures LoweredAt(via.added.p, l'.p, via.added.ns, l'.ns, terms.st, a)
  {
    if via.accounts != {} {
      assert PromotedUnless(via.added, via.promoted, terms, full, via.accounts, {}, a);
      assert Items(via.promoted.p, a) == Items(via.added.p, a);
      assert LoweredAt(via.promoted.p, l'.p, via.promoted.ns, l'.ns, terms.st, a);
    }
  }

  /** What is pending below the new state nonce was not dropped before the account is demoted. */
  ghost predicate StaleKept(l: Lists, l': Lists, st: ChainState, a: Address) {
    forall n :: n in Items(l.p, a) && n < st.nonceOf(a) ==> n in Items(l'.p, a)
  }

  /** The virtual nonce is the state nonce before demotion if and only if nothing used up was dropped. */
  lemma SunkIffDropped(l: Lists, l': Lists, st: ChainState, a: Address)
    requires LoweredAt(l.p, l'.p, l.ns, l'.ns, st, a) && NonceOf(l.ns, st, a) == st.nonceOf(a)
    ensures NonceOf(l'.ns, st, a) <= st.nonceOf(a)
    ensures NonceOf(l'.ns, st, a) == st.nonceOf(a) <==> StaleKept(l, l', st, a)
    ensures NonceOf(l'.ns, st, a) < st.nonceOf(a) ==> forall n :: n in Items(l'.p, a) ==> n < NonceOf(l'.ns, st, a)
  {
  }

  /** A virtual nonce below the state nonce stays there: demotion drops all of the list, and nothing is promoted. */
  lemma SunkStays(trace: ResetTrace, l': Lists, terms: Terms, full: set<Address>, config: Config,
                  beats: Address -> int, a: Address)
    requires Settles(trace, l', terms, full, config, beats)
    requires NonceOf(trace.added.ns, terms.st, a) < terms.st.nonceOf(a)
    requires forall n :: n in Items(trace.added.p, a) ==> n < NonceOf(trace.added.ns, terms.st, a)
    ensures !l'.RunAt(terms.st, a)
  {
    var managed, promoted, pn := trace.managed, trace.promoted, NonceOf(trace.added.ns, terms.st, a);
    SunkDemoted(trace, l', terms, full, config, beats, a);
    assert PromotedUnless(managed, promoted, terms, full, managed.q.Keys, {}, a);
    SunkPromoted(managed, promoted, terms, full, a);
    assert LoweredAt(promoted.p, l'.p, promoted.ns, l'.ns, terms.st, a);
  }

  /** Demotion drops a list that is used up entirely. */
  lemma AllStale(p: ListMap, q: ListMap, p': ListMap, q': ListMap, terms: Terms, a: Address)
    requires DemotedUnless(p, q, p', q', terms.st, terms.maxGas, {}, a)
    requires forall n :: n in Items(p, a) ==> n < terms.st.nonceOf(a)
    ensures Items(p', a) == map[]
  {
    if a in p {
      var kept := Payable(p[a], terms.st, a, terms.maxGas).items;
      PayableIsFresh(p[a], terms.st, a, terms.maxGas);
      assert forall n :: n in kept ==> n in Items(p, a) && n >= terms.st.nonceOf(a);
      assert kept.Keys == {};
    }
  }

  lemma SunkDemoted(trace: ResetTrace, l': Lists, terms: Terms, full: set<Address>, config: Config,
                    beats: Address -> int, a: Address)
    requires Settles(trace, l', terms, full, config, beats)
    requires NonceOf(trace.added.ns, terms.st, a) < terms.st.nonceOf(a)
    requires forall n :: n in Items(trace.added.p, a) ==> n < NonceOf(trace.added.ns, terms.st, a)
    ensures Items(trace.managed.p, a) == map[]
    ensures NonceOf(trace.managed.ns, terms.st, a) == NonceOf(trace.added.ns, terms.st, a)
  {
    var l, demoted, managed := trace.added, trace.demoted, trace.managed;
    assert DemotedUnless(l.p, l.q, demoted.p, demoted.q, terms.st, terms.maxGas, {}, a);
    AllStale(l.p, l.q, demoted.p, demoted.q, terms, a);
    assert Managed(managed.p, l.ns, managed.ns, a);
  }

  lemma SunkPromoted(l: Lists, l': Lists, terms: Terms, full: set<Address>, a: Address)
    requires Items(l.p, a) == map[] && NonceOf(l.ns, terms.st, a) < terms.st.nonceOf(a)
    requires PromotedUnless(l, l', terms, full, l.q.Keys, {}, a)
    ensures Items(l'.p, a) == map[] && NonceOf(l'.ns, terms.st, a) == NonceOf(l.ns, terms.st, a)
  {
    if a in l.q {
      var e, c :| Promotion(l, l', terms, full, a, e, c);
      var items := Payable(l.q[a], terms.st, a, terms.maxGas).items;
      PayableIsFresh(l.q[a], terms.st, a, terms.maxGas);
      assert e == 0;
      assert Below(items, c) == map[];
    }
  }

  /** A cut run, with the virtual nonce at the state nonce, settles without a hole. */
  lemma CutSettles(trace: ResetTrace, l: Lists, l': Lists, terms: Terms, full: set<Address>, config: Config,
                   beats: Address -> int, a: Address, s0: nat, v0: nat)
    requires Settles(trace, l', terms, full, config, beats) && Coherent(trace.added)
    requires LoweredAt(l.p, trace.added.p, l.ns, trace.added.ns, terms.st, a)
    requires NonceOf(trace.added.ns, terms.st, a) == terms.st.nonceOf(a)
    requires s0 <= v0 && forall n :: n in Items(l.p, a) <==> s0 <= n < v0
    ensures l'.RunAt(terms.st, a)
  {
    var pm, pm' := Items(l.p, a), Items(trace.added.p, a);
    var u := v0;
    if pm' != pm {
      u :| u in pm && pm' == Below(pm, u);
    }
    assert ListOk(trace.added.p, true, a);
    SettledRun(trace, l', terms, full, config, beats, a, s0, u, terms.st.nonceOf(a));
  }

  /**
   After a reset, limits and all, the nonces of an account that nothing was reinjected
   for are a run if and only if the batch did not cost it a pending transaction
   below its new state nonce.
   */
  lemma BystanderRunIff(v: PoolView, trace: ResetTrace, l': Lists, rules: AddRules, terms: Terms, full: set<Address>,
                        config: Config, beats: Address -> int, txs: seq<Tx>, a: Address, s0: nat, v0: nat)
    requires Batch(v, trace.views, rules, txs, |txs|, false, trace.rs, trace.via.accounts) && v.l.ns == map[]
    requires Reinjected(trace, |txs|, terms, config, beats) && Settles(trace, l', terms, full, config, beats)
    requires rules.st == terms.st && NotIn(txs, a) && Run(Items(v.l.p, a), Items(v.l.q, a), v0, s0)
    ensures l'.RunAt(terms.st, a) <==> StaleKept(v.l, trace.added, terms.st, a)
  {
    var w := trace.views[|txs|];
    BatchElsewhere(v, trace.views, rules, txs, |txs|, trace.rs, |txs|, a);
    PassedElsewhere(trace.via, trace.added, terms, trace.full, config, beats, a);
    LoweredThrough(Items(v.l.p, a), Items(w.l.p, a), Items(trace.added.p, a), NonceOf(v.l.ns, terms.st, a),
                   NonceOf(w.l.ns, terms.st, a), NonceOf(trace.added.ns, terms.st, a));
    SunkIffDropped(v.l, trace.added, terms.st, a);
    if StaleKept(v.l, trace.added, terms.st, a) {
      CutSettles(trace, v.l, l', terms, full, config, beats, a, s0, v0);
    } else {
      SunkStays(trace, l', terms, full, config, beats, a);
    }
  }

  // ----- what can be foreseen -----

  /**
   What the lists before a reset and the reinjected transactions say about the nonces
   of `a` afterwards.
   */
  ghost predicate Foreseen(v: PoolView, st0: ChainState, l': Lists, rules: AddRules, config: Config, txs: seq<Tx>,
                           a: Address) {
    v.l.RunAt(st0, a) ==>
      && (NotIn(txs, a) && (txs == [] || NothingStale(v, rules.st, a)) ==> l'.RunAt(rules.st, a))
      && (Undisturbed(v, rules, config, txs, a) ==>
            (l'.RunAt(rules.st, a) <==> !LeavesHole(v, rules, txs, a, st0.nonceOf(a))))
  }

  /** Nothing is pending below the new state nonce. */
  ghost predicate NothingStale(v: PoolView, st: ChainState, a: Address) {
    forall n :: n in Items(v.l.p, a) ==> n >= st.nonceOf(a)
  }

  lemma ForeseenAt(v: PoolView, st0: ChainState, trace: ResetTrace, l': Lists, rules: AddRules, terms: Terms,
                   full: set<Address>, config: Config, beats: Address -> int, txs: seq<Tx>, a: Address)
    requires Batch(v.(l := v.l.(ns := map[])), trace.views, rules, txs, |txs|, false, trace.rs, trace.via.accounts)
    requires Reinjected(trace, |txs|, terms, config, beats) && Settles(trace, l', terms, full, config, beats)
    requires Matching(rules, terms, v) && v.l.RunAt(st0, a)
    ensures Foreseen(v, st0, l', rules, config, txs, a)
    ensures NotIn(txs, a) ==> (l'.RunAt(rules.st, a) <==> StaleKept(v.l, trace.added, rules.st, a))
  {
    var start := v.(l := v.l.(ns := map[]));
    var s0, v0 := st0.nonceOf(a), NonceOf(v.l.ns, st0, a);
    if NotIn(txs, a) {
      BystanderRunIff(start, trace, l', rules, terms, full, config, beats, txs, a, s0, v0);
      assert txs == [] ==> trace.via.accounts == {} && trace.added == start.l;
    }
    if Undisturbed(v, rules, config, txs, a) {
      SameButNonces(v, start, rules, config, txs, a, s0);
      ReinjectedRunIff(start, trace, l', rules, terms, full, config, beats, txs, a, s0, v0);
    }
  }

  lemma SameButNonces(v: PoolView, v': PoolView, rules: AddRules, config: Config, txs: seq<Tx>, a: Address, s0: nat)
    requires v' == v.(l := v.l.(ns := map[]))
    ensures Undisturbed(v, rules, config, txs, a) <==> Undisturbed(v', rules, config, txs, a)
    ensures LeavesHole(v, rules, txs, a, s0) <==> LeavesHole(v', rules, txs, a, s0)
  {
  }

  /** And what happened to an account that nothing was reinjected for. */
  ghost predicate Bystood(v: PoolView, st0: ChainState, trace: ResetTrace, l': Lists, st: ChainState, txs: seq<Tx>,
                          a: Address) {
    v.l.RunAt(st0, a) && NotIn(txs, a) ==> (l'.RunAt(st, a) <==> StaleKept(v.l, trace.added, st, a))
  }

  lemma ResetForeseen(v: PoolView, st0: ChainState, trace: ResetTrace, l': Lists, rules: AddRules, terms: Terms,
                      full: set<Address>, config: Config, beats: Address -> int, txs: seq<Tx>)
    requires Batch(v.(l := v.l.(ns := map[])), trace.views, rules, txs, |txs|, false, trace.rs, trace.via.accounts)
    requires Reinjected(trace, |txs|, terms, config, beats) && Settles(trace, l', terms, full, config, beats)
    requires Matching(rules, terms, v)
    ensures forall a :: Foreseen(v, st0, l', rules, config, txs, a)
    ensures forall a :: Bystood(v, st0, trace, l', rules.st, txs, a)
  {
    forall a
      ensures Foreseen(v, st0, l', rules, config, txs, a) && Bystood(v, st0, trace, l', rules.st, txs, a)
    {
      if v.l.RunAt(st0, a) {
        ForeseenAt(v, st0, trace, l', rules, terms, full, config, beats, txs, a);
      }
    }
  }
}
