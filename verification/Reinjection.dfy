/**
 What reinjecting transactions at a head reset does to the nonces of one account,
 read off from its lists before the reset and from the reinjected transactions.

 A reorganisation takes the chain back, so that the state nonce can fall below
 the lowest pending nonce.  The reinjected transactions are to fill that hole.
 They are promoted before the old pending list is demoted; if they start at the
 new state nonce but do not reach the old list, the list keeps a hole.
 */
module Reinjections {
  import opened Admission
  import opened Mortgage
  import opened NonceMaps
  import opened PoolLimits
  import opened PoolLosses
  import opened PoolResets
  import opened PoolRuns
  import opened PoolState
  import opened PoolSteps
  import opened PoolTraces
  import opened SortedMaps
  import opened Transactions
  import opened TxLists

  /** `tx` is a transaction of `a` with nonce `n` that the pool admits under the new head. */
  predicate Offers(rules: AddRules, locals: set<Address>, tx: Tx, a: Address, n: nat) {
    tx.sender == a && tx.nonce == n && rules.Verdict(tx, a in locals).None?
  }

  /** One of the first `k` transactions is admitted with nonce `n`. */
  ghost predicate OnOffer(rules: AddRules, locals: set<Address>, txs: seq<Tx>, k: nat, a: Address, n: nat)
    requires k <= |txs|
  {
    exists i :: 0 <= i < k && Offers(rules, locals, txs[i], a, n)
  }

  /** `tx` is one of the first `k` transactions and admitted with nonce `n`. */
  ghost predicate Offered(rules: AddRules, locals: set<Address>, txs: seq<Tx>, k: nat, a: Address, n: nat, tx: Tx)
    requires k <= |txs|
  {
    exists i :: 0 <= i < k && txs[i] == tx && Offers(rules, locals, tx, a, n)
  }

  /** What becomes of the pending transaction `tx` when the first `k` transactions may outbid it. */
  ghost function LastBid(rules: AddRules, locals: set<Address>, txs: seq<Tx>, k: nat, tx: Tx): Tx
    requires k <= |txs|
  {
    if k == 0 then tx
    else
      var t, bid := LastBid(rules, locals, txs, k - 1, tx), txs[k - 1];
      if Offers(rules, locals, bid, tx.sender, tx.nonce) && Outbids(bid, t, rules.bump) then bid else t
  }

  lemma {:induction false} LastBidIsOffered(rules: AddRules, locals: set<Address>, txs: seq<Tx>, k: nat, tx: Tx)
    requires k <= |txs|
    ensures var t := LastBid(rules, locals, txs, k, tx);
            t == tx || Offered(rules, locals, txs, k, tx.sender, tx.nonce, t)
  {
    if k > 0 {
      LastBidIsOffered(rules, locals, txs, k - 1, tx);
    }
  }

  // ----- the batch -----

  ghost predicate PendingAfter(pm0: map<nat, Tx>, pm: map<nat, Tx>, rules: AddRules, locals: set<Address>,
                               txs: seq<Tx>, k: nat)
    requires k <= |txs|
  {
    pm.Keys == pm0.Keys && forall n :: n in pm0 ==> pm[n] == LastBid(rules, locals, txs, k, pm0[n])
  }

  /** Besides what was queued before, exactly the nonces on offer that are not pending are queued. */
  ghost predicate QueuedAfter(pm0: map<nat, Tx>, qm0: map<nat, Tx>, qm: map<nat, Tx>, rules: AddRules,
                              locals: set<Address>, txs: seq<Tx>, k: nat, a: Address, n: nat)
    requires k <= |txs|
  {
    && (n !in pm0 ==> (n in qm <==> n in qm0 || OnOffer(rules, locals, txs, k, a, n)))
    && (n in qm ==> (n in qm0 && qm[n] == qm0[n]) || Offered(rules, locals, txs, k, a, n, qm[n]))
  }

  ghost predicate AllQueuedAfter(pm0: map<nat, Tx>, qm0: map<nat, Tx>, qm: map<nat, Tx>, rules: AddRules,
                                 locals: set<Address>, txs: seq<Tx>, k: nat, a: Address)
    requires k <= |txs|
  {
    forall n :: QueuedAfter(pm0, qm0, qm, rules, locals, txs, k, a, n)
  }

  /** Something of `a` among the first `k` was new. */
  ghost predicate Renewed(txs: seq<Tx>, rs: seq<AddResult>, k: nat, a: Address)
    requires k <= |txs| && k <= |rs|
  {
    exists i :: 0 <= i < k && rs[i] == Accepted(false) && txs[i].sender == a
  }

  /** Account `a` after `k` transactions of a batch for which the pool has room. */
  ghost predicate After(v: PoolView, v': PoolView, rules: AddRules, txs: seq<Tx>, rs: seq<AddResult>, k: nat,
                        a: Address)
    requires k <= |txs| && k <= |rs|
  {
    var pm0, qm0, qm := Items(v.l.p, a), Items(v.l.q, a), Items(v'.l.q, a);
    && v'.l.ns == v.l.ns && v'.locals == v.locals && |v'.all| <= |v.all| + k
    && PendingAfter(pm0, Items(v'.l.p, a), rules, v.locals, txs, k)
    && AllQueuedAfter(pm0, qm0, qm, rules, v.locals, txs, k, a)
    && (qm.Keys <= qm0.Keys || Renewed(txs, rs, k, a))
  }

  lemma OneMoreOffer(rules: AddRules, locals: set<Address>, txs: seq<Tx>, k: nat, a: Address, n: nat)
    requires k < |txs|
    ensures OnOffer(rules, locals, txs, k + 1, a, n) <==>
              OnOffer(rules, locals, txs, k, a, n) || Offers(rules, locals, txs[k], a, n)
  {
  }

  /** What adding does when there is room: nothing is dropped. */
  lemma AddedWithRoom(v: PoolView, v': PoolView, rules: AddRules, tx: Tx, r: AddResult)
    requires AddedOne(v, v', rules, tx, false, r) && |v.all| < rules.capacity
    ensures v'.l.ns == v.l.ns && v'.locals == v.locals && |v'.all| <= |v.all| + 1
    ensures r.Known? <==> tx.Hash() in v.all
    ensures tx.Hash() !in v.all ==> (r.Invalid? <==> rules.Verdict(tx, tx.sender in v.locals).Some?)
    ensures if r.Known? || r.Invalid? then v' == v
            else r == Decision(v.l.p, v.l.q, tx, rules.bump)
                 && Placed(v.l.p, v.l.q, v'.l.p, v'.l.q, tx, r.Accepted?)
  {
    var drop, mid :| AddedVia(v, v', rules, tx, false, r, drop, mid);
    if r.Accepted? {
      EnteredSize(v.all, v'.all, tx);
    }
  }

  /** A known transaction of `a` is already counted. */
  lemma KnownIsCounted(v: PoolView, tx: Tx)
    requires v.Sound() && tx.Hash() in v.all
    ensures Held(v.l.p, tx) || Held(v.l.q, tx)
  {
    assert Indexed(v.l.p, v.l.q, v.all, 0, map[], tx);
  }

  /** One transaction, seen from the lists of `a`: it may outbid a pending one or be queued. */
  ghost predicate Tried(pm: map<nat, Tx>, qm: map<nat, Tx>, pm': map<nat, Tx>, qm': map<nat, Tx>, rules: AddRules,
                        locals: set<Address>, tx: Tx, a: Address) {
    var n, valid := tx.nonce, Offers(rules, locals, tx, a, tx.nonce);
    && pm' == (if valid && n in pm && Outbids(tx, pm[n], rules.bump) then pm[n := tx] else pm)
    && (qm' == qm || (valid && n !in pm && qm' == qm[n := tx]))
    && (valid && n !in pm ==> n in qm')
  }

  lemma TriedElsewhere(v: PoolView, v': PoolView, rules: AddRules, tx: Tx, r: AddResult, a: Address)
    requires AddedOne(v, v', rules, tx, false, r) && |v.all| < rules.capacity && tx.sender != a
    ensures Tried(Items(v.l.p, a), Items(v.l.q, a), Items(v'.l.p, a), Items(v'.l.q, a), rules, v.locals, tx, a)
    ensures Items(v'.l.q, a) == Items(v.l.q, a)
  {
    AddedWithRoom(v, v', rules, tx, r);
  }

  lemma TriedHere(v: PoolView, v': PoolView, rules: AddRules, tx: Tx, r: AddResult)
    requires AddedOne(v, v', rules, tx, false, r) && |v.all| < rules.capacity && v.Sound()
    ensures Tried(Items(v.l.p, tx.sender), Items(v.l.q, tx.sender), Items(v'.l.p, tx.sender), Items(v'.l.q, tx.sender),
                  rules, v.locals, tx, tx.sender)
    ensures Items(v'.l.q, tx.sender).Keys <= Items(v.l.q, tx.sender).Keys || r == Accepted(false)
  {
    var a := tx.sender;
    var pm, qm := Items(v.l.p, a), Items(v.l.q, a);
    AddedWithRoom(v, v', rules, tx, r);
    assert ListOf(v.l.q, a, false).items == qm;
    if r.Known? {
      KnownIsCounted(v, tx);
      OwnApart(v.l.p, v.l.q, v.all, a);
    } else if r.Accepted? && tx.nonce !in pm {
      assert Items(v'.l.q, a) == qm[tx.nonce := tx];
    }
  }

  lemma PendingMore(pm0: map<nat, Tx>, qm: map<nat, Tx>, pm: map<nat, Tx>, pm': map<nat, Tx>, qm': map<nat, Tx>,
                    rules: AddRules, locals: set<Address>, txs: seq<Tx>, k: nat, a: Address)
    requires k < |txs| && Owned(a, pm0) && PendingAfter(pm0, pm, rules, locals, txs, k)
    requires Tried(pm, qm, pm', qm', rules, locals, txs[k], a)
    ensures PendingAfter(pm0, pm', rules, locals, txs, k + 1)
  {
    forall n | n in pm0 ensures pm'[n] == LastBid(rules, locals, txs, k + 1, pm0[n]) {
      assert pm[n] == LastBid(rules, locals, txs, k, pm0[n]);
    }
  }

  lemma QueuedMore(pm0: map<nat, Tx>, qm0: map<nat, Tx>, pm: map<nat, Tx>, qm: map<nat, Tx>, pm': map<nat, Tx>,
                   qm': map<nat, Tx>, rules: AddRules, locals: set<Address>, txs: seq<Tx>, k: nat, a: Address, n: nat)
    requires k < |txs| && pm.Keys == pm0.Keys && QueuedAfter(pm0, qm0, qm, rules, locals, txs, k, a, n)
    requires Tried(pm, qm, pm', qm', rules, locals, txs[k], a)
    ensures QueuedAfter(pm0, qm0, qm', rules, locals, txs, k + 1, a, n)
  {
    OneMoreOffer(rules, locals, txs, k, a, n);
    if n in qm' {
      if n in qm && qm'[n] == qm[n] {
        assert Offered(rules, locals, txs, k, a, n, qm[n]) ==> Offered(rules, locals, txs, k + 1, a, n, qm[n]);
      } else {
        assert qm'[n] == txs[k] && Offers(rules, locals, txs[k], a, n);
      }
    }
  }

  lemma AllQueuedMore(pm0: map<nat, Tx>, qm0: map<nat, Tx>, pm: map<nat, Tx>, qm: map<nat, Tx>, pm': map<nat, Tx>,
                      qm': map<nat, Tx>, rules: AddRules, locals: set<Address>, txs: seq<Tx>, k: nat, a: Address)
    requires k < |txs| && pm.Keys == pm0.Keys && AllQueuedAfter(pm0, qm0, qm, rules, locals, txs, k, a)
    requires Tried(pm, qm, pm', qm', rules, locals, txs[k], a)
    ensures AllQueuedAfter(pm0, qm0, qm', rules, locals, txs, k + 1, a)
  {
    var k' := k + 1;
    forall n ensures QueuedAfter(pm0, qm0, qm', rules, locals, txs, k', a, n) {
      assert QueuedAfter(pm0, qm0, qm, rules, locals, txs, k, a, n);
      QueuedMore(pm0, qm0, pm, qm, pm', qm', rules, locals, txs, k, a, n);
    }
  }

  lemma AfterMore(v: PoolView, v1: PoolView, v2: PoolView, rules: AddRules, txs: seq<Tx>, rs: seq<AddResult>, k: nat,
                  a: Address)
    requires k < |txs| && k < |rs| && v.Sound() && v1.Sound() && After(v, v1, rules, txs, rs, k, a)
    requires AddedOne(v1, v2, rules, txs[k], false, rs[k]) && |v.all| + k < rules.capacity
    ensures After(v, v2, rules, txs, rs, k + 1, a)
  {
    AddedWithRoom(v1, v2, rules, txs[k], rs[k]);
    if txs[k].sender == a {
      TriedHere(v1, v2, rules, txs[k], rs[k]);
    } else {
      TriedElsewhere(v1, v2, rules, txs[k], rs[k], a);
    }
    OwnApart(v.l.p, v.l.q, v.all, a);
    TriedMore(v, v1, v2, rules, txs, rs, k, a);
  }

  lemma TriedMore(v: PoolView, v1: PoolView, v2: PoolView, rules: AddRules, txs: seq<Tx>, rs: seq<AddResult>, k: nat,
                  a: Address)
    requires k < |txs| && k < |rs| && Owned(a, Items(v.l.p, a)) && After(v, v1, rules, txs, rs, k, a)
    requires v2.l.ns == v1.l.ns && v2.locals == v1.locals && |v2.all| <= |v1.all| + 1
    requires Tried(Items(v1.l.p, a), Items(v1.l.q, a), Items(v2.l.p, a), Items(v2.l.q, a), rules, v.locals, txs[k], a)
    requires Items(v2.l.q, a).Keys <= Items(v1.l.q, a).Keys || (rs[k] == Accepted(false) && txs[k].sender == a)
    ensures After(v, v2, rules, txs, rs, k + 1, a)
  {
    var pm0, qm0 := Items(v.l.p, a), Items(v.l.q, a);
    var pm1, qm1, pm2, qm2 := Items(v1.l.p, a), Items(v1.l.q, a), Items(v2.l.p, a), Items(v2.l.q, a);
    PendingMore(pm0, qm1, pm1, pm2, qm2, rules, v.locals, txs, k, a);
    AllQueuedMore(pm0, qm0, pm1, qm1, pm2, qm2, rules, v.locals, txs, k, a);
    assert Renewed(txs, rs, k, a) || (rs[k] == Accepted(false) && txs[k].sender == a) ==> Renewed(txs, rs, k + 1, a);
  }

  /** A batch for which there is room leaves the virtual nonces alone, and drops nothing. */
  lemma {:induction false} AfterBatch(v: PoolView, trace: seq<PoolView>, rules: AddRules, txs: seq<Tx>, n: nat,
                                      rs: seq<AddResult>, k: nat, a: Address)
    requires AddedAll(v, trace, rules, txs, n, false, rs) && k <= n && |v.all| + n <= rules.capacity
    ensures After(v, trace[k], rules, txs, rs, k, a)
  {
    if k > 0 {
      var i := k - 1;
      AfterBatch(v, trace, rules, txs, n, rs, i, a);
      BatchStep(v, trace, rules, txs, n, false, rs, i);
      AfterMore(v, trace[i], trace[k], rules, txs, rs, i, a);
    }
  }

  // ----- promoting what is new -----

  /** The pending nonces were extended by those from `sn` up to `c`, where the virtual nonce is now. */
  ghost predicate Extended(pm: map<nat, Tx>, pm': map<nat, Tx>, pn': nat, sn: nat, c: nat) {
    && sn <= c == pn'
    && (forall n :: n in pm' <==> n in pm || sn <= n < c)
    && (forall n :: n in pm ==> pm'[n] == pm[n] && !(sn <= n < c))
  }

  lemma NotExtended(pm: map<nat, Tx>, sn: nat)
    ensures Extended(pm, pm, sn, sn, sn)
  {
  }

  /** The run that starts at the least nonce, if that is `sn`. */
  lemma ReadyFrom(items: map<nat, Tx>, sn: nat, e: nat)
    requires IsReadyEnd(items, sn, e) && forall n :: n in items ==> n >= sn
    ensures if sn in items then IsRunEnd(items, sn, e) else e == 0
  {
    if sn in items {
      assert IsLeast(items, sn);
      var n: nat :| IsLeast(items, n) && IsRunEnd(items, n, e);
      assert n == sn;
    }
  }

  /** Promotion from the state nonce takes the run that starts there, if one does. */
  lemma StepExtends(pm: map<nat, Tx>, items: map<nat, Tx>, sn: nat, pm': map<nat, Tx>, qm': map<nat, Tx>, pn': nat,
                    local: bool, limit: nat, e: nat, c: nat) returns (end: nat)
    requires AccountStep(pm, items, sn, pm', qm', pn', local, limit, e, c)
    requires forall n :: n in items ==> n >= sn && n !in pm
    ensures Extended(pm, pm', pn', sn, end)
    ensures forall n :: sn <= n < end ==> n in items && pm'[n] == items[n]
    ensures end > sn ==> end == c
    ensures sn in items && c == e ==> end > sn && end !in items
  {
    ReadyFrom(items, sn, e);
    end := if c > sn then c else sn;
    assert forall n :: n in Below(items, c) <==> sn <= n < end;
    assert sn < end ==> sn in Below(items, c);
  }

  /** An account that the limits cannot touch is not cut. */
  lemma Uncut(l: Lists, l': Lists, terms: Terms, config: Config, beats: Address -> int, a: Address)
    requires Limited(l, l', terms, config, beats)
    requires a in terms.locals || Size(l.p, a) <= config.accountSlots
    ensures Items(l'.p, a) == Items(l.p, a) && NonceOf(l'.ns, terms.st, a) == NonceOf(l.ns, terms.st, a)
    ensures Items(l'.q, a).Keys <= Items(l.q, a).Keys
  {
    assert Trimmed(l.p, l'.p, config.accountSlots, a) && LoweredAt(l.p, l'.p, l.ns, l'.ns, terms.st, a);
    assert FairPair(l.p, l'.p, terms.locals, config.accountSlots, a, a);
    assert QueueDropped(l.q, l'.q, terms.locals, beats, a, a);
  }

  // ----- how much an account can hold -----

  function Keys(l: Lists, a: Address): set<nat> {
    Items(l.p, a).Keys + Items(l.q, a).Keys
  }

  lemma PromotionAddsNoKeys(l: Lists, l': Lists, terms: Terms, full: set<Address>, accounts: set<Address>, a: Address)
    requires PromotedUnless(l, l', terms, full, accounts, {}, a)
    ensures Keys(l', a) <= Keys(l, a)
  {
    if a in accounts && a in l.q {
      var e, c :| Promotion(l, l', terms, full, a, e, c);
      PayableIsPart(l.q[a], terms.st, a, terms.maxGas);
      LowestIsPart(From(Payable(l.q[a], terms.st, a, terms.maxGas).items, c), terms.limit);
    }
  }

  lemma LimitsAddNoKeys(l: Lists, l': Lists, terms: Terms, config: Config, beats: Address -> int, a: Address)
    requires Limited(l, l', terms, config, beats)
    ensures Keys(l', a) <= Keys(l, a)
  {
    assert Trimmed(l.p, l'.p, config.accountSlots, a) && QueueDropped(l.q, l'.q, terms.locals, beats, a, a);
  }

  lemma PassingAddsNoKeys(via: Passage, l': Lists, terms: Terms, full: set<Address>, config: Config,
                          beats: Address -> int, a: Address)
    requires PassedThrough(via, l', terms, full, config, beats)
    ensures Keys(l', a) <= Keys(via.added, a)
    ensures via.accounts != {} ==> Keys(via.promoted, a) <= Keys(via.added, a)
  {
    if via.accounts != {} {
      assert PromotedUnless(via.added, via.promoted, terms, full, via.accounts, {}, a);
      PromotionAddsNoKeys(via.added, via.promoted, terms, full, via.accounts, a);
      LimitsAddNoKeys(via.promoted, l', terms, config, beats, a);
    }
  }

  lemma DemotionAddsNoKeys(l: Lists, l': Lists, terms: Terms, a: Address)
    requires DemotedUnless(l.p, l.q, l'.p, l'.q, terms.st, terms.maxGas, {}, a)
    ensures Keys(l', a) <= Keys(l, a)
  {
    if a in l.p {
      PayableIsPart(l.p[a], terms.st, a, terms.maxGas);
    }
  }

  lemma {:induction false} FewNonces(txs: seq<Tx>)
    ensures |Nonces(txs)| <= |txs|
  {
    if txs != [] {
      var n := |txs| - 1;
      FewNonces(txs[..n]);
      assert Nonces(txs) == Nonces(txs[..n]) + {txs[n].nonce};
    }
  }

  /** A batch adds at most as many nonces as it has transactions. */
  lemma BatchKeys(v: PoolView, w: PoolView, rules: AddRules, txs: seq<Tx>, rs: seq<AddResult>, a: Address)
    requires |rs| == |txs| && After(v, w, rules, txs, rs, |txs|, a)
    ensures |Keys(w.l, a)| <= |Items(v.l.p, a)| + |Items(v.l.q, a)| + |txs|
  {
    var pm, qm, k := Items(v.l.p, a), Items(v.l.q, a), |txs|;
    forall n | n in Keys(w.l, a) ensures n in pm.Keys + qm.Keys + Nonces(txs) {
      assert QueuedAfter(pm, qm, Items(w.l.q, a), rules, v.locals, txs, k, a, n);
    }
    Within(Keys(w.l, a), pm.Keys + qm.Keys + Nonces(txs));
    FewNonces(txs);
  }

  lemma SizeOfKeys(l: Lists, a: Address)
    ensures Size(l.p, a) <= |Keys(l, a)|
  {
    Within(Items(l.p, a).Keys, Keys(l, a));
    assert |Items(l.p, a)| == |Items(l.p, a).Keys|;
  }

  // ----- demoting what was pending -----

  /** Nothing is missing from `sn` up to any entry of `m`. */
  ghost predicate Dense(m: map<nat, Tx>, sn: nat) {
    forall n, k :: n in m && sn <= k < n ==> k in m
  }

  predicate Affordable(terms: Terms, tx: Tx) {
    !Unpayable(terms.st, tx, terms.st.balanceOf(tx.sender), terms.maxGas)
  }

  /** The pending list is a run from `s0` to `v0` and another, payable, from the state nonce to `c`. */
  ghost predicate TwoRuns(l: AccountList, terms: Terms, a: Address, s0: nat, v0: nat, c: nat) {
    var sn := terms.st.nonceOf(a);
    && l.strict && l.CapsBound() && Owned(a, l.items) && sn <= c && s0 <= v0
    && (forall n :: n in l.items <==> s0 <= n < v0 || sn <= n < c)
    && (forall n :: sn <= n < c ==> !(s0 <= n < v0) && Affordable(terms, l.items[n]))
    && (sn < c && s0 < v0 ==> l.items[s0].SelfPaying() || Affordable(terms, l.items[s0]))
  }

  /** The runs do not meet, and demotion keeps the upper one. */
  ghost predicate HoleBetween(l: AccountList, terms: Terms, a: Address, s0: nat, v0: nat, c: nat)
    requires TwoRuns(l, terms, a, s0, v0, c)
  {
    terms.st.nonceOf(a) < c < s0 < v0 && Affordable(terms, l.items[s0])
  }

  lemma LowerRunKept(l: AccountList, terms: Terms, a: Address, s0: nat, v0: nat, c: nat)
    requires TwoRuns(l, terms, a, s0, v0, c)
    ensures forall n :: terms.st.nonceOf(a) <= n < c ==> n in Payable(l, terms.st, a, terms.maxGas).items
  {
    forall n | terms.st.nonceOf(a) <= n < c ensures n in Payable(l, terms.st, a, terms.maxGas).items {
      PayableUpTo(l, terms, a, n);
    }
  }

  lemma UpperRunKept(l: AccountList, terms: Terms, a: Address, s0: nat, v0: nat, c: nat)
    requires TwoRuns(l, terms, a, s0, v0, c) && terms.st.nonceOf(a) < c && terms.st.nonceOf(a) < s0 < v0
    ensures s0 in Payable(l, terms.st, a, terms.maxGas).items <==> Affordable(terms, l.items[s0])
  {
    if Affordable(terms, l.items[s0]) {
      assert forall m :: m in l.items && terms.st.nonceOf(a) <= m <= s0 ==> Affordable(terms, l.items[m]);
      PayableUpTo(l, terms, a, s0);
    } else if s0 in Payable(l, terms.st, a, terms.maxGas).items {
      PayableAre(l, terms.st, a, terms.maxGas, s0);
    }
  }

  lemma KeptShape(l: AccountList, terms: Terms, a: Address, s0: nat, v0: nat, c: nat)
    requires TwoRuns(l, terms, a, s0, v0, c)
    ensures var kept, sn := Payable(l, terms.st, a, terms.maxGas).items, terms.st.nonceOf(a);
            && (sn < c ==> sn in kept && (Dense(kept, sn) <==> !HoleBetween(l, terms, a, s0, v0, c)))
            && (sn == c && sn in kept ==> Dense(kept, sn))
  {
    var kept, sn := Payable(l, terms.st, a, terms.maxGas).items, terms.st.nonceOf(a);
    var t := PrunedRun(l, terms.st, a, terms.maxGas);
    LowerRunKept(l, terms, a, s0, v0, c);
    if sn < c {
      if sn < s0 < v0 {
        UpperRunKept(l, terms, a, s0, v0, c);
        assert !(sn <= s0 < c);
        if HoleBetween(l, terms, a, s0, v0, c) {
          assert c !in kept && s0 in kept;
        }
      }
    }
  }

  /** Past the highest nonce, having no gap is being dense. */
  lemma NoGapIsDense(pm: map<nat, Tx>, pn: nat, sn: nat)
    requires pm != map[] && pn > 0 && pn - 1 in pm && forall n :: n in pm ==> n < pn
    ensures NoGap(pm, pn, sn) <==> Dense(pm, sn)
  {
  }

  /** After demotion the account is in order if and only if there is no hole between the two runs. */
  lemma SettledInOrder(l: Lists, demoted: Lists, managed: Lists, promoted: Lists, terms: Terms, a: Address,
                       s0: nat, v0: nat, c: nat)
    requires DemotedUnless(l.p, l.q, demoted.p, demoted.q, terms.st, terms.maxGas, {}, a)
    requires managed == demoted.(ns := managed.ns) && Managed(managed.p, l.ns, managed.ns, a)
    requires NonceOf(l.ns, terms.st, a) == c && TwoRuns(ListOf(l.p, a, true), terms, a, s0, v0, c)
    ensures InOrderAt(managed, promoted, terms.st, a) <==> !HoleBetween(ListOf(l.p, a, true), terms, a, s0, v0, c)
  {
    if a in l.p && terms.st.nonceOf(a) in Payable(l.p[a], terms.st, a, terms.maxGas).items {
      KeptShape(l.p[a], terms, a, s0, v0, c);
      KeptInOrder(l, demoted, managed, promoted, terms, a);
    } else {
      EmptiedInOrder(l, demoted, managed, terms, a, s0, v0, c);
    }
  }

  /** If demotion keeps the state nonce pending, the account is in order if what is kept is dense. */
  lemma KeptInOrder(l: Lists, demoted: Lists, managed: Lists, promoted: Lists, terms: Terms, a: Address)
    requires DemotedUnless(l.p, l.q, demoted.p, demoted.q, terms.st, terms.maxGas, {}, a) && a in l.p
    requires managed == demoted.(ns := managed.ns) && Managed(managed.p, l.ns, managed.ns, a)
    requires terms.st.nonceOf(a) in Payable(l.p[a], terms.st, a, terms.maxGas).items
    ensures InOrderAt(managed, promoted, terms.st, a) <==>
              Dense(Payable(l.p[a], terms.st, a, terms.maxGas).items, terms.st.nonceOf(a))
  {
    NoGapIsDense(Items(managed.p, a), NonceOf(managed.ns, terms.st, a), terms.st.nonceOf(a));
  }

  /** If demotion leaves nothing pending, the virtual nonce is the state nonce. */
  lemma EmptiedInOrder(l: Lists, demoted: Lists, managed: Lists, terms: Terms, a: Address, s0: nat, v0: nat, c: nat)
    requires DemotedUnless(l.p, l.q, demoted.p, demoted.q, terms.st, terms.maxGas, {}, a)
    requires managed == demoted.(ns := managed.ns) && Managed(managed.p, l.ns, managed.ns, a)
    requires NonceOf(l.ns, terms.st, a) == c && TwoRuns(ListOf(l.p, a, true), terms, a, s0, v0, c)
    requires a in l.p ==> terms.st.nonceOf(a) !in Payable(l.p[a], terms.st, a, terms.maxGas).items
    ensures Items(managed.p, a) == map[] && NonceOf(managed.ns, terms.st, a) == terms.st.nonceOf(a) == c
  {
    LowerRunKept(ListOf(l.p, a, true), terms, a, s0, v0, c);
    var sn := terms.st.nonceOf(a);
    assert sn < c ==> sn in ListOf(l.p, a, true).items;
  }

  // ----- the batch and its promotion -----

  /** The account pays for what it has pooled, and what is reinjected of it makes no call that needs a quota. */
  ghost predicate Steady(v: PoolView, st: ChainState, txs: seq<Tx>, a: Address) {
    && (forall n :: n in Items(v.l.p, a) ==> Items(v.l.p, a)[n].SelfPaying())
    && (forall n :: n in Items(v.l.q, a) ==> Items(v.l.q, a)[n].SelfPaying())
    && (forall i :: 0 <= i < |txs| && txs[i].sender == a ==> !IsCallOrdinaryContract(st, txs[i]))
  }

  /** There is room for the whole batch, the limits cannot touch the account, and it is steady if it is in the batch. */
  ghost predicate Undisturbed(v: PoolView, rules: AddRules, config: Config, txs: seq<Tx>, a: Address) {
    && |v.all| + |txs| <= rules.capacity
    && (a in v.locals || |Items(v.l.p, a)| + |Items(v.l.q, a)| + |txs| <= config.accountSlots)
    && ((exists i :: 0 <= i < |txs| && txs[i].sender == a) ==> Steady(v, rules.st, txs, a))
  }

  ghost predicate Matching(rules: AddRules, terms: Terms, v: PoolView) {
    terms.st == rules.st && terms.maxGas == rules.maxGas && terms.locals == v.locals
  }

  lemma OfferedIsAffordable(rules: AddRules, terms: Terms, v: PoolView, txs: seq<Tx>, a: Address, n: nat, tx: Tx)
    requires Matching(rules, terms, v) && Offered(rules, v.locals, txs, |txs|, a, n, tx)
    ensures Affordable(terms, tx) && tx.nonce == n && tx.sender == a && n >= rules.st.nonceOf(a)
    ensures OnOffer(rules, v.locals, txs, |txs|, a, n) && exists i :: 0 <= i < |txs| && txs[i] == tx
  {
    AdmittedIffPayable(rules.st, rules.maxGas, rules.gasPrice, a in v.locals, rules.homestead, tx);
  }

  /** What is executable of an account's queue after the batch. */
  ghost predicate Executable(v: PoolView, w: PoolView, rules: AddRules, terms: Terms, txs: seq<Tx>, a: Address,
                             items: map<nat, Tx>, n: nat) {
    && (n in items ==>
          && n >= rules.st.nonceOf(a) && n !in Items(w.l.p, a) && Affordable(terms, items[n])
          && (n in Items(v.l.q, a) || Offered(rules, v.locals, txs, |txs|, a, n, items[n])))
    && (n !in Items(v.l.p, a) && OnOffer(rules, v.locals, txs, |txs|, a, n) && n !in Items(v.l.q, a) ==> n in items)
  }

  lemma ExecutableAt(v: PoolView, w: PoolView, rules: AddRules, terms: Terms, txs: seq<Tx>, rs: seq<AddResult>,
                     a: Address, n: nat)
    requires |rs| == |txs| && After(v, w, rules, txs, rs, |txs|, a) && w.Sound() && a in w.l.q
    requires Matching(rules, terms, v) && v.Sound() && Steady(v, rules.st, txs, a)
    ensures Executable(v, w, rules, terms, txs, a, Payable(w.l.q[a], terms.st, a, terms.maxGas).items, n)
  {
    var pm0, qm0, qm := Items(v.l.p, a), Items(v.l.q, a), Items(w.l.q, a);
    var items := Payable(w.l.q[a], terms.st, a, terms.maxGas).items;
    assert QueuedAfter(pm0, qm0, qm, rules, v.locals, txs, |txs|, a, n);
    assert ListOk(w.l.q, false, a);
    if n in qm && Offered(rules, v.locals, txs, |txs|, a, n, qm[n]) {
      OfferedIsAffordable(rules, terms, v, txs, a, n, qm[n]);
      PayableStays(w.l.q[a], terms.st, a, terms.maxGas, n);
    }
    if n in items {
      OwnApart(w.l.p, w.l.q, w.all, a);
      PayableAre(w.l.q[a], terms.st, a, terms.maxGas, n);
    }
  }

  ghost predicate AllExecutable(v: PoolView, w: PoolView, rules: AddRules, terms: Terms, txs: seq<Tx>, a: Address,
                                items: map<nat, Tx>) {
    forall n :: Executable(v, w, rules, terms, txs, a, items, n)
  }

  lemma AllAreExecutable(v: PoolView, w: PoolView, rules: AddRules, terms: Terms, txs: seq<Tx>, rs: seq<AddResult>,
                         a: Address)
    requires |rs| == |txs| && After(v, w, rules, txs, rs, |txs|, a) && w.Sound() && a in w.l.q
    requires Matching(rules, terms, v) && v.Sound() && Steady(v, rules.st, txs, a)
    ensures AllExecutable(v, w, rules, terms, txs, a, Payable(w.l.q[a], terms.st, a, terms.maxGas).items)
  {
    var items := Payable(w.l.q[a], terms.st, a, terms.maxGas).items;
    forall n ensures Executable(v, w, rules, terms, txs, a, items, n) {
      ExecutableAt(v, w, rules, terms, txs, rs, a, n);
    }
  }

  lemma ExecutableIsFresh(v: PoolView, w: PoolView, rules: AddRules, terms: Terms, txs: seq<Tx>, a: Address,
                          items: map<nat, Tx>)
    requires AllExecutable(v, w, rules, terms, txs, a, items)
    ensures forall n :: n in items ==>
              n >= rules.st.nonceOf(a) && n !in Items(w.l.p, a) && Affordable(terms, items[n])
  {
    assert forall n :: n in items ==> Executable(v, w, rules, terms, txs, a, items, n);
  }

  /** How far the reinjected nonces reach from the new state nonce, below the old pending list. */
  ghost predicate Reach(v: PoolView, rules: AddRules, txs: seq<Tx>, a: Address, s0: nat, c: nat) {
    var sn := rules.st.nonceOf(a);
    && (sn < c <==> OnOffer(rules, v.locals, txs, |txs|, a, sn))
    && (sn < c ==> c <= s0 && (c < s0 <==> exists n :: sn < n < s0 && !OnOffer(rules, v.locals, txs, |txs|, a, n)))
  }

  /** The lists of `a` after the batch and the promotion of what is new in it. */
  ghost predicate Passes(v: PoolView, w: PoolView, l': Lists, rules: AddRules, terms: Terms, txs: seq<Tx>, a: Address,
                         s0: nat, v0: nat, c: nat) {
    var sn := terms.st.nonceOf(a);
    && Extended(Items(w.l.p, a), Items(l'.p, a), NonceOf(l'.ns, terms.st, a), sn, c)
    && (forall n :: sn <= n < c ==> Affordable(terms, Items(l'.p, a)[n]))
    && (sn < s0 < v0 ==> Reach(v, rules, txs, a, s0, c))
  }

  /** Promotion of an account with something new extends its pending nonces as far as the batch reaches. */
  lemma PromotedExtends(v: PoolView, w: PoolView, l': Lists, rules: AddRules, terms: Terms, full: set<Address>,
                        txs: seq<Tx>, a: Address, s0: nat, v0: nat, e: nat, c: nat, items: map<nat, Tx>)
    returns (end: nat)
    requires Items(w.l.p, a).Keys == Items(v.l.p, a).Keys && NonceOf(w.l.ns, terms.st, a) == terms.st.nonceOf(a)
    requires Matching(rules, terms, v) && Steady(v, rules.st, txs, a)
    requires AllExecutable(v, w, rules, terms, txs, a, items)
    requires a in w.l.q && items == Payable(w.l.q[a], terms.st, a, terms.maxGas).items
    requires Run(Items(v.l.p, a), Items(v.l.q, a), v0, s0) && Promotion(w.l, l', terms, full, a, e, c)
    ensures Passes(v, w, l', rules, terms, txs, a, s0, v0, end)
  {
    var sn := terms.st.nonceOf(a);
    ExecutableIsFresh(v, w, rules, terms, txs, a, items);
    end := StepExtends(Items(w.l.p, a), items, sn, Items(l'.p, a), Items(l'.q, a), NonceOf(l'.ns, terms.st, a),
                       a in terms.locals, terms.limit, e, c);
    if sn < s0 < v0 {
      ReachedOffers(v, w, rules, terms, full, txs, a, s0, v0, items, e, c, end);
    }
  }

  lemma ReachedOffers(v: PoolView, w: PoolView, rules: AddRules, terms: Terms, full: set<Address>, txs: seq<Tx>,
                      a: Address, s0: nat, v0: nat, items: map<nat, Tx>, e: nat, c: nat, end: nat)
    requires Matching(rules, terms, v) && Steady(v, rules.st, txs, a) && Items(w.l.p, a).Keys == Items(v.l.p, a).Keys
    requires Run(Items(v.l.p, a), Items(v.l.q, a), v0, s0) && rules.st.nonceOf(a) < s0 < v0
    requires AllExecutable(v, w, rules, terms, txs, a, items)
    requires IsReadyEnd(items, rules.st.nonceOf(a), e) && c <= e && (c < e ==> CutShort(items, c, terms.st, full))
    requires end > rules.st.nonceOf(a) ==> rules.st.nonceOf(a) in items && end == c
    requires rules.st.nonceOf(a) in items && c == e ==> end > rules.st.nonceOf(a) && end !in items
    ensures Reach(v, rules, txs, a, s0, end)
  {
    var sn := rules.st.nonceOf(a);
    forall n: nat | n < s0 ensures n in items <==> OnOffer(rules, v.locals, txs, |txs|, a, n) {
      assert Executable(v, w, rules, terms, txs, a, items, n);
    }
    assert s0 !in items by {
      assert Executable(v, w, rules, terms, txs, a, items, s0);
    }
    ExecutableIsFresh(v, w, rules, terms, txs, a, items);
    ReadyFrom(items, sn, e);
    if sn in items {
      assert e <= s0;
      assert Executable(v, w, rules, terms, txs, a, items, c);
      NoRefusal(v, w, rules, terms, full, txs, a, s0, v0, items, e, c);
    }
  }

  /** No quota cuts the run short below the old pending list. */
  lemma NoRefusal(v: PoolView, w: PoolView, rules: AddRules, terms: Terms, full: set<Address>, txs: seq<Tx>,
                  a: Address, s0: nat, v0: nat, items: map<nat, Tx>, e: nat, c: nat)
    requires Matching(rules, terms, v) && Steady(v, rules.st, txs, a)
    requires Run(Items(v.l.p, a), Items(v.l.q, a), v0, s0) && s0 < v0 && e <= s0
    requires Executable(v, w, rules, terms, txs, a, items, c)
    requires c <= e && (c < e ==> CutShort(items, c, terms.st, full))
    ensures c == e
  {
    if c < e {
      OfferedIsAffordable(rules, terms, v, txs, a, c, items[c]);
    }
  }

  /** What the account can hold at most is within its slots, or it is local. */
  ghost predicate Safe(l: Lists, terms: Terms, config: Config, a: Address) {
    a in terms.locals || |Keys(l, a)| <= config.accountSlots
  }

  lemma SafeStill(l: Lists, l': Lists, terms: Terms, config: Config, a: Address)
    requires Safe(l, terms, config, a) && Keys(l', a) <= Keys(l, a)
    ensures Safe(l', terms, config, a) && (a in terms.locals || Size(l'.p, a) <= config.accountSlots)
  {
    Within(Keys(l', a), Keys(l, a));
    SizeOfKeys(l', a);
  }

  /** An account with nothing new, or without a queue, is not extended. */
  lemma NothingNew(v: PoolView, w: PoolView, rules: AddRules, txs: seq<Tx>, rs: seq<AddResult>, accounts: set<Address>,
                   a: Address, s0: nat, v0: nat)
    requires |rs| == |txs| && After(v, w, rules, txs, rs, |txs|, a)
    requires Run(Items(v.l.p, a), Items(v.l.q, a), v0, s0) && rules.st.nonceOf(a) < s0 < v0
    requires Renewed(txs, rs, |txs|, a) ==> a in accounts
    requires !(a in accounts && a in w.l.q)
    ensures Reach(v, rules, txs, a, s0, rules.st.nonceOf(a))
  {
    var sn := rules.st.nonceOf(a);
    assert QueuedAfter(Items(v.l.p, a), Items(v.l.q, a), Items(w.l.q, a), rules, v.locals, txs, |txs|, a, sn);
  }

  lemma PromotedPasses(v: PoolView, w: PoolView, l': Lists, rules: AddRules, terms: Terms, full: set<Address>,
                       txs: seq<Tx>, rs: seq<AddResult>, accounts: set<Address>, a: Address, s0: nat, v0: nat)
    returns (c: nat)
    requires |rs| == |txs| && After(v, w, rules, txs, rs, |txs|, a) && w.Sound() && v.Sound() && v.l.ns == map[]
    requires Matching(rules, terms, v) && (a in accounts <==> Renewed(txs, rs, |txs|, a))
    requires (exists i :: 0 <= i < |txs| && txs[i].sender == a) ==> Steady(v, rules.st, txs, a)
    requires Run(Items(v.l.p, a), Items(v.l.q, a), v0, s0) && PromotedUnless(w.l, l', terms, full, accounts, {}, a)
    ensures Passes(v, w, l', rules, terms, txs, a, s0, v0, c) && (c > terms.st.nonceOf(a) ==> a in accounts)
  {
    if a in accounts && a in w.l.q {
      var e, c0 :| Promotion(w.l, l', terms, full, a, e, c0);
      AllAreExecutable(v, w, rules, terms, txs, rs, a);
      c := PromotedExtends(v, w, l', rules, terms, full, txs, a, s0, v0, e, c0,
                           Payable(w.l.q[a], terms.st, a, terms.maxGas).items);
    } else {
      c := terms.st.nonceOf(a);
      NotExtended(Items(w.l.p, a), c);
      if c < s0 < v0 {
        NothingNew(v, w, rules, txs, rs, accounts, a, s0, v0);
      }
    }
  }

  lemma BatchPasses(v: PoolView, w: PoolView, via: Passage, l': Lists, rules: AddRules, terms: Terms,
                    full: set<Address>, config: Config, beats: Address -> int, txs: seq<Tx>, rs: seq<AddResult>,
                    a: Address, s0: nat, v0: nat) returns (c: nat)
    requires |rs| == |txs| && After(v, w, rules, txs, rs, |txs|, a) && w.Sound() && v.Sound() && v.l.ns == map[]
    requires Matching(rules, terms, v) && (a in via.accounts <==> Renewed(txs, rs, |txs|, a))
    requires (exists i :: 0 <= i < |txs| && txs[i].sender == a) ==> Steady(v, rules.st, txs, a)
    requires Run(Items(v.l.p, a), Items(v.l.q, a), v0, s0)
    requires w.l == via.added && PassedThrough(via, l', terms, full, config, beats) && Safe(w.l, terms, config, a)
    ensures Passes(v, w, l', rules, terms, txs, a, s0, v0, c) && (c > terms.st.nonceOf(a) ==> a in via.accounts)
  {
    if via.accounts == {} {
      assert w.l.SameAs(l', a);
      c := PromotedPasses(v, w, l', rules, terms, full, txs, rs, {}, a, s0, v0);
    } else {
      assert PromotedUnless(w.l, via.promoted, terms, full, via.accounts, {}, a);
      c := PromotedPasses(v, w, via.promoted, rules, terms, full, txs, rs, via.accounts, a, s0, v0);
      PassingAddsNoKeys(via, l', terms, full, config, beats, a);
      SafeStill(w.l, via.promoted, terms, config, a);
      Uncut(via.promoted, l', terms, config, beats, a);
    }
  }

  // ----- the reset -----

  /**
   The reset leaves a hole: reinjected nonces start at the new state nonce `sn`, below
   the old lowest pending nonce `s0`, one between the two is missing, and what is
   pending at `s0` can be paid for.
   */
  ghost predicate LeavesHole(v: PoolView, rules: AddRules, txs: seq<Tx>, a: Address, s0: nat) {
    var sn, k := rules.st.nonceOf(a), |txs|;
    && sn < s0 && s0 in Items(v.l.p, a)
    && OnOffer(rules, v.locals, txs, k, a, sn)
    && (exists n :: sn < n < s0 && !OnOffer(rules, v.locals, txs, k, a, n))
    && !Unpayable(rules.st, LastBid(rules, v.locals, txs, k, Items(v.l.p, a)[s0]), rules.st.balanceOf(a), rules.maxGas)
  }

  /** What is pending at the old lowest nonce after the batch. */
  lemma LowestBid(v: PoolView, w: PoolView, rules: AddRules, terms: Terms, txs: seq<Tx>, rs: seq<AddResult>, a: Address,
                  n: nat)
    requires |rs| == |txs| && After(v, w, rules, txs, rs, |txs|, a) && v.Sound() && Matching(rules, terms, v)
    requires n in Items(v.l.p, a) && Items(v.l.p, a)[n].SelfPaying()
    ensures n in Items(w.l.p, a) && Items(w.l.p, a)[n].sender == a
    ensures Items(w.l.p, a)[n] == LastBid(rules, v.locals, txs, |txs|, Items(v.l.p, a)[n])
    ensures Items(w.l.p, a)[n].SelfPaying() || Affordable(terms, Items(w.l.p, a)[n])
  {
    OwnApart(v.l.p, v.l.q, v.all, a);
    var tx := Items(v.l.p, a)[n];
    var t := LastBid(rules, v.locals, txs, |txs|, tx);
    LastBidIsOffered(rules, v.locals, txs, |txs|, tx);
    if Offered(rules, v.locals, txs, |txs|, a, n, t) {
      OfferedIsAffordable(rules, terms, v, txs, a, n, t);
    }
  }

  lemma PassesInTwoRuns(v: PoolView, w: PoolView, l': Lists, rules: AddRules, terms: Terms, txs: seq<Tx>, a: Address,
                        s0: nat, v0: nat, c: nat)
    requires s0 <= v0 && Passes(v, w, l', rules, terms, txs, a, s0, v0, c) && ListOk(l'.p, true, a)
    requires forall n :: n in Items(w.l.p, a) <==> s0 <= n < v0
    requires terms.st.nonceOf(a) < c && s0 < v0 ==>
               Items(w.l.p, a)[s0].SelfPaying() || Affordable(terms, Items(w.l.p, a)[s0])
    ensures TwoRuns(ListOf(l'.p, a, true), terms, a, s0, v0, c)
  {
    var list, pm, sn := ListOf(l'.p, a, true), Items(w.l.p, a), terms.st.nonceOf(a);
    assert list.items == Items(l'.p, a) && list.strict && list.CapsBound() && Owned(a, list.items);
    forall n ensures n in list.items <==> s0 <= n < v0 || sn <= n < c {
      assert n in list.items <==> n in pm || sn <= n < c;
      assert n in pm <==> s0 <= n < v0;
    }
    forall n | sn <= n < c ensures !(s0 <= n < v0) && Affordable(terms, list.items[n]) {
      assert n in pm <==> s0 <= n < v0;
    }
    if s0 < v0 {
      assert s0 in pm && list.items[s0] == pm[s0];
    }
  }

  /** The hole is the one that can be read off from the old lists and the batch. */
  lemma HoleForeseen(v: PoolView, w: PoolView, l': Lists, rules: AddRules, terms: Terms, txs: seq<Tx>,
                     rs: seq<AddResult>, a: Address, s0: nat, v0: nat, c: nat)
    requires |rs| == |txs| && After(v, w, rules, txs, rs, |txs|, a) && v.Sound() && Matching(rules, terms, v)
    requires Run(Items(v.l.p, a), Items(v.l.q, a), v0, s0) && Passes(v, w, l', rules, terms, txs, a, s0, v0, c)
    requires c > terms.st.nonceOf(a) ==> Steady(v, rules.st, txs, a)
    requires TwoRuns(ListOf(l'.p, a, true), terms, a, s0, v0, c)
    ensures HoleBetween(ListOf(l'.p, a, true), terms, a, s0, v0, c) <==> LeavesHole(v, rules, txs, a, s0)
  {
    var sn := terms.st.nonceOf(a);
    assert s0 in Items(v.l.p, a) <==> s0 < v0;
    if sn < s0 < v0 {
      assert Reach(v, rules, txs, a, s0, c);
      if sn < c {
        LowestBid(v, w, rules, terms, txs, rs, a, s0);
      }
    }
  }

  lemma PassedHole(v: PoolView, w: PoolView, l': Lists, rules: AddRules, terms: Terms, txs: seq<Tx>,
                   rs: seq<AddResult>, a: Address, s0: nat, v0: nat, c: nat)
    requires |rs| == |txs| && After(v, w, rules, txs, rs, |txs|, a) && v.Sound() && Matching(rules, terms, v)
    requires Run(Items(v.l.p, a), Items(v.l.q, a), v0, s0) && Passes(v, w, l', rules, terms, txs, a, s0, v0, c)
    requires c > terms.st.nonceOf(a) ==> Steady(v, rules.st, txs, a)
    requires ListOk(l'.p, true, a)
    ensures TwoRuns(ListOf(l'.p, a, true), terms, a, s0, v0, c)
    ensures HoleBetween(ListOf(l'.p, a, true), terms, a, s0, v0, c) <==> LeavesHole(v, rules, txs, a, s0)
  {
    if terms.st.nonceOf(a) < c && s0 < v0 {
      LowestBid(v, w, rules, terms, txs, rs, a, s0);
    }
    PassesInTwoRuns(v, w, l', rules, terms, txs, a, s0, v0, c);
    HoleForeseen(v, w, l', rules, terms, txs, rs, a, s0, v0, c);
  }

  /** What a reset leads to, from the lists `l` after reinjection. */
  ghost predicate Settles(trace: ResetTrace, l': Lists, terms: Terms, full: set<Address>, config: Config,
                          beats: Address -> int) {
    Resettled(trace.added, trace.demoted, trace.managed, trace.promoted, l', terms, full, config, beats)
  }

  /** An account that comes to its demotion in two runs ends in a run if and only if there is no hole between them. */
  lemma SettledRun(trace: ResetTrace, l': Lists, terms: Terms, full: set<Address>, config: Config,
                   beats: Address -> int, a: Address, s0: nat, v0: nat, c: nat)
    requires Settles(trace, l', terms, full, config, beats) && NonceOf(trace.added.ns, terms.st, a) == c
    requires TwoRuns(ListOf(trace.added.p, a, true), terms, a, s0, v0, c)
    ensures !HoleBetween(ListOf(trace.added.p, a, true), terms, a, s0, v0, c) ==> l'.RunAt(terms.st, a)
    ensures Safe(trace.added, terms, config, a) ==>
              (l'.RunAt(terms.st, a) <==> !HoleBetween(ListOf(trace.added.p, a, true), terms, a, s0, v0, c))
  {
    var l, managed, promoted := trace.added, trace.managed, trace.promoted;
    assert DemotedUnless(l.p, l.q, trace.demoted.p, trace.demoted.q, terms.st, terms.maxGas, {}, a);
    assert Managed(managed.p, l.ns, managed.ns, a) && RestingAt(managed, terms.st, a);
    assert PromotedUnless(managed, promoted, terms, full, managed.q.Keys, {}, a);
    SettledInOrder(l, trace.demoted, managed, promoted, terms, a, s0, v0, c);
    PromotedRunIff(managed, promoted, terms, full, a);
    LimitsKeepRun(promoted, l', terms, config, beats, a);
    if Safe(l, terms, config, a) {
      DemotionAddsNoKeys(l, trace.demoted, terms, a);
      PromotionAddsNoKeys(managed, promoted, terms, full, managed.q.Keys, a);
      SafeStill(l, promoted, terms, config, a);
      Uncut(promoted, l', terms, config, beats, a);
    }
  }

  /**
   After a reset, limits and all, the nonces of an undisturbed account are a run if and
   only if the reinjected transactions do not leave a hole below its old pending
   list.  The old nonces were a run from the old state nonce `s0` to `v0`.
   */
  lemma ReinjectedRunIff(v: PoolView, trace: ResetTrace, l': Lists, rules: AddRules, terms: Terms, full: set<Address>,
                         config: Config, beats: Address -> int, txs: seq<Tx>, a: Address, s0: nat, v0: nat)
    requires Batch(v, trace.views, rules, txs, |txs|, false, trace.rs, trace.via.accounts) && v.l.ns == map[]
    requires Reinjected(trace, |txs|, terms, config, beats) && Settles(trace, l', terms, full, config, beats)
    requires Matching(rules, terms, v) && Undisturbed(v, rules, config, txs, a)
    requires Run(Items(v.l.p, a), Items(v.l.q, a), v0, s0)
    ensures l'.RunAt(terms.st, a) <==> !LeavesHole(v, rules, txs, a, s0)
  {
    var w, rs := trace.views[|txs|], trace.rs;
    AfterBatch(v, trace.views, rules, txs, |txs|, rs, |txs|, a);
    BatchKeys(v, w, rules, txs, rs, a);
    var c := BatchPasses(v, w, trace.via, trace.added, rules, terms, trace.full, config, beats, txs, rs, a, s0, v0);
    assert ListOk(trace.added.p, true, a);
    PassedHole(v, w, trace.added, rules, terms, txs, rs, a, s0, v0, c);
    PassingAddsNoKeys(trace.via, trace.added, terms, trace.full, config, beats, a);
    SafeStill(w.l, trace.added, terms, config, a);
    SettledRun(trace, l', terms, full, config, beats, a, s0, v0, c);
  }

  /** Whatever was reinjected, an account that is in order after demotion ends with its nonces in a run. */
  lemma OrderedRuns(trace: ResetTrace, l': Lists, terms: Terms, full: set<Address>, config: Config,
                    beats: Address -> int)
    requires Settles(trace, l', terms, full, config, beats)
    ensures forall a :: InOrderAt(trace.managed, trace.promoted, terms.st, a) ==> l'.RunAt(terms.st, a)
  {
    forall a | InOrderAt(trace.managed, trace.promoted, terms.st, a) ensures l'.RunAt(terms.st, a) {
      assert RestingAt(trace.managed, terms.st, a);
      assert PromotedUnless(trace.managed, trace.promoted, terms, full, trace.managed.q.Keys, {}, a);
      PromotedRunIff(trace.managed, trace.promoted, terms, full, a);
      LimitsKeepRun(trace.promoted, l', terms, config, beats, a);
    }
  }

  /** A remote batch makes nobody local. */
  lemma {:induction false} RemoteBatch(v: PoolView, trace: seq<PoolView>, rules: AddRules, txs: seq<Tx>, n: nat,
                                       rs: seq<AddResult>, k: nat)
    requires AddedAll(v, trace, rules, txs, n, false, rs) && k <= n
    ensures trace[k].locals == v.locals
  {
    if k > 0 {
      var i := k - 1;
      RemoteBatch(v, trace, rules, txs, n, rs, i);
      BatchStep(v, trace, rules, txs, n, false, rs, i);
    }
  }
}
