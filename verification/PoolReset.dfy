/**
 When the accounts' nonces are runs after a head reset.  Without reinjected
 transactions they always are; with them, a pending list can keep a gap, and a
 virtual nonce can be left behind without anything pending below it.
 */
module PoolResets {
  import opened NonceMaps
  import opened PoolState
  import opened PoolSteps
  import opened SortedMaps
  import opened Transactions

  /** Pending and queued nonces of one account after demotion, where `pn` is past the highest pending one. */
  ghost predicate Resting(pm: map<nat, Tx>, qm: map<nat, Tx>, pn: nat, sn: nat) {
    && (forall n :: n in pm ==> sn <= n < pn && n !in qm)
    && (pm != map[] ==> pn > 0 && pn - 1 in pm)
  }

  /** What a run asks of the pending nonces. */
  ghost predicate Filled(pm: map<nat, Tx>, pn: nat, sn: nat) {
    sn <= pn && forall n :: n in pm <==> sn <= n < pn
  }

  ghost predicate NoGap(pm: map<nat, Tx>, pn: nat, sn: nat) {
    forall n :: sn <= n < pn ==> n in pm
  }

  /**
   Nothing is missing among the pending nonces; or nothing is pending and the
   virtual nonce is that of the state, unless promotion makes up for it.
   */
  ghost predicate InOrder(pm: map<nat, Tx>, pn: nat, sn: nat, pm': map<nat, Tx>) {
    if pm != map[] then NoGap(pm, pn, sn) else pn == sn || sn in pm'
  }

  /** The promoted part of a queue is a run that starts at the least nonce, which is not above the virtual nonce. */
  lemma PromotedPart(items: map<nat, Tx>, pn: nat, e: nat, c: nat) returns (s: nat)
    requires IsReadyEnd(items, pn, e) && c <= e && Below(items, c) != map[]
    ensures s <= pn && s < c && forall n :: n in Below(items, c) <==> s <= n < c
  {
    var n0 :| n0 in Below(items, c);
    assert exists n: nat :: IsLeast(items, n) && n <= pn;
    var n: nat :| IsLeast(items, n) && IsRunEnd(items, n, e);
    var m: nat :| IsLeast(items, m) && m <= pn;
    assert n == m;
    s := n;
  }

  /**
   A gap in the pending nonces is never closed by promotion: what is promoted lowers
   the virtual nonce below the rest.
   */
  lemma GapStays(pm: map<nat, Tx>, qm: map<nat, Tx>, items: map<nat, Tx>, pn: nat, sn: nat, pm': map<nat, Tx>,
                 qm': map<nat, Tx>, pn': nat, local: bool, limit: nat, e: nat, c: nat)
    requires Resting(pm, qm, pn, sn) && pm != map[] && !NoGap(pm, pn, sn) && forall n :: n in items ==> n in qm
    requires AccountStep(pm, items, pn, pm', qm', pn', local, limit, e, c)
    ensures !Filled(pm', pn', sn)
  {
    var gap :| sn <= gap < pn && gap !in pm;
    if Below(items, c) != map[] {
      var s := PromotedPart(items, pn, e, c);
      if s < pn {
        assert pn - 1 in pm && pn - 1 !in items;
        assert pn - 1 !in Below(items, c);
        assert pn - 1 in pm' && pn' == c <= pn - 1;
      } else {
        assert gap !in pm' && gap < pn';
      }
    } else {
      assert gap !in pm' && pn' == pn;
    }
  }

  /** With nothing pending, only the promoted run decides. */
  lemma EmptyStart(items: map<nat, Tx>, pn: nat, sn: nat, pm': map<nat, Tx>, qm': map<nat, Tx>, pn': nat,
                   local: bool, limit: nat, e: nat, c: nat)
    requires AccountStep(map[], items, pn, pm', qm', pn', local, limit, e, c)
    requires forall n :: n in items ==> n >= sn
    ensures if pn == sn || sn in pm' then Run(pm', qm', pn', sn) else !Filled(pm', pn', sn)
  {
    assert pm' == Below(items, c);
    if Below(items, c) != map[] {
      var s := PromotedPart(items, pn, e, c);
      assert s in Below(items, c);
      assert pn == sn ==> s == sn;
    } else {
      assert forall n :: sn <= n < pn ==> n !in pm';
      if sn < pn {
        assert sn !in pm';
      }
    }
  }

  /**
   After promotion the account's nonces are a run if and only if it was in order
   before; and if they are not, the pending ones are to blame.
   */
  lemma StepRunIff(pm: map<nat, Tx>, qm: map<nat, Tx>, items: map<nat, Tx>, pn: nat, sn: nat, pm': map<nat, Tx>,
                   qm': map<nat, Tx>, pn': nat, local: bool, limit: nat, e: nat, c: nat)
    requires Resting(pm, qm, pn, sn) && forall n :: n in items ==> n in qm && n >= sn
    requires AccountStep(pm, items, pn, pm', qm', pn', local, limit, e, c)
    ensures if InOrder(pm, pn, sn, pm') then Run(pm', qm', pn', sn) else !Filled(pm', pn', sn)
  {
    if pm == map[] {
      EmptyStart(items, pn, sn, pm', qm', pn', local, limit, e, c);
    } else if NoGap(pm, pn, sn) {
      PromotionKeepsRun(pm, From(qm, sn), items, pn, sn, e, c, local, limit);
    } else {
      GapStays(pm, qm, items, pn, sn, pm', qm', pn', local, limit, e, c);
    }
  }

  // ----- all accounts -----

  /** Account `a` rests after demotion, once the virtual nonces have moved. */
  ghost predicate RestingAt(l: Lists, st: ChainState, a: Address) {
    Resting(Items(l.p, a), Items(l.q, a), NonceOf(l.ns, st, a), st.nonceOf(a))
  }

  ghost predicate InOrderAt(l: Lists, l': Lists, st: ChainState, a: Address) {
    InOrder(Items(l.p, a), NonceOf(l.ns, st, a), st.nonceOf(a), Items(l'.p, a))
  }

  ghost predicate FilledAt(l: Lists, st: ChainState, a: Address) {
    Filled(Items(l.p, a), NonceOf(l.ns, st, a), st.nonceOf(a))
  }

  lemma DemotedRests(p: ListMap, q: ListMap, l: Lists, all: map<TxHash, Tx>, prev: map<Address, nat>, terms: Terms,
                     a: Address)
    requires DemotedExcept(p, q, l.p, l.q, terms.st, terms.maxGas, {}) && AllManaged(l.p, prev, l.ns)
    requires Agree(l.p, l.q, all, 0, map[])
    ensures RestingAt(l, terms.st, a)
  {
    assert DemotedUnless(p, q, l.p, l.q, terms.st, terms.maxGas, {}, a) && Managed(l.p, prev, l.ns, a);
    forall n | n in Items(l.p, a) ensures terms.st.nonceOf(a) <= n && n !in Items(l.q, a) {
      assert Apart(l.p, l.q, 0, map[], a, n);
      assert a in p && n in Payable(p[a], terms.st, a, terms.maxGas).items;
      PayableIsFresh(p[a], terms.st, a, terms.maxGas);
    }
  }

  lemma PromotedRunIff(l: Lists, l': Lists, terms: Terms, full: set<Address>, a: Address)
    requires RestingAt(l, terms.st, a) && PromotedUnless(l, l', terms, full, l.q.Keys, {}, a)
    ensures if InOrderAt(l, l', terms.st, a) then l'.RunAt(terms.st, a) else !FilledAt(l', terms.st, a)
  {
    if a in l.q {
      var e, c :| Promotion(l, l', terms, full, a, e, c);
      PayableIsFresh(l.q[a], terms.st, a, terms.maxGas);
      StepRunIff(Items(l.p, a), Items(l.q, a), Payable(l.q[a], terms.st, a, terms.maxGas).items,
                 NonceOf(l.ns, terms.st, a), terms.st.nonceOf(a), Items(l'.p, a), Items(l'.q, a),
                 NonceOf(l'.ns, terms.st, a), a in terms.locals, terms.limit, e, c);
    } else {
      assert Items(l'.p, a) == Items(l.p, a) && Items(l'.q, a) == map[];
      assert Items(l.p, a) == map[] ==> terms.st.nonceOf(a) !in Items(l'.p, a);
    }
  }

  ghost predicate AllResting(l: Lists, st: ChainState) {
    forall a :: RestingAt(l, st, a)
  }

  lemma DemotedAllRest(p: ListMap, q: ListMap, l: Lists, all: map<TxHash, Tx>, prev: map<Address, nat>, terms: Terms)
    requires DemotedExcept(p, q, l.p, l.q, terms.st, terms.maxGas, {}) && AllManaged(l.p, prev, l.ns)
    requires Agree(l.p, l.q, all, 0, map[])
    ensures AllResting(l, terms.st)
  {
    forall a ensures RestingAt(l, terms.st, a) {
      DemotedRests(p, q, l, all, prev, terms, a);
    }
  }
}
