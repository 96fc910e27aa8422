/**
 What adding transactions, promoting accounts and moving to a new head do to the
 pool, as relations between views of it.
 */
module PoolTraces {
  import opened Admission
  import opened PoolLimits
  import opened PoolResets
  import opened PoolState
  import opened PoolSteps
  import opened Pricing
  import opened Transactions
  import opened TxLists

  datatype Config = Config(priceBump: nat, accountSlots: nat, globalSlots: nat, accountQueue: nat, globalQueue: nat)
  {
    /** What `sanitize` establishes. */
    ghost predicate Sane() {
      priceBump >= 1 && accountSlots >= 1 && globalSlots >= 1 && accountQueue >= 1 && globalQueue >= 1
    }
  }

  datatype AddResult = Known | Invalid(error: TxError) | Underpriced | ReplaceUnderpriced | Accepted(replaced: bool)

  /** Whether a transaction finds its place: it must outbid what has its nonce, if anything does. */
  function Decision(p: ListMap, q: ListMap, tx: Tx, bump: nat): (r: AddResult)
    ensures r.Accepted? || r.ReplaceUnderpriced?
  {
    if Taken(p, tx.sender, tx.nonce) then
      if p[tx.sender].Accepts(tx, bump) then Accepted(true) else ReplaceUnderpriced
    else if ListOf(q, tx.sender, false).Accepts(tx, bump) then Accepted(Taken(q, tx.sender, tx.nonce))
    else ReplaceUnderpriced
  }

  /** `tx` pays more than `prior`, and at least `bump` percent more up to what rounding drops. */
  predicate PaysBump(prior: Tx, tx: Tx, bump: nat) {
    tx.price > prior.price && prior.price * (100 + bump) < 100 * (tx.price + 1)
  }

  /**
   What has the nonce of `tx` decides, pending before queued: a transaction that does
   not pay the bump over it is refused, any other accepted.
   */
  lemma DecisionMeans(p: ListMap, q: ListMap, tx: Tx, bump: nat)
    ensures var r, pm, qm, n := Decision(p, q, tx, bump), Items(p, tx.sender), Items(q, tx.sender), tx.nonce;
            && (r.ReplaceUnderpriced? <==>
                  if n in pm then !PaysBump(pm[n], tx, bump) else n in qm && !PaysBump(qm[n], tx, bump))
            && (r.Accepted? ==> (r.replaced <==> n in pm || n in qm))
  {
    var pm, qm, n := Items(p, tx.sender), Items(q, tx.sender), tx.nonce;
    if n in pm {
      OutbidsMeans(tx, pm[n], bump);
    } else if n in qm {
      OutbidsMeans(tx, qm[n], bump);
    }
  }

  /** A local transaction makes its sender local, unless it replaces a pending one. */
  function LocalsAfter(locals: set<Address>, p: ListMap, tx: Tx, local: bool, r: AddResult): set<Address> {
    if local && r.Accepted? && !Taken(p, tx.sender, tx.nonce) then locals + {tx.sender} else locals
  }

  /** What adding answers before it looks at the lists, given the index, the capacity and the verdict of validation. */
  ghost predicate Answered(r: AddResult, all: map<TxHash, Tx>, capacity: nat, locals: set<Address>,
                           error: Option<TxError>,
                           tx: Tx, local: bool) {
    && (r.Known? <==> tx.Hash() in all)
    && (r.Invalid? <==> tx.Hash() !in all && error.Some?) && (r.Invalid? ==> Some(r.error) == error)
    && (r.Underpriced? <==>
          && tx.Hash() !in all && error.None? && |all| >= capacity && !local && tx.sender !in locals
          && NoneCheaper(all, tx.price))
  }

  /** No pooled transaction is cheaper. */
  ghost predicate NoneCheaper(all: map<TxHash, Tx>, price: nat) {
    forall h :: h in all ==> all[h].price >= price
  }

  /** As many were dropped as asked for, or all remote ones. */
  ghost predicate EnoughDropped(all: map<TxHash, Tx>, locals: set<Address>, drop: multiset<Tx>, count: int) {
    |drop| <= count && (|drop| < count ==> forall tx :: Remote(all, locals, tx) ==> tx in drop)
  }

  /** What adding looks at and changes. */
  datatype PoolView = PoolView(all: map<TxHash, Tx>, l: Lists, locals: set<Address>)
  {
    /** The lists and the hash index hold the same transactions. */
    ghost predicate Sound() {
      Agree(l.p, l.q, all, 0, map[])
    }
  }

  /** What is fixed while transactions are added. */
  datatype AddRules = AddRules(st: ChainState, maxGas: nat, gasPrice: nat, homestead: bool, capacity: nat, bump: nat)
  {
    /** The verdict of validation. */
    function Verdict(tx: Tx, local: bool): Option<TxError> {
      Validate(st, maxGas, gasPrice, local, homestead, tx)
    }
  }

  /** A full pool has nothing cheaper than a remote transaction. */
  ghost predicate CheapFor(v: PoolView, rules: AddRules, tx: Tx, local: bool) {
    |v.all| >= rules.capacity && !local && tx.sender !in v.locals && NoneCheaper(v.all, tx.price)
  }

  /** Making room in `v` led to `mid`: a full pool dropped cheapest remote transactions, as many as needed. */
  ghost predicate RoomMade(v: PoolView, mid: PoolView, rules: AddRules, drop: multiset<Tx>) {
    && mid.locals == v.locals && DroppedFrom(v.all, mid.all, drop) && AllPurged(v.l, mid.l, drop, rules.st)
    && Victims(v.all, v.locals, drop) && (drop == multiset{} ==> mid == v)
    && if |v.all| < rules.capacity then drop == multiset{}
       else EnoughDropped(v.all, v.locals, drop, |v.all| + 1 - rules.capacity)
  }

  /** `tx` found its place in `mid`, or did not outbid what has its nonce. */
  ghost predicate PutIn(mid: PoolView, v': PoolView, tx: Tx, local: bool, r: AddResult) {
    && Placed(mid.l.p, mid.l.q, v'.l.p, v'.l.q, tx, r.Accepted?) && v'.l.ns == mid.l.ns
    && (if r.Accepted? then Entered(mid.all, v'.all, tx) else v'.all == mid.all)
    && v'.locals == LocalsAfter(mid.locals, mid.l.p, tx, local, r)
  }

  /** Adding `tx` to `v` answers `r` and leads to `v'`, by way of dropping `drop`, which leads to `mid`. */
  ghost predicate AddedVia(v: PoolView, v': PoolView, rules: AddRules, tx: Tx, local: bool, r: AddResult,
                           drop: multiset<Tx>, mid: PoolView) {
    && Answered(r, v.all, rules.capacity, v.locals, rules.Verdict(tx, local || tx.sender in v.locals), tx, local)
    && if r.Known? || r.Invalid? || r.Underpriced? then v' == v
       else RoomMade(v, mid, rules, drop) && r == Decision(mid.l.p, mid.l.q, tx, rules.bump)
            && PutIn(mid, v', tx, local, r)
  }

  /** Making room brings nothing new into the index. */
  lemma StillUnknown(v: PoolView, mid: PoolView, rules: AddRules, drop: multiset<Tx>, tx: Tx)
    requires RoomMade(v, mid, rules, drop) && tx.Hash() !in v.all
    ensures tx.Hash() !in mid.all
  {
    assert KeptOr(v.all, mid.all, drop, tx.Hash());
  }

  /** Making room and putting in make up an addition. */
  lemma AddedByParts(v: PoolView, mid: PoolView, v': PoolView, rules: AddRules, tx: Tx, local: bool, ok: bool,
                     r: AddResult, drop: multiset<Tx>)
    requires tx.Hash() !in v.all && rules.Verdict(tx, local || tx.sender in v.locals).None?
    requires ok <==> !CheapFor(v, rules, tx, local)
    requires if ok then RoomMade(v, mid, rules, drop) && PutIn(mid, v', tx, local, r)
                        && r == Decision(mid.l.p, mid.l.q, tx, rules.bump)
             else v' == v && r.Underpriced?
    ensures AddedVia(v, v', rules, tx, local, r, drop, mid)
  {
  }

  ghost predicate AddedOne(v: PoolView, v': PoolView, rules: AddRules, tx: Tx, local: bool, r: AddResult) {
    exists drop, mid :: AddedVia(v, v', rules, tx, local, r, drop, mid)
  }

  /** A valid transaction that is not too cheap is not turned away. */
  lemma NotTurnedAway(v: PoolView, v': PoolView, rules: AddRules, tx: Tx, r: AddResult)
    returns (drop: multiset<Tx>, mid: PoolView)
    requires AddedOne(v, v', rules, tx, false, r) && tx.Hash() !in v.all && !CheapFor(v, rules, tx, false)
    requires rules.Verdict(tx, tx.sender in v.locals).None?
    ensures RoomMade(v, mid, rules, drop) && PutIn(mid, v', tx, false, r)
    ensures r == Decision(mid.l.p, mid.l.q, tx, rules.bump)
  {
    drop, mid :| AddedVia(v, v', rules, tx, false, r, drop, mid);
  }

  /** If no transaction has two entries in the price heap, what is given up is as many transactions. */
  lemma {:induction false} DroppedSize(all: map<TxHash, Tx>, all': map<TxHash, Tx>, drop: multiset<Tx>)
    requires DroppedFrom(all, all', drop) && forall tx :: tx in drop ==> tx.Hash() in all && drop[tx] == 1
    ensures |all'| == |all| - |drop|
    decreases |drop|
  {
    if drop == multiset{} {
      NothingDropped(all, all');
    } else {
      var tx :| tx in drop;
      OneDropped(all, all', drop, tx);
      DroppedSize(all - {tx.Hash()}, all', drop - multiset{tx});
    }
  }

  lemma NothingDropped(all: map<TxHash, Tx>, all': map<TxHash, Tx>)
    requires DroppedFrom(all, all', multiset{})
    ensures |all'| == |all|
  {
    forall h ensures h in all.Keys <==> h in all'.Keys {
      assert KeptOr(all, all', multiset{}, h);
    }
    assert all.Keys == all'.Keys;
  }

  lemma OneDropped(all: map<TxHash, Tx>, all': map<TxHash, Tx>, drop: multiset<Tx>, tx: Tx)
    requires DroppedFrom(all, all', drop) && tx.Hash() in all && drop[tx] == 1
    ensures DroppedFrom(all - {tx.Hash()}, all', drop - multiset{tx}) && |all - {tx.Hash()}| == |all| - 1
  {
    var all1, drop1 := all - {tx.Hash()}, drop - multiset{tx};
    assert all.Keys == all1.Keys + {tx.Hash()};
    forall h ensures KeptOr(all1, all', drop1, h) {
      assert KeptOr(all, all', drop, h) && (h == tx.Hash() <==> h.tx == tx);
    }
  }

  /** The index grows by at most one. */
  lemma EnteredSize(all: map<TxHash, Tx>, all': map<TxHash, Tx>, tx: Tx)
    requires Entered(all, all', tx)
    ensures |all'| <= |all| + 1
  {
    forall h | h in all' ensures h in all.Keys + {tx.Hash()} {
      assert EnteredAt(all, all', tx, h.tx) && h.tx.Hash() == h;
    }
    Within(all'.Keys, all.Keys + {tx.Hash()});
  }

  lemma Within<T>(s: set<T>, u: set<T>)
    requires s <= u
    ensures |s| <= |u|
  {
    assert u == s + (u - s);
  }

  /**
   When a transaction was not turned away, the pool is within its capacity, unless only
   local transactions are left beside it.  The price heap must not hold a
   transaction twice, which would count as two given up.
   */
  lemma KeepsCapacity(v: PoolView, v': PoolView, rules: AddRules, tx: Tx, local: bool, r: AddResult,
                      drop: multiset<Tx>, mid: PoolView)
    requires AddedVia(v, v', rules, tx, local, r, drop, mid) && (r.Accepted? || r.ReplaceUnderpriced?)
    requires rules.capacity > 0 && forall t :: t in drop ==> drop[t] == 1
    ensures |v'.all| <= rules.capacity || forall t :: Live(v'.all, t) ==> t == tx || t.sender in v.locals
  {
    DroppedSize(v.all, mid.all, drop);
    if r.Accepted? {
      EnteredSize(mid.all, v'.all, tx);
    }
    if |v.all| >= rules.capacity && |drop| < |v.all| + 1 - rules.capacity {
      forall t | Live(v'.all, t) && t != tx ensures t.sender in v.locals {
        assert r.Accepted? ==> EnteredAt(mid.all, v'.all, tx, t);
        assert KeptOr(v.all, mid.all, drop, t.Hash());
        assert Remote(v.all, v.locals, t) ==> t in drop;
      }
    }
  }

  ghost predicate AllSound(trace: seq<PoolView>) {
    forall i :: 0 <= i < |trace| ==> trace[i].Sound()
  }

  /**
   A valid, unknown transaction that finds room is refused exactly if its nonce is taken,
   pending or queued, by one over which it does not pay the bump.
   */
  ghost predicate BumpDecides(v: PoolView, rules: AddRules, tx: Tx, local: bool, r: AddResult) {
    var pm, qm, n := Items(v.l.p, tx.sender), Items(v.l.q, tx.sender), tx.nonce;
    |v.all| < rules.capacity && tx.Hash() !in v.all && rules.Verdict(tx, local || tx.sender in v.locals).None? ==>
      && (r.ReplaceUnderpriced? || r.Accepted?)
      && (r.ReplaceUnderpriced? <==>
            if n in pm then !PaysBump(pm[n], tx, rules.bump) else n in qm && !PaysBump(qm[n], tx, rules.bump))
      && (r.Accepted? ==> (r.replaced <==> n in pm || n in qm))
  }

  lemma AddedOneDecides(v: PoolView, v': PoolView, rules: AddRules, tx: Tx, local: bool, r: AddResult)
    requires AddedOne(v, v', rules, tx, local, r)
    ensures BumpDecides(v, rules, tx, local, r)
  {
    var drop, mid :| AddedVia(v, v', rules, tx, local, r, drop, mid);
    DecisionMeans(v.l.p, v.l.q, tx, rules.bump);
  }

  lemma BatchDecides(v: PoolView, trace: seq<PoolView>, rules: AddRules, txs: seq<Tx>, n: nat, local: bool,
                     rs: seq<AddResult>)
    requires AddedAll(v, trace, rules, txs, n, local, rs)
    ensures forall i :: 0 <= i < n ==> BumpDecides(trace[i], rules, txs[i], local, rs[i])
  {
    forall i | 0 <= i < n ensures BumpDecides(trace[i], rules, txs[i], local, rs[i]) {
      BatchStep(v, trace, rules, txs, n, local, rs, i);
      AddedOneDecides(trace[i], trace[i + 1], rules, txs[i], local, rs[i]);
    }
  }

  /** The first `n` of a batch were added one by one, from `v` through the views of `trace`. */
  ghost predicate AddedAll(v: PoolView, trace: seq<PoolView>, rules: AddRules, txs: seq<Tx>, n: nat, local: bool,
                           rs: seq<AddResult>) {
    && |rs| == n <= |txs| && |trace| == n + 1 && trace[0] == v && AllSound(trace)
    && forall i, j :: 0 <= i < n && j == i + 1 ==> AddedOne(trace[i], trace[j], rules, txs[i], local, rs[i])
  }

  lemma BatchStep(v: PoolView, trace: seq<PoolView>, rules: AddRules, txs: seq<Tx>, n: nat, local: bool,
                  rs: seq<AddResult>, i: nat)
    requires AddedAll(v, trace, rules, txs, n, local, rs) && i < n
    ensures trace[i].Sound() && trace[i + 1].Sound()
    ensures AddedOne(trace[i], trace[i + 1], rules, txs[i], local, rs[i])
  {
    var j := i + 1;
    assert AddedOne(trace[i], trace[j], rules, txs[i], local, rs[i]);
  }

  ghost predicate Dirty(txs: seq<Tx>, n: nat, rs: seq<AddResult>, dirty: set<Address>)
    requires n <= |txs| && n <= |rs|
  {
    && (forall i :: 0 <= i < n && rs[i] == Accepted(false) ==> txs[i].sender in dirty)
    && (forall a :: a in dirty ==> exists i :: 0 <= i < n && rs[i] == Accepted(false) && txs[i].sender == a)
  }

  /** And `dirty` are the senders of what is new among them. */
  ghost predicate Batch(v: PoolView, trace: seq<PoolView>, rules: AddRules, txs: seq<Tx>, n: nat, local: bool,
                        rs: seq<AddResult>, dirty: set<Address>) {
    AddedAll(v, trace, rules, txs, n, local, rs) && Dirty(txs, n, rs, dirty)
  }

  lemma BatchMore(v: PoolView, trace: seq<PoolView>, rules: AddRules, txs: seq<Tx>, n: nat, local: bool,
                  rs: seq<AddResult>, dirty: set<Address>, r: AddResult, v': PoolView)
    requires n < |txs| && Batch(v, trace, rules, txs, n, local, rs, dirty)
    requires AddedOne(trace[n], v', rules, txs[n], local, r) && v'.Sound()
    ensures Batch(v, trace + [v'], rules, txs, n + 1, local, rs + [r],
                  if r == Accepted(false) then dirty + {txs[n].sender} else dirty)
  {
    StepsMore(v, trace, rules, txs, n, local, rs, r, v');
    DirtyMore(txs, n, rs, dirty, r);
  }

  lemma DirtyMore(txs: seq<Tx>, n: nat, rs: seq<AddResult>, dirty: set<Address>, r: AddResult)
    requires n < |txs| && |rs| == n && Dirty(txs, n, rs, dirty)
    ensures Dirty(txs, n + 1, rs + [r], if r == Accepted(false) then dirty + {txs[n].sender} else dirty)
  {
    var rs' := rs + [r];
    assert rs'[n] == r && forall j :: 0 <= j < n ==> rs'[j] == rs[j];
  }

  lemma StepsMore(v: PoolView, trace: seq<PoolView>, rules: AddRules, txs: seq<Tx>, n: nat, local: bool,
                  rs: seq<AddResult>, r: AddResult, v': PoolView)
    requires n < |txs| && AddedAll(v, trace, rules, txs, n, local, rs)
    requires AddedOne(trace[n], v', rules, txs[n], local, r) && v'.Sound()
    ensures AddedAll(v, trace + [v'], rules, txs, n + 1, local, rs + [r])
  {
    var trace', rs' := trace + [v'], rs + [r];
    forall j, k | 0 <= j < n + 1 && k == j + 1 ensures AddedOne(trace'[j], trace'[k], rules, txs[j], local, rs'[j]) {
      if j < n {
        BatchStep(v, trace, rules, txs, n, local, rs, j);
      }
    }
  }

  /** `drop` holds the remote transactions below a price floor. */
  ghost predicate BelowFloor(all: map<TxHash, Tx>, locals: set<Address>, drop: multiset<Tx>, price: nat) {
    && (forall tx :: tx in drop ==> Remote(all, locals, tx) && tx.price < price)
    && (forall tx :: Remote(all, locals, tx) && tx !in drop ==> tx.price >= price)
  }

  // ----- promotion and the limits -----

  /**
   What `PromoteExecutables` does: executable runs become pending, as far as the
   quotas admit, which leads to `mid`; the limits then cost only highest nonces of
   remote accounts, evenly and from the latest heartbeats.
   */
  ghost predicate Promoted(l: Lists, mid: Lists, l': Lists, terms: Terms, full: set<Address>, accounts: set<Address>,
                           config: Config, beats: Address -> int) {
    PromotedExcept(l, mid, terms, full, accounts, {}) && Limited(mid, l', terms, config, beats)
  }

  ghost predicate Limited(l: Lists, l': Lists, terms: Terms, config: Config, beats: Address -> int) {
    && AllTrimmed(l.p, l'.p, config.accountSlots) && Fair(l.p, l'.p, terms.locals, config.accountSlots)
    && AllLowered(l.p, l'.p, l.ns, l'.ns, terms.st)
    && PendingFitted(l.p, l'.p, config.globalSlots) && (Total(l.p) <= config.globalSlots ==> l'.ns == l.ns)
    && (forall a, b :: QueueDropped(l.q, l'.q, terms.locals, beats, a, b))
    && QueueFitted(l.q, l'.q, terms.locals, config.globalQueue)
  }

  /** The lists a batch leads through: after adding, and after promoting the accounts with something new. */
  datatype Passage = Passage(added: Lists, accounts: set<Address>, promoted: Lists)

  /** What a batch makes of the lists: the accounts with something new are promoted, if there are any. */
  ghost predicate PassedThrough(via: Passage, l': Lists, terms: Terms, full: set<Address>, config: Config,
                         beats: Address -> int) {
    if via.accounts == {} then l' == via.added
    else Promoted(via.added, via.promoted, l', terms, full, via.accounts, config, beats)
  }

  // ----- a new head -----

  /**
   What a new head state does to the lists: every pending list is demoted, the
   virtual nonces move past what is left of it, and every queue is promoted.  That
   leaves exactly the accounts that are in order with their nonces in a run; the
   limits come last.
   */
  ghost predicate Resettled(l: Lists, demoted: Lists, managed: Lists, promoted: Lists, l': Lists, terms: Terms,
                            full: set<Address>, config: Config, beats: Address -> int) {
    && DemotedExcept(l.p, l.q, demoted.p, demoted.q, terms.st, terms.maxGas, {})
    && managed == demoted.(ns := managed.ns) && AllManaged(managed.p, l.ns, managed.ns)
    && Promoted(managed, promoted, l', terms, full, managed.q.Keys, config, beats)
    && AllResting(managed, terms.st)
  }

  /** The lists a head reset leads through. */
  datatype ResetTrace = ResetTrace(views: seq<PoolView>, rs: seq<AddResult>, via: Passage, full: set<Address>,
                                   added: Lists, demoted: Lists, managed: Lists, promoted: Lists)

  /** Some index agrees with the lists. */
  ghost predicate Coherent(l: Lists) {
    exists all :: Agree(l.p, l.q, all, 0, map[])
  }

  /**
   What a reset reinjects as a batch of `n` is what is demoted next: the lists after
   the batch, with the accounts that have something new promoted as far as the
   quotas of that moment admit.
   */
  ghost predicate Reinjected(trace: ResetTrace, n: nat, terms: Terms, config: Config, beats: Address -> int)
  {
    && |trace.views| == n + 1 && trace.views[n].l == trace.via.added && Coherent(trace.added)
    && PassedThrough(trace.via, trace.added, terms, trace.full, config, beats)
  }
}
