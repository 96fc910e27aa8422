/**
 Concrete histories of a pool that show where a property fails.
 */
module PoolScenarios {
  import opened Admission
  import opened Bystanders
  import opened Mortgage
  import opened NonceMaps
  import opened PoolLosses
  import opened PoolRuns
  import opened PoolState
  import opened PoolSteps
  import opened PoolTraces
  import opened Pricing
  import opened Reinjections
  import opened SortedMaps
  import opened Transactions
  import opened TxLists
  import opened TxPools

  /** A plain transfer of account 1. */
  function Transfer(nonce: nat, price: nat): Tx {
    Tx(1, nonce, price, 21_000, 0, Some(2), [], 0, Form(110, false, true))
  }

  /** A head under which every account has this nonce and can pay. */
  function HeadAt(nonce: nat): ChainState {
    ChainState(a => nonce, a => 1_000_000, a => 0, a => false, a => a, a => a, a => 0, (a, tx) => false)
  }

  const DEFAULTS := Config(10, 16, 4096, 64, 1024)

  lemma TransferVerdict(rules: AddRules, nonce: nat, price: nat, head: nat)
    requires rules.st == HeadAt(head) && rules.maxGas == 8_000_000 && price <= 10
    ensures rules.Verdict(Transfer(nonce, price), false).None? <==> rules.gasPrice <= price && head <= nonce
    ensures !Unpayable(rules.st, Transfer(nonce, price), rules.st.balanceOf(1), rules.maxGas)
  {
    assert Transfer(nonce, price).Cost() == price * 21_000;
    assert NonZeros([]) == 0;
  }

  /** The first transfer of account 1 is queued. */
  lemma FirstQueued(v: PoolView, mid: PoolView, rules: AddRules, r: AddResult, nonce: nat, price: nat)
    requires v == PoolView(map[], Lists(map[], map[], map[]), {}) && rules.capacity > 0 && rules.gasPrice <= price <= 10
    requires rules.st == HeadAt(nonce) && rules.maxGas == 8_000_000
    requires AddedOne(v, mid, rules, Transfer(nonce, price), false, r)
    ensures r == Accepted(false) && mid.l.p == map[] && mid.l.ns == map[]
    ensures mid.l.q == map[1 := AccountList(false, map[], 0, 0).Added(Transfer(nonce, price))]
  {
    TransferVerdict(rules, nonce, price, nonce);
    AddedWithRoom(v, mid, rules, Transfer(nonce, price), r);
  }

  /** At its state nonce it then ends up pending, alone. */
  lemma FirstPending(mid: Lists, via: Passage, l': Lists, terms: Terms, full: set<Address>, config: Config,
                     beats: Address -> int, nonce: nat, price: nat)
    requires mid.p == map[] && mid.q == map[1 := AccountList(false, map[], 0, 0).Added(Transfer(nonce, price))]
    requires mid.ns == map[] && mid == via.added && via.accounts == {1} && price <= 10
    requires terms.st == HeadAt(nonce) && terms.maxGas == 8_000_000 && config.accountSlots >= 1
    requires PassedThrough(via, l', terms, full, config, beats)
    ensures Items(l'.p, 1) == map[nonce := Transfer(nonce, price)] && Items(l'.q, 1) == map[]
    ensures forall a :: a != 1 ==> Keys(l', a) == {}
  {
    forall a | a != 1 ensures Keys(l', a) == {} {
      PassingAddsNoKeys(via, l', terms, full, config, beats, a);
    }
    OnlyPending(mid, via.promoted, terms, full, nonce, price);
    Uncut(via.promoted, l', terms, config, beats, 1);
  }

  lemma OnlyPending(l: Lists, l': Lists, terms: Terms, full: set<Address>, nonce: nat, price: nat)
    requires l.q == map[1 := AccountList(false, map[], 0, 0).Added(Transfer(nonce, price))]
    requires l.p == map[] && l.ns == map[]
    requires terms.st == HeadAt(nonce) && terms.maxGas == 8_000_000 && price <= 10
    requires PromotedExcept(l, l', terms, full, {1}, {})
    ensures Items(l'.p, 1) == map[nonce := Transfer(nonce, price)] && Items(l'.q, 1) == map[]
  {
    assert PromotedUnless(l, l', terms, full, {1}, {}, 1);
    var e, c :| Promotion(l, l', terms, full, 1, e, c);
    OnlyPayable(l.q[1], terms, nonce, price);
    OneStep(Transfer(nonce, price), Items(l'.p, 1), Items(l'.q, 1), NonceOf(l'.ns, terms.st, 1), terms, full, e, c);
  }

  lemma OnlyPayable(l: AccountList, terms: Terms, nonce: nat, price: nat)
    requires l == AccountList(false, map[], 0, 0).Added(Transfer(nonce, price)) && price <= 10
    requires terms.st == HeadAt(nonce) && terms.maxGas == 8_000_000
    ensures Payable(l, terms.st, 1, terms.maxGas).items == map[nonce := Transfer(nonce, price)]
  {
    assert Transfer(nonce, price).Cost() == price * 21_000;
    assert nonce in l.items && l.items.Keys == {nonce};
    PayableStays(l, terms.st, 1, terms.maxGas, nonce);
    PayableIsPart(l, terms.st, 1, terms.maxGas);
  }

  lemma OneReady(tx: Tx, e: nat)
    requires IsReadyEnd(map[tx.nonce := tx], tx.nonce, e)
    ensures e == tx.nonce + 1
  {
    var items := map[tx.nonce := tx];
    ReadyFrom(items, tx.nonce, e);
    assert e > tx.nonce + 1 ==> tx.nonce + 1 in items;
  }

  /** Promoting a single executable transfer leaves nothing queued. */
  lemma OneStep(tx: Tx, pm': map<nat, Tx>, qm': map<nat, Tx>, pn': nat, terms: Terms, full: set<Address>, e: nat,
                c: nat)
    requires AccountStep(map[], map[tx.nonce := tx], tx.nonce, pm', qm', pn', 1 in terms.locals, terms.limit, e, c)
    requires c < e ==> CutShort(map[tx.nonce := tx], c, terms.st, full)
    requires tx.data == []
    ensures pm' == map[tx.nonce := tx] && qm' == map[]
  {
    var items := map[tx.nonce := tx];
    OneReady(tx, e);
    assert c == e;
    AllTaken(items, c, 1 in terms.locals, terms.limit);
  }

  lemma AllTaken(items: map<nat, Tx>, c: nat, local: bool, limit: nat)
    requires forall n :: n in items ==> n < c
    ensures map[] + Below(items, c) == items && Capped(From(items, c), local, limit) == map[]
  {
    assert From(items, c) == map[];
    LowestIsPart(map[], limit);
  }

  /** A transaction is held exactly under its sender and nonce. */
  lemma HeldInKeys(l: Lists, t: Tx)
    ensures Held(l.p, t) <==> t.nonce in Items(l.p, t.sender) && Items(l.p, t.sender)[t.nonce] == t
    ensures Held(l.q, t) <==> t.nonce in Items(l.q, t.sender) && Items(l.q, t.sender)[t.nonce] == t
    ensures Held(l.p, t) || Held(l.q, t) ==> t.nonce in Keys(l, t.sender)
  {
  }

  lemma OneIndexed(v: PoolView, tx: Tx)
    requires v.Sound() && tx.sender == 1 && Items(v.l.p, 1) == map[tx.nonce := tx] && Items(v.l.q, 1) == map[]
    requires forall a :: a != 1 ==> Keys(v.l, a) == {}
    ensures v.all.Keys == {tx.Hash()}
  {
    forall h ensures h in v.all.Keys <==> h in {tx.Hash()} {
      var t := h.tx;
      HeldInKeys(v.l, t);
      assert t.Hash() == h && Indexed(v.l.p, v.l.q, v.all, 0, map[], t);
      assert t.sender != 1 ==> t.nonce !in Keys(v.l, t.sender);
      assert h == tx.Hash() <==> t == tx;
    }
  }

  /** Going back from nonce 5 to 3, of the two transfers in between only the first is priced above the floor. */
  lemma HoleAhead(v: PoolView, rules: AddRules, txs: seq<Tx>)
    requires Items(v.l.p, 1) == map[5 := Transfer(5, 2)] && Items(v.l.q, 1) == map[]
    requires |v.all.Keys| == 1 && v.locals == {}
    requires rules.st == HeadAt(3) && rules.maxGas == 8_000_000 && rules.gasPrice == 2 && rules.capacity == 5120
    requires txs == [Transfer(3, 2), Transfer(4, 1)]
    ensures Undisturbed(v, rules, DEFAULTS, txs, 1) && LeavesHole(v, rules, txs, 1, 5)
  {
    assert |v.all| == |v.all.Keys|;
    TransferVerdict(rules, 3, 2, 3);
    TransferVerdict(rules, 4, 1, 3);
    TransferVerdict(rules, 5, 2, 3);
    assert Offers(rules, v.locals, txs[0], 1, 3);
    assert !OnOffer(rules, v.locals, txs, 2, 1, 4);
    assert LastBid(rules, v.locals, txs, 1, Transfer(5, 2)) == Transfer(5, 2);
  }

  /** A new pool with one pending transfer of account 1. */
  method OnePending(config: Config, price: nat, beats: Address -> int) returns (pool: TxPool)
    requires config.Sane() && 1 <= price <= 10
    ensures fresh(pool) && fresh(pool.lookup) && fresh(pool.priced) && fresh(pool.mortgage) && pool.config == config
    ensures pool.Valid() && pool.Contents().RunAt(pool.state, 1) && pool.locals == {}
    ensures pool.state == HeadAt(5) && pool.maxGas == 8_000_000 && pool.gasPrice == price && !pool.homestead
    ensures Items(pool.pending, 1) == map[5 := Transfer(5, price)] && Items(pool.queue, 1) == map[]
    ensures pool.lookup.all.Keys == {Transfer(5, price).Hash()} && Keys(pool.Contents(), 2) == {}
  {
    var worker := new MortgageWorker();
    pool := new TxPool(config, HeadAt(5), 8_000_000, {}, worker, price);
    ghost var empty := pool.Now();
    assert empty.l.RunAt(pool.state, 1);
    ghost var r, mid, via := pool.AddTx(Transfer(5, price), false, beats);
    FirstQueued(empty, mid, pool.Rules(), r, 5, price);
    FirstPending(mid.l, via, pool.Contents(), pool.Conditions(), pool.mortgage.Full(), config, beats, 5, price);
    OneIndexed(pool.Now(), Transfer(5, price));
    assert RunKept(empty.l, pool.Contents(), pool.state, 1);
  }

  /**
   A transfer with nonce 5 is pending when the chain goes back to nonce 3.  Of the
   transfers with nonces 3 and 4 that the reset reinjects, the second is below the
   price floor.  The reset ends with nonces 3 and 5 pending.
   */
  method ReinjectionCanLeaveHole(beats: Address -> int) returns (pool: TxPool)
    ensures pool.Valid() && pool.state == HeadAt(3) && !pool.Contents().RunAt(pool.state, 1)
  {
    pool := OnePending(DEFAULTS, 2, beats);
    ghost var v := pool.Now();
    var reinject := [Transfer(3, 2), Transfer(4, 1)];
    ghost var trace := pool.Reset(HeadAt(3), 8_000_000, reinject, beats);
    HoleAhead(v, pool.Rules(), reinject);
    assert Foreseen(v, HeadAt(5), pool.Contents(), pool.Rules(), DEFAULTS, reinject, 1);
  }

  /** A plain transfer of account 2, which pays more. */
  function Rival(nonce: nat): Tx {
    Tx(2, nonce, 2, 21_000, 0, Some(3), [], 0, Form(110, false, true))
  }

  /** A pool for two transactions. */
  const TINY := Config(10, 16, 1, 64, 1)

  lemma RivalVerdict(rules: AddRules, nonce: nat)
    requires rules.st == HeadAt(6) && rules.maxGas == 8_000_000 && rules.gasPrice == 1 && nonce >= 6
    ensures rules.Verdict(Rival(nonce), false).None?
  {
    assert Rival(nonce).Cost() == 42_000;
    assert NonZeros([]) == 0;
  }

  /** The first rival fills the pool. */
  lemma RivalFits(v: PoolView, w: PoolView, rules: AddRules, r: AddResult)
    requires v.all.Keys == {Transfer(5, 1).Hash()} && v.locals == {} && Keys(v.l, 2) == {}
    requires rules.st == HeadAt(6) && rules.maxGas == 8_000_000 && rules.gasPrice == 1 && rules.capacity == 2
    requires AddedOne(v, w, rules, Rival(6), false, r)
    ensures w.all.Keys == {Transfer(5, 1).Hash(), Rival(6).Hash()} && w.locals == {} && w.l.ns == v.l.ns
    ensures Items(w.l.p, 1) == Items(v.l.p, 1) && Items(w.l.q, 1) == Items(v.l.q, 1)
  {
    RivalVerdict(rules, 6);
    assert |v.all.Keys| == 1;
    var drop, mid := NotTurnedAway(v, w, rules, Rival(6), r);
    assert mid == v && 6 !in Keys(v.l, 2);
    RivalEnters(v, w);
  }

  lemma RivalEnters(v: PoolView, w: PoolView)
    requires v.all.Keys == {Transfer(5, 1).Hash()} && Entered(v.all, w.all, Rival(6))
    ensures w.all.Keys == {Transfer(5, 1).Hash(), Rival(6).Hash()}
  {
    forall h ensures h in w.all.Keys <==> h in {Transfer(5, 1).Hash(), Rival(6).Hash()} {
      assert EnteredAt(v.all, w.all, Rival(6), h.tx) && h.tx.Hash() == h;
    }
  }

  /** The second drives out the transfer of account 1, whose nonce is already used up. */
  lemma RivalDrivesOut(v: PoolView, w: PoolView, rules: AddRules, r: AddResult)
    requires v.all.Keys == {Transfer(5, 1).Hash(), Rival(6).Hash()} && v.locals == {} && v.l.ns == map[] && v.Sound()
    requires Items(v.l.p, 1) == map[5 := Transfer(5, 1)] && Items(v.l.q, 1) == map[]
    requires rules.st == HeadAt(6) && rules.maxGas == 8_000_000 && rules.gasPrice == 1 && rules.capacity == 2
    requires AddedOne(v, w, rules, Rival(7), false, r)
    ensures Keys(w.l, 1) == {}
  {
    var drop, mid := RivalMakesRoom(v, w, rules, r);
    assert PurgedAt(v.l, mid.l, drop, rules.st, 1);
    SunkAt(v.l, mid.l, drop, rules.st);
    PutElsewhere(mid, w, Rival(7), r, 1);
  }

  lemma PutElsewhere(mid: PoolView, w: PoolView, tx: Tx, r: AddResult, a: Address)
    requires PutIn(mid, w, tx, false, r) && tx.sender != a
    ensures Keys(w.l, a) == Keys(mid.l, a)
  {
  }

  lemma RivalMakesRoom(v: PoolView, w: PoolView, rules: AddRules, r: AddResult)
    returns (drop: multiset<Tx>, mid: PoolView)
    requires v.all.Keys == {Transfer(5, 1).Hash(), Rival(6).Hash()} && v.locals == {} && v.Sound()
    requires rules.st == HeadAt(6) && rules.maxGas == 8_000_000 && rules.gasPrice == 1 && rules.capacity == 2
    requires AddedOne(v, w, rules, Rival(7), false, r)
    ensures RoomMade(v, mid, rules, drop) && PutIn(mid, w, Rival(7), false, r) && Transfer(5, 1) in drop
  {
    RivalVerdict(rules, 7);
    assert |v.all.Keys| == 2;
    assert !NoneCheaper(v.all, 2) by {
      assert Indexed(v.l.p, v.l.q, v.all, 0, map[], Transfer(5, 1));
      assert Transfer(5, 1).Hash() in v.all.Keys;
    }
    assert Rival(7).Hash() !in v.all.Keys;
    drop, mid := NotTurnedAway(v, w, rules, Rival(7), r);
    CheapestGoes(v, drop);
  }

  lemma CheapestGoes(v: PoolView, drop: multiset<Tx>)
    requires v.all.Keys == {Transfer(5, 1).Hash(), Rival(6).Hash()} && v.locals == {}
    requires Victims(v.all, v.locals, drop) && EnoughDropped(v.all, v.locals, drop, 1)
    ensures Transfer(5, 1) in drop
  {
    var t5, t6 := Transfer(5, 1), Rival(6);
    assert t5.Hash() in v.all.Keys;
    assert Remote(v.all, v.locals, t5);
    assert !PriceLe(t6, t5);
    assert t6 in drop ==> t5 in drop;
    if drop != multiset{} {
      var x :| x in drop;
      assert x.Hash() in v.all.Keys;
      assert x == t5 || x == t6;
    }
  }

  lemma SunkAt(l: Lists, l': Lists, drop: multiset<Tx>, st: ChainState)
    requires Items(l.p, 1) == map[5 := Transfer(5, 1)] && Items(l.q, 1) == map[] && l.ns == map[] && st == HeadAt(6)
    requires PurgedAt(l, l', drop, st, 1) && Transfer(5, 1) in drop
    ensures Keys(l', 1) == {}
  {
    var pm, pm', qm' := Items(l.p, 1), Items(l'.p, 1), Items(l'.q, 1);
    var t: nat :| PurgedTo(pm, map[], 6, pm', qm', NonceOf(l'.ns, st, 1), drop, t);
    assert 5 in pm;
    assert t == 5;
    assert Below(pm, 5) == map[];
    assert Undropped(map[] + From(pm, 5), drop) == map[];
  }

  /**
   A pool for two transactions holds a transfer of account 1 when a block uses its
   nonce.  The reset reinjects two transfers of account 2.  The second finds the
   pool full and drives out that of account 1, which takes the virtual nonce of
   account 1 below its state nonce.
   */
  method EvictionCanSinkNonce(beats: Address -> int) returns (pool: TxPool)
    ensures pool.Valid() && pool.state == HeadAt(6) && !pool.Contents().RunAt(pool.state, 1)
  {
    pool := OnePending(TINY, 1, beats);
    ghost var v := pool.Now();
    var reinject := [Rival(6), Rival(7)];
    ghost var trace := pool.Reset(HeadAt(6), 8_000_000, reinject, beats);
    assert Bystood(v, HeadAt(5), trace, pool.Contents(), HeadAt(6), reinject, 1);
    NonceSunk(v, trace, pool.Contents(), pool.Rules(), pool.Conditions(), beats, reinject);
  }

  lemma NonceSunk(v: PoolView, trace: ResetTrace, l': Lists, rules: AddRules, terms: Terms, beats: Address -> int,
                  txs: seq<Tx>)
    requires v.all.Keys == {Transfer(5, 1).Hash()} && v.locals == {} && Keys(v.l, 2) == {} && v.l.RunAt(HeadAt(5), 1)
    requires Items(v.l.p, 1) == map[5 := Transfer(5, 1)] && Items(v.l.q, 1) == map[] && txs == [Rival(6), Rival(7)]
    requires rules.st == terms.st == HeadAt(6)
    requires rules.maxGas == 8_000_000 && rules.gasPrice == 1 && rules.capacity == 2
    requires Batch(v.(l := v.l.(ns := map[])), trace.views, rules, txs, 2, false, trace.rs, trace.via.accounts)
    requires Reinjected(trace, 2, terms, TINY, beats) && Bystood(v, HeadAt(5), trace, l', HeadAt(6), txs, 1)
    ensures !l'.RunAt(HeadAt(6), 1)
  {
    StaleDrivenOut(v.(l := v.l.(ns := map[])), trace, rules, terms, beats, txs);
    assert NotIn(txs, 1);
    assert 5 in Items(v.l.p, 1);
  }

  lemma StaleDrivenOut(v: PoolView, trace: ResetTrace, rules: AddRules, terms: Terms, beats: Address -> int,
                       txs: seq<Tx>)
    requires v.all.Keys == {Transfer(5, 1).Hash()} && v.locals == {} && v.l.ns == map[] && Keys(v.l, 2) == {}
    requires Items(v.l.p, 1) == map[5 := Transfer(5, 1)] && Items(v.l.q, 1) == map[] && txs == [Rival(6), Rival(7)]
    requires rules.st == terms.st == HeadAt(6)
    requires rules.maxGas == 8_000_000 && rules.gasPrice == 1 && rules.capacity == 2
    requires Batch(v, trace.views, rules, txs, 2, false, trace.rs, trace.via.accounts)
    requires Reinjected(trace, 2, terms, TINY, beats)
    ensures 5 !in Items(trace.added.p, 1)
  {
    BatchStep(v, trace.views, rules, txs, 2, false, trace.rs, 0);
    BatchStep(v, trace.views, rules, txs, 2, false, trace.rs, 1);
    RivalFits(v, trace.views[1], rules, trace.rs[0]);
    RivalDrivesOut(trace.views[1], trace.views[2], rules, trace.rs[1]);
    PassingAddsNoKeys(trace.via, trace.added, terms, trace.full, TINY, beats, 1);
    assert 5 !in Keys(trace.views[2].l, 1);
  }

  lemma SponsoredIsOrdinary(funds: nat, price: nat)
    ensures var st, tx := Sponsored(funds), SponsoredCall(price);
            IsCallOrdinaryContract(st, tx) && st.creatorOf(tx.to.value) == 3
  {
  }

  /**
   After the price floor is set to zero, the first call to a contract whose creator
   has no cached quota divides by it.
   */
  method ZeroPriceStopsCall(beats: Address -> int) returns (pool: TxPool)
    ensures pool.Valid() && pool.gasPrice == 0 && 3 in pool.mortgage.panicked
  {
    var worker := new MortgageWorker();
    pool := new TxPool(DEFAULTS, Sponsored(1_000_000), 8_000_000, {}, worker, 1);
    ghost var drop := pool.SetGasPrice(0);
    var tx := SponsoredCall(1);
    SponsoredIsOrdinary(1_000_000, 1);
    var pass, creator := pool.mortgage.Passable(pool.state, tx, pool.gasPrice);
  }
}
