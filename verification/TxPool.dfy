/**
 `TxPool`: the transaction pool object.  Account lists are held as values of
 `AccountList`; the hash index and the price heap are objects shared with the
 pool.  `Valid` holds between operations: the pending lists, the queued lists
 and the hash index agree, and every pooled transaction has a price entry.
 */
module TxPools {
  import opened Admission
  import opened Bystanders
  import opened Mortgage
  import opened NonceMaps
  import opened PoolHistories
  import opened PoolLimits
  import opened PoolLosses
  import opened PoolResets
  import opened PoolRuns
  import opened PoolState
  import opened PoolSteps
  import opened PoolTraces
  import opened Pricing
  import opened Reinjections
  import opened Transactions
  import opened TxLists

  /** The quota has no room for the call `tx` makes. */
  ghost predicate Refused(mortgage: MortgageWorker, st: ChainState, tx: Tx)
    reads mortgage
  {
    RefusedIn(mortgage.Full(), st, tx)
  }

  class TxPool {
    const config: Config
    const lookup: TxLookup
    const priced: TxPricedList
    const mortgage: MortgageWorker
    var gasPrice: nat
    var homestead: bool
    var state: ChainState
    var maxGas: nat
    var nonces: map<Address, nat>
    var locals: set<Address>
    var pending: ListMap
    var queue: ListMap

    ghost predicate Valid()
      reads this, lookup, priced, mortgage
    {
      && config.Sane() && mortgage.Valid()
      && Agree(pending, queue, lookup.all, 0, map[]) && NoneEmpty(pending) && NoneEmpty(queue)
      && PricedOk(multiset{})
    }

    /**
     The heap is in order and, with `extra`, has an entry for every pooled transaction; of
     the entries beyond one for each, none is left uncounted.
     */
    ghost predicate PricedOk(extra: multiset<Tx>)
      reads this, lookup, priced
    {
      && priced.lookup == lookup && priced.Valid() && Covers(multiset(priced.items) + extra, lookup.all)
      && |priced.items| + |extra| <= |lookup.all| + priced.stales
    }

    /** The lists and the hash index agree, with the given transactions in limbo. */
    ghost predicate Holds(a: Address, limbo: map<nat, Tx>)
      reads this, lookup
    {
      Agree(pending, queue, lookup.all, a, limbo)
    }

    /** The lists and virtual nonces. */
    ghost function Contents(): Lists
      reads this
    {
      Lists(pending, queue, nonces)
    }

    /** What decides how accounts are promoted. */
    ghost function Conditions(): Terms
      reads this
    {
      Terms(state, maxGas, locals, config.accountQueue)
    }

    /** What adding looks at and changes. */
    ghost function Now(): PoolView
      reads this, lookup
    {
      PoolView(lookup.all, Contents(), locals)
    }

    /** What decides whether and how a transaction is added. */
    ghost function Rules(): AddRules
      reads this
    {
      AddRules(state, maxGas, gasPrice, homestead, config.globalSlots + config.globalQueue, config.priceBump)
    }

    constructor (config: Config, st: ChainState, maxGas: nat, locals: set<Address>, mortgage: MortgageWorker,
                 priceLimit: nat)
      requires config.Sane() && priceLimit >= 1 && mortgage.Valid()
      ensures Valid() && fresh(lookup) && fresh(priced) && this.mortgage == mortgage && this.config == config
      ensures pending == map[] && queue == map[] && lookup.all == map[] && nonces == map[] && this.locals == locals
      ensures state == st && this.maxGas == maxGas && gasPrice == priceLimit && !homestead
      ensures Contiguous(pending, queue, nonces, state)
    {
      this.config := config;
      this.mortgage := mortgage;
      var index := new TxLookup();
      lookup := index;
      priced := new TxPricedList(index);
      gasPrice, homestead, state, this.maxGas := priceLimit, false, st, maxGas;
      nonces, this.locals := map[], locals;
      pending, queue := map[], map[];
    }

    /** Takes a transaction out of the hash index and tells the price heap. */
    method Unindex(hash: TxHash)
      requires PricedOk(multiset{}) && Filed(lookup.all)
      modifies lookup, priced
      ensures lookup.all == old(lookup.all) - {hash}
      ensures PricedOk(multiset{})
    {
      CoversFewer(multiset(priced.items) + multiset{}, lookup.all, hash);
      lookup.Remove(hash);
      CountFewer(old(lookup.all), lookup.all, hash);
      TellPriced();
    }

    /** Tells the price heap that a transaction left the index. */
    method TellPriced()
      requires priced.lookup == lookup && priced.Valid() && Filed(lookup.all)
      requires Covers(multiset(priced.items) + multiset{}, lookup.all)
      requires |priced.items| <= |lookup.all| + priced.stales + 1
      modifies priced
      ensures PricedOk(multiset{})
    {
      ghost var before := multiset(priced.items);
      FiledCount(lookup.all);
      priced.Removed();
      StillCovered(before, multiset(priced.items), multiset{}, lookup.all);
    }

    /** Forgets the transactions in limbo. */
    method Forget(a: Address, txs: map<nat, Tx>)
      requires Holds(a, txs) && PricedOk(multiset{})
      modifies lookup, priced
      ensures Holds(a, map[]) && PricedOk(multiset{})
    {
      var limbo := txs;
      while limbo != map[]
        invariant Holds(a, limbo) && PricedOk(multiset{})
        decreases |limbo|
      {
        var n :| n in limbo;
        AgreeIsFiled(pending, queue, lookup.all, a, limbo);
        ForgetOne(pending, queue, lookup.all, a, limbo, n);
        Unindex(limbo[n].Hash());
        assert |limbo - {n}| < |limbo| by {
          assert limbo.Keys == (limbo - {n}).Keys + {n};
        }
        limbo := limbo - {n};
      }
    }

    /** Inserts a transaction into its sender's queue. */
    method EnqueueTx(tx: Tx, ghost extra: multiset<Tx>) returns (inserted: bool, replaced: bool)
      requires PricedOk(extra) && Filed(lookup.all) && (extra == multiset{} || !Taken(queue, tx.sender, tx.nonce))
      modifies this`queue, lookup, priced
      ensures inserted <==> ListOf(old(queue), tx.sender, false).Accepts(tx, config.priceBump)
      ensures replaced <==> inserted && Taken(old(queue), tx.sender, tx.nonce)
      ensures queue ==
                if inserted then old(queue)[tx.sender := ListOf(old(queue), tx.sender, false).Added(tx)] else old(queue)
      ensures lookup.all ==
                if !inserted then old(lookup.all)
                else if replaced
                then (old(lookup.all) - {old(queue)[tx.sender].items[tx.nonce].Hash()})[tx.Hash() := tx]
                else old(lookup.all)[tx.Hash() := tx]
      ensures PricedOk(extra)
    {
      var list := ListOf(queue, tx.sender, false);
      if !list.Accepts(tx, config.priceBump) {
        return false, false;
      }
      queue := queue[tx.sender := list.Added(tx)];
      replaced := list.Overlaps(tx);
      Reindex(if replaced then Some(list.items[tx.nonce]) else None, tx, extra);
      inserted := true;
    }

    /** Takes what a transaction replaced out of the index, and the transaction in unless it is there. */
    method Reindex(prior: Option<Tx>, tx: Tx, ghost extra: multiset<Tx>)
      requires PricedOk(extra) && Filed(lookup.all) && (extra == multiset{} || prior.None?)
      modifies lookup, priced
      ensures lookup.all ==
                (if prior.Some? then old(lookup.all) - {prior.value.Hash()} else old(lookup.all))[tx.Hash() := tx]
      ensures PricedOk(extra)
    {
      if prior.Some? {
        Unindex(prior.value.Hash());
      }
      if tx.Hash() !in lookup.all {
        Index(tx, extra);
      } else {
        assert lookup.all[tx.Hash() := tx] == lookup.all;
      }
    }

    /** Adds a transaction to the hash index and the price heap. */
    method Index(tx: Tx, ghost extra: multiset<Tx>)
      requires PricedOk(extra) && tx.Hash() !in lookup.all
      modifies lookup, priced
      ensures lookup.all == old(lookup.all)[tx.Hash() := tx]
      ensures PricedOk(extra)
    {
      ghost var before, all := multiset(priced.items) + extra, lookup.all;
      lookup.Add(tx);
      assert lookup.all.Keys == all.Keys + {tx.Hash()};
      priced.Put(tx);
      assert |priced.items| == |multiset(priced.items)|;
      CoversOneMore(before, multiset(priced.items) + extra, all, tx);
    }

    /** Puts the transactions in limbo back into their sender's queue. */
    method Requeue(a: Address, txs: map<nat, Tx>, ghost extra: multiset<Tx>)
      requires Holds(a, txs) && PricedOk(extra)
      modifies this`queue, lookup, priced
      ensures Holds(a, map[]) && PricedOk(extra) && lookup.all == old(lookup.all)
      ensures Requeued(old(queue), queue, a, txs, map[])
    {
      var limbo := txs;
      RequeueStart(queue, a, txs);
      while limbo != map[]
        invariant Holds(a, limbo) && PricedOk(extra) && lookup.all == old(lookup.all)
        invariant Requeued(old(queue), queue, a, txs, limbo)
        decreases |limbo|
      {
        var n :| n in limbo;
        AgreeIsFiled(pending, queue, lookup.all, a, limbo);
        PutQueued(pending, queue, lookup.all, a, limbo, n);
        LimboIsIndexed(pending, queue, lookup.all, a, limbo, n);
        RequeueMore(old(queue), queue, a, txs, limbo, n);
        var inserted, replaced := EnqueueTx(limbo[n], extra);
        limbo := limbo - {n};
      }
    }

    /**
     Removes the transaction with the given hash, and nothing else.  If it was
     pending, the transactions above it go back to the queue and the virtual
     nonce comes down to it.
     */
    method RemoveTx(hash: TxHash, outofbound: bool, ghost extra: multiset<Tx>)
      requires Holds(0, map[]) && NoneEmpty(pending) && NoneEmpty(queue) && PricedOk(extra)
      requires if outofbound then extra == multiset{} else hash.tx in extra
      modifies this`pending, this`queue, this`nonces, lookup, priced
      ensures Holds(0, map[]) && NoneEmpty(pending) && NoneEmpty(queue)
      ensures PricedOk(if outofbound then extra else extra - multiset{hash.tx})
      ensures lookup.all == old(lookup.all) - {hash}
      ensures hash !in old(lookup.all) ==> pending == old(pending) && queue == old(queue) && nonces == old(nonces)
      ensures hash in old(lookup.all) ==>
                RemovedFrom(old(pending), old(queue), old(nonces), pending, queue, nonces, state,
                            hash.tx.sender, hash.tx.nonce)
      ensures RunsKept(old(Contents()), Contents(), state)
    {
      ghost var left := if outofbound then extra else extra - multiset{hash.tx};
      AgreeIsFiled(pending, queue, lookup.all, 0, map[]);
      if hash !in lookup.all {
        NoEntryNeeded(hash, outofbound, extra);
        return;
      }
      var tx := lookup.all[hash];
      var a := tx.sender;
      LimboOfNobody(pending, queue, lookup.all, 0, a);
      HashNames(pending, queue, lookup.all, a, hash);
      ghost var all := lookup.all;
      RemoveIndexed(hash, outofbound, extra);
      if a in pending && tx.nonce in pending[a].items {
        RemovePending(a, tx, all, left);
      } else {
        RemoveQueued(a, tx, all);
      }
      LimboOfNobody(pending, queue, lookup.all, a, 0);
      RemovalKeepsRuns(old(Contents()), Contents(), state, a, tx.nonce);
    }

    /** What is not pooled needs none of the entries that the price heap gave up. */
    lemma NoEntryNeeded(hash: TxHash, outofbound: bool, extra: multiset<Tx>)
      requires PricedOk(extra) && Filed(lookup.all) && hash !in lookup.all
      requires if outofbound then extra == multiset{} else hash.tx in extra
      ensures PricedOk(if outofbound then extra else extra - multiset{hash.tx})
    {
      if !outofbound {
        CoversWithout(multiset(priced.items), extra, extra - multiset{hash.tx}, hash.tx, lookup.all);
      }
    }

    /** The index's part of `RemoveTx`; an entry the price heap has given up already is not told to it. */
    method RemoveIndexed(hash: TxHash, outofbound: bool, ghost extra: multiset<Tx>)
      requires PricedOk(extra) && Filed(lookup.all) && hash in lookup.all && lookup.all[hash] == hash.tx
      requires if outofbound then extra == multiset{} else hash.tx in extra
      modifies lookup, priced
      ensures lookup.all == old(lookup.all) - {hash}
      ensures PricedOk(if outofbound then extra else extra - multiset{hash.tx})
    {
      CoversFewer(multiset(priced.items) + extra, lookup.all, hash);
      lookup.Remove(hash);
      CountFewer(old(lookup.all), lookup.all, hash);
      if outofbound {
        TellPriced();
      } else {
        CoversWithout(multiset(priced.items), extra, extra - multiset{hash.tx}, hash.tx, lookup.all);
      }
    }

    method RemovePending(a: Address, tx: Tx, ghost all: map<TxHash, Tx>, ghost extra: multiset<Tx>)
      requires Agree(pending, queue, all, a, map[]) && tx.sender == a && Held(pending, tx)
      requires lookup.all == all - {tx.Hash()} && NoneEmpty(pending) && NoneEmpty(queue) && PricedOk(extra)
      modifies this`pending, this`queue, this`nonces, lookup, priced
      ensures Holds(a, map[]) && NoneEmpty(pending) && NoneEmpty(queue) && PricedOk(extra)
      ensures lookup.all == old(lookup.all)
      ensures RemovedFrom(old(pending), old(queue), old(nonces), pending, queue, nonces, state, a, tx.nonce)
    {
      var n := tx.nonce;
      assert ListOk(pending, true, a);
      var invalids := pending[a].Orphans(n);
      TakeOnePending(pending, queue, all, a, n);
      SetPending(a, pending[a].Removed(n), invalids);
      Requeue(a, invalids, extra);
      RequeuedAll(old(queue), queue, a, invalids);
      LowerNonce(a, n);
    }

    /** Brings the virtual nonce down to `n` if it is above. */
    method LowerNonce(a: Address, n: nat)
      modifies this`nonces
      ensures OnlyAt(old(nonces), nonces, a)
      ensures NonceOf(nonces, state, a) ==
                if NonceOf(old(nonces), state, a) > n then n else NonceOf(old(nonces), state, a)
    {
      OnlyAtUpdate(nonces, a, n);
      if NonceOf(nonces, state, a) > n {
        nonces := nonces[a := n];
      }
    }

    method RemoveQueued(a: Address, tx: Tx, ghost all: map<TxHash, Tx>)
      requires Agree(pending, queue, all, a, map[]) && tx.sender == a && Held(queue, tx)
      requires lookup.all == all - {tx.Hash()} && NoneEmpty(queue)
      modifies this`queue
      ensures Holds(a, map[]) && NoneEmpty(queue)
      ensures OnlyAt(old(queue), queue, a) && Items(queue, a) == Items(old(queue), a) - {tx.nonce}
    {
      assert ListOk(queue, false, a);
      TakeOneQueued(pending, queue, all, a, tx.nonce);
      SetQueue(a, queue[a].Removed(tx.nonce), map[]);
    }

    /** Replaces an account's pending list, deleting it if it became empty. */
    method SetPending(a: Address, l: AccountList, ghost limbo: map<nat, Tx>)
      requires Agree(pending[a := l], queue, lookup.all, a, limbo) && NoneEmptyBut(pending, a)
      modifies this`pending
      ensures Holds(a, limbo) && NoneEmpty(pending)
      ensures OnlyAt(old(pending), pending, a) && Items(pending, a) == l.items
      ensures a in pending ==> pending[a] == l
    {
      OnlyAtUpdate(pending, a, l);
      pending := pending[a := l];
      if l.items == map[] {
        DropEmptyPending(pending, queue, lookup.all, a, limbo);
        OnlyAtUpdate(pending, a, l);
        OnlyAtTwice(old(pending), pending, pending - {a}, a);
        pending := pending - {a};
      }
      NoneEmptyElsewhere(old(pending), pending, a);
    }

    /** Likewise for its queue. */
    method SetQueue(a: Address, l: AccountList, ghost limbo: map<nat, Tx>)
      requires Agree(pending, queue[a := l], lookup.all, a, limbo) && NoneEmptyBut(queue, a)
      modifies this`queue
      ensures Holds(a, limbo) && NoneEmpty(queue)
      ensures OnlyAt(old(queue), queue, a) && Items(queue, a) == l.items
      ensures a in queue ==> queue[a] == l
    {
      OnlyAtUpdate(queue, a, l);
      queue := queue[a := l];
      if l.items == map[] {
        DropEmptyQueue(pending, queue, lookup.all, a, limbo);
        OnlyAtUpdate(queue, a, l);
        OnlyAtTwice(old(queue), queue, queue - {a}, a);
        queue := queue - {a};
      }
      NoneEmptyElsewhere(old(queue), queue, a);
    }

    /** Removes transactions that the price heap has already given up. */
    method DropAll(drop: seq<Tx>)
      requires Holds(0, map[]) && NoneEmpty(pending) && NoneEmpty(queue) && PricedOk(multiset(drop))
      modifies this`pending, this`queue, this`nonces, lookup, priced
      ensures Holds(0, map[]) && NoneEmpty(pending) && NoneEmpty(queue) && PricedOk(multiset{})
      ensures DroppedFrom(old(lookup.all), lookup.all, multiset(drop))
      ensures AllPurged(old(Contents()), Contents(), multiset(drop), state)
      ensures drop == [] ==> Now() == old(Now())
    {
      WholeSlices(drop);
      ghost var l, all := Contents(), lookup.all;
      PurgedNone(l, state);
      for i := 0 to |drop|
        invariant AllPurged(l, Contents(), multiset(drop[..i]), state)
        invariant i == 0 ==> Now() == old(Now())
        invariant Holds(0, map[]) && NoneEmpty(pending) && NoneEmpty(queue) && PricedOk(multiset(drop[i..]))
        invariant DroppedFrom(old(lookup.all), lookup.all, multiset(drop[..i]))
      {
        DropNext(drop, i, l, all);
      }
    }

    /** One round: `l` and `all` are the lists and the index before the first one. */
    method DropNext(drop: seq<Tx>, i: nat, ghost l: Lists, ghost all: map<TxHash, Tx>)
      requires Holds(0, map[]) && NoneEmpty(pending) && NoneEmpty(queue)
      requires i < |drop| && PricedOk(multiset(drop[i..])) && Agree(l.p, l.q, all, 0, map[])
      requires AllPurged(l, Contents(), multiset(drop[..i]), state)
      requires DroppedFrom(all, lookup.all, multiset(drop[..i]))
      modifies this`pending, this`queue, this`nonces, lookup, priced
      ensures Holds(0, map[]) && NoneEmpty(pending) && NoneEmpty(queue) && PricedOk(multiset(drop[i + 1..]))
      ensures AllPurged(l, Contents(), multiset(drop[..i + 1]), state)
      ensures DroppedFrom(all, lookup.all, multiset(drop[..i + 1]))
    {
      SliceStep(drop, i);
      assert multiset(drop[i..]) - multiset{drop[i]} == multiset(drop[i + 1..]);
      DroppedOneMore(all, lookup.all, multiset(drop[..i]), drop[i]);
      RemoveTx(drop[i].Hash(), false, multiset(drop[i..]));
      PurgedMore(l, all, old(Contents()), old(lookup.all), Contents(), state, multiset(drop[..i]), drop[i]);
    }

    /** Raises or lowers the price floor; afterwards no remote transaction below it is left. */
    method SetGasPrice(price: nat) returns (ghost drop: multiset<Tx>)
      requires Valid()
      modifies this, lookup, priced
      ensures Valid() && Rules() == old(Rules()).(gasPrice := price) && locals == old(locals)
      ensures DroppedFrom(old(lookup.all), lookup.all, drop) && BelowFloor(old(lookup.all), locals, drop, price)
      ensures forall tx :: Remote(lookup.all, locals, tx) ==> tx.price >= price
      ensures forall tx :: Live(old(lookup.all), tx) && !Live(lookup.all, tx) ==>
                tx.sender !in locals && tx.price < price
      ensures forall tx :: Live(lookup.all, tx) <==> Live(old(lookup.all), tx) && tx !in drop
      ensures AllPurged(old(Contents()), Contents(), drop, state) && RunsKept(old(Contents()), Contents(), state)
    {
      gasPrice := price;
      var victims := CapPrices(price);
      DropAll(victims);
      drop := multiset(victims);
      DroppedMeans(old(lookup.all), lookup.all, drop);
      FloorHolds(old(lookup.all), lookup.all, drop, locals, price);
      PurgingKeepsRuns(old(Contents()), Contents(), drop, state);
    }

    /** The price heap's part of `SetGasPrice`. */
    method CapPrices(price: nat) returns (drop: seq<Tx>)
      requires Holds(0, map[]) && PricedOk(multiset{})
      modifies priced
      ensures PricedOk(multiset(drop))
      ensures BelowFloor(lookup.all, locals, multiset(drop), price)
    {
      AgreeIsFiled(pending, queue, lookup.all, 0, map[]);
      ghost var items, stales := multiset(priced.items), priced.stales;
      assert items + multiset{} == items;
      drop := priced.Cap(price, locals);
      SweptCount(items, multiset(priced.items), multiset(drop), stales, priced.stales, lookup.all);
    }

    /** Drops everything an idle account has queued. */
    method EvictQueue(a: Address)
      requires Valid()
      modifies this`pending, this`queue, this`nonces, lookup, priced
      ensures Valid() && a !in queue
      ensures pending == old(pending) && nonces == old(nonces) && OnlyAt(old(queue), queue, a)
    {
      OnlyAtUpdate(queue, a, EmptyLoose);
      while a in queue
        invariant Valid() && pending == old(pending) && nonces == old(nonces) && OnlyAt(old(queue), queue, a)
        decreases |Items(queue, a)|
      {
        assert NonEmpty(queue, a);
        var n :| n in queue[a].items;
        ghost var q := queue;
        RemoveQueuedAt(a, n);
        OnlyAtTwice(old(queue), q, queue, a);
      }
    }

    /** Removes one queued transaction through its hash. */
    method RemoveQueuedAt(a: Address, n: nat)
      requires Valid() && Taken(queue, a, n)
      modifies this`pending, this`queue, this`nonces, lookup, priced
      ensures Valid()
      ensures pending == old(pending) && nonces == old(nonces)
      ensures OnlyAt(old(queue), queue, a) && Items(queue, a) == Items(old(queue), a) - {n}
      ensures |Items(queue, a)| == |Items(old(queue), a)| - 1
    {
      var tx := queue[a].items[n];
      ListedIsIndexed(pending, queue, lookup.all, a, n);
      RemoveTx(tx.Hash(), true, multiset{});
      assert old(queue)[a].items.Keys == (old(queue)[a].items - {n}).Keys + {n};
    }

    /** Inserts a transaction into its sender's pending list and raises the virtual nonce past it. */
    method PromoteTx(a: Address, tx: Tx) returns (inserted: bool)
      requires PricedOk(multiset{}) && Filed(lookup.all)
      modifies this`pending, this`nonces, lookup, priced
      ensures inserted <==> ListOf(old(pending), a, true).Accepts(tx, config.priceBump)
      ensures pending == if inserted then old(pending)[a := ListOf(old(pending), a, true).Added(tx)] else old(pending)
      ensures nonces == if inserted then old(nonces)[a := tx.nonce + 1] else old(nonces)
      ensures lookup.all ==
                if !inserted then old(lookup.all) - {tx.Hash()}
                else if Taken(old(pending), a, tx.nonce)
                then (old(lookup.all) - {old(pending)[a].items[tx.nonce].Hash()})[tx.Hash() := tx]
                else old(lookup.all)[tx.Hash() := tx]
      ensures PricedOk(multiset{})
    {
      var list := ListOf(pending, a, true);
      if !list.Accepts(tx, config.priceBump) {
        Unindex(tx.Hash());
        return false;
      }
      pending := pending[a := list.Added(tx)];
      Reindex(if list.Overlaps(tx) then Some(list.items[tx.nonce]) else None, tx, multiset{});
      nonces := nonces[a := tx.nonce + 1];
      inserted := true;
    }

    /** Takes `part` out of an account's queue, leaving the list `l`, and forgets it. */
    method DropQueued(a: Address, l: AccountList, part: map<nat, Tx>)
      requires Holds(a, map[]) && PricedOk(multiset{}) && a in queue
      requires forall n :: n in part ==> n in queue[a].items && part[n] == queue[a].items[n]
      requires l.items == queue[a].items - part.Keys && !l.strict && l.CapsBound()
      modifies this`queue, lookup, priced
      ensures Holds(a, map[]) && PricedOk(multiset{})
      ensures queue == old(queue)[a := l]
    {
      assert map[] + part == part;
      TakeQueued(pending, queue, lookup.all, a, map[], l, part, part);
      queue := queue[a := l];
      Forget(a, part);
    }

    /** Drops what an account has queued below the state nonce or beyond its means. */
    method PruneQueue(a: Address)
      requires Holds(a, map[]) && PricedOk(multiset{}) && a in queue
      modifies this`queue, lookup, priced
      ensures Holds(a, map[]) && PricedOk(multiset{})
      ensures queue == old(queue)[a := Payable(old(queue)[a], state, a, maxGas)]
    {
      DropStale(a);
      DropUnpayable(a);
    }

    method DropStale(a: Address)
      requires Holds(a, map[]) && PricedOk(multiset{}) && a in queue
      modifies this`queue, lookup, priced
      ensures Holds(a, map[]) && PricedOk(multiset{})
      ensures queue == old(queue)[a := old(queue)[a].Without(Below(old(queue)[a].items, state.nonceOf(a)).Keys)]
    {
      assert ListOk(queue, false, a);
      var list := queue[a];
      var stale := Below(list.items, state.nonceOf(a));
      WithoutKeepsCaps(list, stale.Keys);
      DropQueued(a, list.Without(stale.Keys), stale);
    }

    method DropUnpayable(a: Address)
      requires Holds(a, map[]) && PricedOk(multiset{}) && a in queue
      modifies this`queue, lookup, priced
      ensures Holds(a, map[]) && PricedOk(multiset{})
      ensures queue == old(queue)[a := old(queue)[a].Filtered(state, state.balanceOf(a), maxGas)]
    {
      assert ListOk(queue, false, a);
      var list := queue[a];
      var drops := list.Dropped(state, state.balanceOf(a), maxGas);
      FilteredKeepsCaps(list, state, state.balanceOf(a), maxGas);
      LooseFilter(list, state, state.balanceOf(a), maxGas);
      DropQueued(a, list.Filtered(state, state.balanceOf(a), maxGas), drops);
    }

    /** Promotes one transaction in limbo. */
    method PromoteOne(a: Address, tx: Tx, ghost limbo: map<nat, Tx>)
      requires Holds(a, limbo) && PricedOk(multiset{}) && tx.nonce in limbo && limbo[tx.nonce] == tx
      modifies this`pending, this`nonces, lookup, priced
      ensures Holds(a, limbo - {tx.nonce}) && PricedOk(multiset{}) && lookup.all == old(lookup.all)
      ensures pending == old(pending)[a := ListOf(old(pending), a, true).Added(tx)]
      ensures nonces == old(nonces)[a := tx.nonce + 1]
    {
      AgreeIsFiled(pending, queue, lookup.all, a, limbo);
      PutPending(pending, queue, lookup.all, a, limbo, tx.nonce);
      LimboIsIndexed(pending, queue, lookup.all, a, limbo, tx.nonce);
      var inserted := PromoteTx(a, tx);
    }

    /** Asks the quota worker about one transaction in limbo and promotes it if it may pass. */
    method PromoteNext(a: Address, tx: Tx, ghost limbo: map<nat, Tx>) returns (pass: bool)
      requires Holds(a, limbo) && PricedOk(multiset{}) && mortgage.Valid()
      requires tx.nonce in limbo && limbo[tx.nonce] == tx
      modifies this`pending, this`nonces, lookup, priced, mortgage
      ensures PricedOk(multiset{}) && mortgage.Valid() && lookup.all == old(lookup.all)
      ensures old(mortgage.Full()) <= mortgage.Full()
      ensures !pass ==> Refused(mortgage, state, tx) && pending == old(pending) && nonces == old(nonces)
      ensures pass ==>
                && Holds(a, limbo - {tx.nonce})
                && pending == old(pending)[a := ListOf(old(pending), a, true).Added(tx)]
                && nonces == old(nonces)[a := tx.nonce + 1]
    {
      var creator;
      pass, creator := mortgage.Passable(state, tx, gasPrice);
      if pass {
        PromoteOne(a, tx, limbo);
        if creator.Some? {
          mortgage.AddPending(creator.value);
        }
      }
    }

    /** One round of `PromoteRun`, at nonce `c`. */
    method PromoteStep(a: Address, readys: map<nat, Tx>, ghost s: nat, c: nat, ghost limbo: map<nat, Tx>,
                       ghost done: map<nat, Tx>,
                       ghost p: ListMap, ghost ns: map<Address, nat>)
      returns (pass: bool)
      requires Holds(a, limbo) && PricedOk(multiset{}) && mortgage.Valid()
      requires s <= c && c in readys && Split(readys, done, limbo, c) && c in limbo
      requires PromotedTo(p, pending, ns, nonces, state, a, done, s, c)
      modifies this`pending, this`nonces, lookup, priced, mortgage
      ensures PricedOk(multiset{}) && mortgage.Valid() && lookup.all == old(lookup.all)
      ensures old(mortgage.Full()) <= mortgage.Full()
      ensures !pass ==> Refused(mortgage, state, readys[c]) && pending == old(pending) && nonces == old(nonces)
      ensures pass ==>
                && Holds(a, limbo - {c}) && Split(readys, done[c := readys[c]], limbo - {c}, c + 1)
                && PromotedTo(p, pending, ns, nonces, state, a, done[c := readys[c]], s, c + 1)
    {
      LimboIsIndexed(pending, queue, lookup.all, a, limbo, c);
      PromotedMore(p, pending, ns, nonces, state, a, done, readys[c], s, c);
      SplitUp(readys, done, limbo, c, c);
      pass := PromoteNext(a, readys[c], limbo);
    }

    /**
     Promotes the run of queued transactions in limbo, in nonce order from `s`
     to `e`, up to the first that the quota does not admit.
     */
    method PromoteRun(a: Address, readys: map<nat, Tx>, s: nat, e: nat) returns (c: nat)
      requires Holds(a, readys) && PricedOk(multiset{}) && mortgage.Valid()
      requires s <= e && forall n :: n in readys <==> s <= n < e
      modifies this`pending, this`nonces, lookup, priced, mortgage
      ensures s <= c <= e && Holds(a, From(readys, c)) && PricedOk(multiset{}) && mortgage.Valid()
      ensures lookup.all == old(lookup.all) && old(mortgage.Full()) <= mortgage.Full()
      ensures PromotedTo(old(pending), pending, old(nonces), nonces, state, a, Below(readys, c), s, c)
      ensures c < e ==> Refused(mortgage, state, readys[c])
    {
      c := s;
      ghost var limbo: map<nat, Tx>, done: map<nat, Tx> := readys, map[];
      PromotedStart(pending, nonces, state, a, readys, s);
      while c < e
        invariant s <= c <= e && Holds(a, limbo) && PricedOk(multiset{}) && mortgage.Valid()
        invariant Split(readys, done, limbo, c) && lookup.all == old(lookup.all)
        invariant old(mortgage.Full()) <= mortgage.Full()
        invariant PromotedTo(old(pending), pending, old(nonces), nonces, state, a, done, s, c)
      {
        var pass := PromoteStep(a, readys, s, c, limbo, done, old(pending), old(nonces));
        if !pass {
          SplitParts(readys, done, limbo, c);
          return;
        }
        done, limbo := done[c := readys[c]], limbo - {c};
        c := c + 1;
      }
      SplitParts(readys, done, limbo, c);
    }

    /** Cuts a remote account's queue to the limit and deletes the list if nothing is left. */
    method SettleQueue(a: Address)
      requires Holds(a, map[]) && PricedOk(multiset{}) && NoneEmptyBut(queue, a) && a in queue
      modifies this`queue, lookup, priced
      ensures Holds(a, map[]) && PricedOk(multiset{}) && NoneEmpty(queue)
      ensures OnlyAt(old(queue), queue, a)
      ensures Items(queue, a) == Capped(old(queue)[a].items, a in locals, config.accountQueue)
    {
      OnlyAtUpdate(queue, a, queue[a]);
      if a !in locals {
        CapQueue(a);
      }
      ghost var q := queue;
      assert queue[a := queue[a]] == queue;
      NoneEmptyStill(old(queue), queue, a);
      SetQueue(a, queue[a], map[]);
      OnlyAtTwice(old(queue), q, queue, a);
    }

    /** Cuts an account's queue to the limit. */
    method CapQueue(a: Address)
      requires Holds(a, map[]) && PricedOk(multiset{}) && a in queue
      modifies this`queue, lookup, priced
      ensures Holds(a, map[]) && PricedOk(multiset{}) && OnlyAt(old(queue), queue, a) && a in queue
      ensures queue[a].items == Lowest(old(queue)[a].items, config.accountQueue)
    {
      var l := queue[a];
      assert ListOk(queue, false, a);
      var kept := Lowest(l.items, config.accountQueue);
      LowestIsPart(l.items, config.accountQueue);
      WithoutKeepsCaps(l, (l.items - kept.Keys).Keys);
      OnlyAtUpdate(queue, a, l.(items := kept));
      DropQueued(a, l.(items := kept), l.items - kept.Keys);
    }

    /** Takes the run of executable transactions out of an account's queue. */
    method TakeReady(a: Address, readys: map<nat, Tx>)
      requires Holds(a, map[]) && a in queue
      requires forall n :: n in readys ==> n in queue[a].items && readys[n] == queue[a].items[n]
      modifies this`queue
      ensures Holds(a, readys) && queue == old(queue)[a := old(queue)[a].Without(readys.Keys)]
    {
      assert ListOk(queue, false, a);
      WithoutKeepsCaps(queue[a], readys.Keys);
      assert map[] + readys == readys;
      TakeQueued(pending, queue, lookup.all, a, map[], queue[a].Without(readys.Keys), readys, readys);
      queue := queue[a := queue[a].Without(readys.Keys)];
    }

    /** Promotes the executable part of an account's pruned queue and puts the rest back. */
    method PromoteReady(a: Address) returns (ghost e: nat, c: nat)
      requires Holds(a, map[]) && PricedOk(multiset{}) && mortgage.Valid() && a in queue
      requires NoneEmpty(pending)
      modifies this`pending, this`queue, this`nonces, lookup, priced, mortgage
      ensures Holds(a, map[]) && PricedOk(multiset{}) && mortgage.Valid() && NoneEmpty(pending) && a in queue
      ensures old(mortgage.Full()) <= mortgage.Full()
      ensures var items := old(queue)[a].items;
              && AccountPromoted(old(pending), old(queue), old(nonces), pending, queue, nonces, state, a,
                                 items, e, c, true, 0)
              && (c < e ==> c in items && Refused(mortgage, state, items[c]))
    {
      var items := queue[a].items;
      var s, end := ReadyRange(items, NonceOf(nonces, state, a));
      var readys := Below(items, end);
      ghost var p, q, ns := pending, queue, nonces;
      TakeReady(a, readys);
      c := PromoteTaken(a, readys, s, end);
      TakenPromoted(p, q, ns, pending, queue, nonces, state, a, readys, s, end, c);
      e := end;
    }

    /** Promotes what was taken out of a queue as far as the quota admits, and puts the rest back. */
    method PromoteTaken(a: Address, readys: map<nat, Tx>, s: nat, e: nat) returns (c: nat)
      requires Holds(a, readys) && PricedOk(multiset{}) && mortgage.Valid()
      requires s <= e && forall n :: n in readys <==> s <= n < e
      modifies this`pending, this`queue, this`nonces, lookup, priced, mortgage
      ensures s <= c <= e && Holds(a, map[]) && PricedOk(multiset{}) && mortgage.Valid()
      ensures old(mortgage.Full()) <= mortgage.Full()
      ensures PromotedTo(old(pending), pending, old(nonces), nonces, state, a, Below(readys, c), s, c)
      ensures Requeued(old(queue), queue, a, From(readys, c), map[])
      ensures c < e ==> Refused(mortgage, state, readys[c])
    {
      c := PromoteRun(a, readys, s, e);
      Requeue(a, From(readys, c), multiset{});
    }

    /** Moves the executable transactions of one account's queue to its pending list. */
    method PromoteAccount(a: Address) returns (ghost e: nat, ghost c: nat)
      requires Valid() && a in queue
      modifies this`pending, this`queue, this`nonces, lookup, priced, mortgage
      ensures Valid() && old(mortgage.Full()) <= mortgage.Full()
      ensures var items := Payable(old(queue)[a], state, a, maxGas).items;
              && AccountPromoted(old(pending), old(queue), old(nonces), pending, queue, nonces, state, a,
                                 items, e, c, a in locals, config.accountQueue)
              && (c < e ==> c in items && Refused(mortgage, state, items[c]))
      ensures QueueServed(old(Contents()), Contents(), Conditions(), a)
    {
      ghost var l := Contents();
      OwnApart(pending, queue, lookup.all, a);
      assert ListOk(queue, false, a);
      LimboOfNobody(pending, queue, lookup.all, 0, a);
      e, c := PromotePruned(a);
      LimboOfNobody(pending, queue, lookup.all, a, 0);
      ghost var items := Payable(l.q[a], state, a, maxGas).items;
      PromotedIsPromotion(l, Contents(), Conditions(), mortgage.Full(), a, items, e, c);
      PromotionServes(l, Contents(), Conditions(), mortgage.Full(), a, e, c);
    }

    /** Prunes an account's queue, promotes its executable part and cuts the rest to the limit. */
    method PromotePruned(a: Address) returns (ghost e: nat, ghost c: nat)
      requires Holds(a, map[]) && PricedOk(multiset{}) && mortgage.Valid() && a in queue
      requires NoneEmpty(pending) && NoneEmpty(queue)
      modifies this`pending, this`queue, this`nonces, lookup, priced, mortgage
      ensures Holds(a, map[]) && PricedOk(multiset{}) && mortgage.Valid() && NoneEmpty(pending) && NoneEmpty(queue)
      ensures old(mortgage.Full()) <= mortgage.Full()
      ensures var items := Payable(old(queue)[a], state, a, maxGas).items;
              && AccountPromoted(old(pending), old(queue), old(nonces), pending, queue, nonces, state, a,
                                 items, e, c, a in locals, config.accountQueue)
              && (c < e ==> c in items && Refused(mortgage, state, items[c]))
    {
      OnlyAtUpdate(queue, a, Payable(queue[a], state, a, maxGas));
      PruneQueue(a);
      ghost var q1 := queue;
      e, c := PromoteReady(a);
      ghost var q2 := queue;
      NoneEmptyStill(old(queue), q1, a);
      NoneEmptyStill(q1, q2, a);
      SettleQueue(a);
      PrunedAndSettled(old(pending), old(queue), old(nonces), q1, pending, q2, nonces, queue, state, a,
                       q1[a].items, e, c, a in locals, config.accountQueue);
    }

    // ----- limits -----

    /** Drops the highest nonce of an account's pending list. */
    method CapOne(a: Address) returns (n: nat)
      requires Valid() && a in pending && Size(pending, a) >= 2
      modifies this`pending, this`nonces, lookup, priced
      ensures Valid() && OnlyAt(old(pending), pending, a) && a in pending && OnlyAt(old(nonces), nonces, a)
      ensures n in Items(old(pending), a) && Items(pending, a) == Below(Items(old(pending), a), n)
      ensures NonceOf(nonces, state, a) ==
                if NonceOf(old(nonces), state, a) > n then n else NonceOf(old(nonces), state, a)
      ensures Size(pending, a) == Size(old(pending), a) - 1 && IsCut(Items(old(pending), a), Items(pending, a))
    {
      LimboOfNobody(pending, queue, lookup.all, 0, a);
      n := DropHighest(a);
      CutByOne(Items(old(pending), a), n);
      LowerNonce(a, n);
      LimboOfNobody(pending, queue, lookup.all, a, 0);
    }

    method DropHighest(a: Address) returns (n: nat)
      requires Holds(a, map[]) && PricedOk(multiset{}) && NoneEmpty(pending) && a in pending && Size(pending, a) >= 2
      modifies this`pending, lookup, priced
      ensures Holds(a, map[]) && PricedOk(multiset{}) && NoneEmpty(pending)
      ensures n in Items(old(pending), a) && forall k :: k in Items(old(pending), a) ==> k <= n
      ensures OnlyAt(old(pending), pending, a) && a in pending && Items(pending, a) == Below(Items(old(pending), a), n)
    {
      var l := pending[a];
      n := HighestNonce(l.items);
      HighestDropped(l.items, n);
      assert ListOk(pending, true, a);
      var part := map[n := l.items[n]];
      WithoutKeepsCaps(l, {n});
      assert map[] + part == part && part.Keys == {n};
      TakePending(pending, queue, lookup.all, a, map[], l.Without({n}), part, part);
      OnlyAtUpdate(pending, a, l.Without({n}));
      pending := pending[a := l.Without({n})];
      assert NonEmpty(pending, a);
      NoneEmptyElsewhere(old(pending), pending, a);
      Forget(a, part);
    }

    /** One round of eviction: every account in `offs` loses its highest nonce. */
    method CapRound(offs: seq<Address>, ghost level: nat, ghost start: Lists)
      requires Valid() && Distinct(offs) && level > config.accountSlots
      requires LevelAt(pending, offs, 0, |offs|, level) && AllTrimmed(start.p, pending, config.accountSlots)
      requires AllLowered(start.p, pending, start.ns, nonces, state)
      modifies this`pending, this`nonces, lookup, priced
      ensures Valid() && LevelAt(pending, offs, 0, |offs|, level - 1)
      ensures AllTrimmed(start.p, pending, config.accountSlots) && AllLowered(start.p, pending, start.ns, nonces, state)
      ensures OnlyIn(old(pending), pending, offs) && Total(pending) == Total(old(pending)) - |offs|
    {
      OnlyInNone(pending, offs);
      for i := 0 to |offs|
        invariant Valid() && LevelAt(pending, offs, 0, i, level - 1) && LevelAt(pending, offs, i, |offs|, level)
        invariant AllTrimmed(start.p, pending, config.accountSlots)
        invariant AllLowered(start.p, pending, start.ns, nonces, state)
        invariant OnlyIn(old(pending), pending, offs) && Total(pending) == Total(old(pending)) - i
      {
        ghost var l := Contents();
        var n := CapOne(offs[i]);
        LoweredMore(start.p, l.p, pending, start.ns, l.ns, nonces, state, offs[i], n);
        RoundMore(l.p, pending, offs, i, level);
        TrimmedMore(start.p, l.p, pending, config.accountSlots, offs[i]);
        OnlyInMore(old(pending), l.p, pending, offs, i);
      }
    }

    /** Cuts the level accounts `offs` round by round until the pool fits or they are down to `threshold`. */
    method LevelDown(offs: seq<Address>, threshold: nat, total: nat, ghost level: nat, ghost start: Lists)
      returns (total': nat, ghost level': nat)
      requires Valid() && Distinct(offs) && offs != [] && config.accountSlots <= threshold <= level
      requires LevelAt(pending, offs, 0, |offs|, level) && AllTrimmed(start.p, pending, config.accountSlots)
      requires total == Total(pending) && NotTooMany(start.p, pending, config.globalSlots)
      requires AllLowered(start.p, pending, start.ns, nonces, state)
      modifies this`pending, this`nonces, lookup, priced
      ensures NotTooMany(start.p, pending, config.globalSlots) && AllLowered(start.p, pending, start.ns, nonces, state)
      ensures Valid() && threshold <= level' <= level && LevelAt(pending, offs, 0, |offs|, level')
      ensures AllTrimmed(start.p, pending, config.accountSlots) && OnlyIn(old(pending), pending, offs)
      ensures total' == Total(pending) && (total' <= config.globalSlots || level' == threshold)
    {
      total', level' := total, level;
      OnlyInNone(pending, offs);
      while total' > config.globalSlots && Size(pending, offs[|offs| - 1]) > threshold
        invariant Valid() && threshold <= level' <= level && LevelAt(pending, offs, 0, |offs|, level')
        invariant AllTrimmed(start.p, pending, config.accountSlots) && OnlyIn(old(pending), pending, offs)
        invariant total' == Total(pending) && NotTooMany(start.p, pending, config.globalSlots)
        invariant AllLowered(start.p, pending, start.ns, nonces, state)
        decreases level'
      {
        ghost var p := pending;
        CapRound(offs, level', start);
        OnlyInTwice(old(pending), p, pending, offs);
        RoundNotTooMany(start.p, p, pending, config.accountSlots, offs, level', config.globalSlots);
        total', level' := total' - |offs|, level' - 1;
      }
    }

    /** Makes the next largest sender an offender and brings the earlier ones down to its size. */
    method NextOffender(offs: seq<Address>, spammers: set<Address>, total: nat, ghost level: nat, ghost start: Lists)
      returns (offs': seq<Address>, spammers': set<Address>, total': nat, ghost level': nat)
      requires Valid() && spammers != {} && total == Total(pending)
      requires Evicting(start.p, pending, locals, config.accountSlots, offs, spammers, level)
      requires NotTooMany(start.p, pending, config.globalSlots) && AllLowered(start.p, pending, start.ns, nonces, state)
      modifies this`pending, this`nonces, lookup, priced
      ensures Valid() && total' == Total(pending) && |spammers'| < |spammers|
      ensures NotTooMany(start.p, pending, config.globalSlots) && AllLowered(start.p, pending, start.ns, nonces, state)
      ensures total' > config.globalSlots ==>
                Evicting(start.p, pending, locals, config.accountSlots, offs', spammers', level') && offs' != []
      ensures AllTrimmed(start.p, pending, config.accountSlots) && Fair(start.p, pending, locals, config.accountSlots)
    {
      var off := PopLargest(spammers, pending);
      var t := Size(pending, off);
      OffenderFits(start.p, pending, locals, config.accountSlots, offs, spammers, level, off);
      spammers' := spammers - {off};
      assert spammers == spammers' + {off};
      offs', total', level' := offs + [off], total, t;
      if |offs| > 0 {
        total', level' := LevelDown(offs, t, total, level, start);
      }
      EvictingMore(start.p, old(pending), pending, locals, config.accountSlots, offs, spammers, level, level', off);
    }

    /**
     If the pending lists hold more than the pool allows, evicts the highest
     nonces of the largest remote senders, levelling them as it goes.
     */
    method TruncatePending()
      requires Valid()
      modifies this`pending, this`nonces, lookup, priced
      ensures Valid()
      ensures PendingFitted(old(pending), pending, config.globalSlots)
      ensures Total(old(pending)) <= config.globalSlots ==> nonces == old(nonces)
      ensures Total(pending) <= config.globalSlots || WithinSlots(pending, locals, config.accountSlots)
      ensures AllTrimmed(old(pending), pending, config.accountSlots)
      ensures Fair(old(pending), pending, locals, config.accountSlots)
      ensures AllLowered(old(pending), pending, old(nonces), nonces, state)
      ensures RunsKept(old(Contents()), Contents(), state)
    {
      var slots := config.accountSlots;
      var total := CountAll(pending);
      ghost var start := Contents();
      TrimmedNot(start.p, slots);
      UntouchedIsFair(start.p, locals, slots);
      if total > config.globalSlots {
        EvictPending(total, start);
      }
      LoweringKeepsRuns(start, Contents(), state);
    }

    /** The part of `TruncatePending` for pending lists over the limit. */
    method EvictPending(total: nat, ghost start: Lists)
      requires Valid() && start == Contents() && total == Total(pending) > config.globalSlots
      modifies this`pending, this`nonces, lookup, priced
      ensures Valid() && NotTooMany(start.p, pending, config.globalSlots)
      ensures Total(pending) <= config.globalSlots || WithinSlots(pending, locals, config.accountSlots)
      ensures AllTrimmed(start.p, pending, config.accountSlots) && Fair(start.p, pending, locals, config.accountSlots)
      ensures AllLowered(start.p, pending, start.ns, nonces, state)
    {
      var slots := config.accountSlots;
      TrimmedNot(start.p, slots);
      UntouchedIsFair(start.p, locals, slots);
      var total := total;
      var spammers := set a | a in pending && Spams(pending, locals, slots, a);
      var offs: seq<Address> := [];
      ghost var level: nat := total;
      EvictingStart(start.p, locals, slots, spammers);
      while total > config.globalSlots && spammers != {}
        invariant Valid() && total == Total(pending) && NotTooMany(start.p, pending, config.globalSlots)
        invariant total > config.globalSlots ==> Evicting(start.p, pending, locals, slots, offs, spammers, level)
        invariant AllTrimmed(start.p, pending, slots) && Fair(start.p, pending, locals, slots)
        invariant AllLowered(start.p, pending, start.ns, nonces, state)
        decreases |spammers|
      {
        offs, spammers, total, level := NextOffender(offs, spammers, total, level, start);
      }
      if total > config.globalSlots && |offs| > 0 {
        ghost var p, l := pending, level;
        total, level := LevelDown(offs, slots, total, level, start);
        EvictingEnd(start.p, p, pending, locals, slots, offs, l, level);
      } else if total > config.globalSlots {
        NobodySpams(pending, locals, slots, offs, level);
      }
    }

    /** Drops the `count` highest nonces of an account's queue, which holds more. */
    method DropTail(a: Address, count: nat)
      requires Valid() && a in queue && 0 < count < Size(queue, a)
      modifies this`pending, this`queue, this`nonces, lookup, priced
      ensures Valid() && pending == old(pending) && nonces == old(nonces)
      ensures OnlyAt(old(queue), queue, a) && IsCut(Items(old(queue), a), Items(queue, a))
      ensures Size(queue, a) == Size(old(queue), a) - count
    {
      OnlyAtUpdate(queue, a, queue[a]);
      NoCut(Items(queue, a));
      var drop := count;
      while drop > 0
        invariant Valid() && pending == old(pending) && nonces == old(nonces) && 0 <= drop <= count
        invariant OnlyAt(old(queue), queue, a) && IsCut(Items(old(queue), a), Items(queue, a))
        invariant Size(queue, a) == Size(old(queue), a) - (count - drop)
      {
        ghost var q := queue;
        assert Items(queue, a) != map[];
        var n := HighestNonce(queue[a].items);
        HighestDropped(Items(queue, a), n);
        RemoveQueuedAt(a, n);
        OnlyAtTwice(old(queue), q, queue, a);
        CutTwice(Items(old(queue), a), Items(q, a), Items(queue, a));
        drop := drop - 1;
      }
    }

    /** Drops an account's queue as far as needed, returning what is still to be dropped elsewhere. */
    method DropFrom(a: Address, drop: nat) returns (rest: nat)
      requires Valid() && a in queue && drop > 0
      modifies this`pending, this`queue, this`nonces, lookup, priced
      ensures Valid() && pending == old(pending) && nonces == old(nonces)
      ensures OnlyAt(old(queue), queue, a) && IsCut(Items(old(queue), a), Items(queue, a))
      ensures WasCut(old(queue), queue, a) && (a in queue ==> rest == 0)
      ensures Total(queue) - rest == Total(old(queue)) - drop
    {
      assert NonEmpty(queue, a);
      var size := Size(queue, a);
      if size <= drop {
        EvictQueue(a);
        CutToNothing(Items(old(queue), a));
        rest := drop - size;
      } else {
        DropTail(a, drop);
        rest := 0;
      }
      TotalChange(old(queue), queue, a);
    }

    /** Takes the account with the latest heartbeat and drops from its queue. */
    method DropLatest(addresses: set<Address>, drop: nat, beats: Address -> int, ghost q0: ListMap)
      returns (addresses': set<Address>, drop': nat)
      requires Valid() && drop > 0 && addresses != {} && Dropping(q0, queue, locals, addresses, false, beats)
      modifies this`pending, this`queue, this`nonces, lookup, priced
      ensures Valid() && pending == old(pending) && nonces == old(nonces) && |addresses'| < |addresses|
      ensures Total(queue) - drop' == Total(old(queue)) - drop
      ensures Dropping(q0, queue, locals, addresses', drop' == 0, beats)
    {
      var a := PopLatest(addresses, beats);
      StillQueued(q0, queue, locals, addresses, beats, a);
      drop' := DropFrom(a, drop);
      DroppingMore(q0, old(queue), queue, locals, addresses, drop' == 0, beats, a);
      addresses' := addresses - {a};
    }

    /** If the queues hold more than the pool allows, drops remote ones, latest heartbeat first. */
    method TruncateQueue(beats: Address -> int)
      requires Valid()
      modifies this`pending, this`queue, this`nonces, lookup, priced
      ensures Valid() && pending == old(pending) && nonces == old(nonces)
      ensures QueueFitted(old(queue), queue, locals, config.globalQueue)
      ensures forall a, b :: QueueDropped(old(queue), queue, locals, beats, a, b)
      ensures RunsKept(old(Contents()), Contents(), state)
    {
      var queued := CountAll(queue);
      UntouchedQueue(queue, locals, beats);
      if queued <= config.globalQueue {
        return;
      }
      ghost var l := Contents();
      var addresses := set a | a in queue && a !in locals;
      var drop: nat := queued - config.globalQueue;
      DroppingStart(queue, locals, addresses, beats);
      while drop > 0 && addresses != {}
        invariant Valid() && pending == old(pending) && nonces == old(nonces)
        invariant Total(queue) == config.globalQueue + drop
        invariant Dropping(old(queue), queue, locals, addresses, drop == 0, beats)
        decreases |addresses|
      {
        addresses, drop := DropLatest(addresses, drop, beats, old(queue));
      }
      DroppingEnd(old(queue), queue, locals, addresses, drop == 0, beats);
      DroppingKeepsRuns(l, Contents(), state, locals, beats);
    }

    // ----- promotion and demotion of all accounts -----

    /** Promotes the given accounts, in an order the caller cannot rely on. */
    method PromoteAccounts(accounts: set<Address>)
      requires Valid()
      modifies this`pending, this`queue, this`nonces, lookup, priced, mortgage
      ensures Valid() && PromotedExcept(old(Contents()), Contents(), Conditions(), mortgage.Full(), accounts, {})
      ensures RunsKept(old(Contents()), Contents(), state)
      ensures AllServed(old(Contents()), Contents(), Conditions(), accounts)
    {
      var todo := accounts;
      ghost var l, all := Contents(), lookup.all;
      PromotingStart(l, Conditions(), mortgage.Full(), accounts);
      while todo != {}
        invariant Valid() && todo <= accounts
        invariant PromotedExcept(l, Contents(), Conditions(), mortgage.Full(), accounts, todo)
      {
        var a :| a in todo;
        PromoteAny(a, l, accounts, todo);
        todo := todo - {a};
      }
      PromotionKeepsRuns(l, Contents(), Conditions(), mortgage.Full(), accounts);
      PromotionServesAll(l, all, Contents(), Conditions(), mortgage.Full(), accounts);
    }

    /** Promotes an account if it has a queue. */
    method PromoteAny(a: Address, ghost l: Lists, ghost accounts: set<Address>, ghost todo: set<Address>)
      requires Valid() && a in todo && a in accounts
      requires PromotedExcept(l, Contents(), Conditions(), mortgage.Full(), accounts, todo)
      modifies this`pending, this`queue, this`nonces, lookup, priced, mortgage
      ensures Valid() && PromotedExcept(l, Contents(), Conditions(), mortgage.Full(), accounts, todo - {a})
    {
      ghost var l1, full := Contents(), mortgage.Full();
      ghost var e: nat, c: nat := 0, 0;
      if a in queue {
        e, c := PromoteAccount(a);
        ghost var items := Payable(l1.q[a], state, a, maxGas).items;
        PromotedIsPromotion(l1, Contents(), Conditions(), mortgage.Full(), a, items, e, c);
      }
      PromotingMore(l, l1, Contents(), Conditions(), full, mortgage.Full(), accounts, todo, a, e, c);
    }

    /**
     Moves executable transactions to the pending lists and enforces the limits;
     `mid` are the lists in between.
     */
    method PromoteExecutables(accounts: set<Address>, beats: Address -> int) returns (ghost mid: Lists)
      requires Valid()
      modifies this`pending, this`queue, this`nonces, lookup, priced, mortgage
      ensures Valid() && WithinLimits()
      ensures Promoted(old(Contents()), mid, Contents(), Conditions(), mortgage.Full(), accounts, config, beats)
      ensures RunsKept(old(Contents()), Contents(), state)
      ensures AllServed(old(Contents()), mid, Conditions(), accounts)
      ensures forall a :: a in accounts && a in old(queue) ==> QueueWithin(mid, Contents(), Conditions(), a)
    {
      PromoteAccounts(accounts);
      mid := Contents();
      EnforceLimits(beats);
      PassingKeepsRuns(old(Contents()), mid, Contents(), Conditions(), mortgage.Full(), accounts, config, beats);
      LimitsKeepQueues(old(Contents()), mid, Contents(), Conditions(), accounts, config, beats);
    }

    method EnforceLimits(beats: Address -> int)
      requires Valid()
      modifies this`pending, this`queue, this`nonces, lookup, priced
      ensures Valid() && WithinLimits() && Limited(old(Contents()), Contents(), Conditions(), config, beats)
    {
      TruncatePending();
      TruncateQueue(beats);
    }

    /**
     Drops what an account has pending below the state nonce or beyond its
     means; what that leaves behind without a predecessor goes back to the queue.
     */
    method DemoteAccount(a: Address)
      requires Valid() && a in pending
      modifies this`pending, this`queue, lookup, priced
      ensures Valid()
      ensures Demoted(old(pending), old(queue), pending, queue, state, a, maxGas)
      ensures DemotionServed(old(pending), old(queue), pending, queue, Conditions(), a)
    {
      OwnApart(pending, queue, lookup.all, a);
      assert ListOk(pending, true, a);
      LimboOfNobody(pending, queue, lookup.all, 0, a);
      OnlyAtUpdate(pending, a, Payable(pending[a], state, a, maxGas));
      PrunePending(a);
      ghost var p1, q1 := pending, queue;
      NoneEmptyStill(old(pending), p1, a);
      PostponeGapped(a);
      OnlyAtTwice(old(pending), p1, pending, a);
      OnlyAtTwice(old(queue), q1, queue, a);
      LimboOfNobody(pending, queue, lookup.all, a, 0);
      DemotionServes(old(pending), old(queue), pending, queue, Conditions(), a);
    }

    /** The second half: a list that does not start at the state nonce goes back to the queue. */
    method PostponeGapped(a: Address)
      requires Holds(a, map[]) && PricedOk(multiset{}) && a in pending && NoneEmptyBut(pending, a) && NoneEmpty(queue)
      modifies this`pending, this`queue, lookup, priced
      ensures Holds(a, map[]) && PricedOk(multiset{}) && NoneEmpty(pending) && NoneEmpty(queue)
      ensures OnlyAt(old(pending), pending, a) && OnlyAt(old(queue), queue, a)
      ensures var pm, qm := Items(old(pending), a), Items(old(queue), a);
              if pm != map[] && state.nonceOf(a) !in pm
              then Items(pending, a) == map[] && Items(queue, a) == qm + pm
              else Items(pending, a) == pm && Items(queue, a) == qm
    {
      if pending[a].items != map[] && state.nonceOf(a) !in pending[a].items {
        PostponeAll(a);
      } else {
        assert pending[a := pending[a]] == pending;
        SetPending(a, pending[a], map[]);
        OnlyAtUpdate(queue, a, EmptyLoose);
      }
    }

    /** Moves an account's whole pending list, which lacks its first nonce, back to the queue. */
    method PostponeAll(a: Address)
      requires Holds(a, map[]) && PricedOk(multiset{}) && a in pending && NoneEmptyBut(pending, a) && NoneEmpty(queue)
      modifies this`pending, this`queue, lookup, priced
      ensures Holds(a, map[]) && PricedOk(multiset{}) && NoneEmpty(pending) && NoneEmpty(queue)
      ensures OnlyAt(old(pending), pending, a) && Items(pending, a) == map[]
      ensures OnlyAt(old(queue), queue, a) && Items(queue, a) == Items(old(queue), a) + Items(old(pending), a)
    {
      var l := pending[a];
      var none := l.Without(l.items.Keys);
      assert ListOk(pending, true, a);
      WithoutKeepsCaps(l, l.items.Keys);
      assert none.items == map[] && map[] + l.items == l.items;
      TakePending(pending, queue, lookup.all, a, map[], none, l.items, l.items);
      SetPending(a, none, l.items);
      Requeue(a, l.items, multiset{});
      RequeuedAll(old(queue), queue, a, l.items);
    }

    /** The first half of `DemoteAccount`: the nonce and affordability checks. */
    method PrunePending(a: Address)
      requires Holds(a, map[]) && PricedOk(multiset{}) && a in pending && NoneEmpty(queue)
      modifies this`pending, this`queue, lookup, priced
      ensures Holds(a, map[]) && PricedOk(multiset{}) && NoneEmpty(queue)
      ensures pending == old(pending)[a := Payable(old(pending)[a], state, a, maxGas)]
      ensures OnlyAt(old(queue), queue, a)
      ensures Items(queue, a) == Items(old(queue), a) + Unsupported(old(pending)[a], state, a, maxGas)
    {
      DropUsedUp(a);
      DropUnaffordable(a);
    }

    method DropUsedUp(a: Address)
      requires Holds(a, map[]) && PricedOk(multiset{}) && a in pending
      modifies this`pending, lookup, priced
      ensures Holds(a, map[]) && PricedOk(multiset{})
      ensures pending == old(pending)[a := old(pending)[a].Without(Below(old(pending)[a].items, state.nonceOf(a)).Keys)]
    {
      var list := pending[a];
      assert ListOk(pending, true, a);
      var old' := Below(list.items, state.nonceOf(a));
      WithoutKeepsCaps(list, old'.Keys);
      DropPending(a, list.Without(old'.Keys), old', map[]);
    }

    method DropUnaffordable(a: Address)
      requires Holds(a, map[]) && PricedOk(multiset{}) && a in pending && NoneEmpty(queue)
      modifies this`pending, this`queue, lookup, priced
      ensures Holds(a, map[]) && PricedOk(multiset{}) && NoneEmpty(queue)
      ensures pending == old(pending)[a := old(pending)[a].Filtered(state, state.balanceOf(a), maxGas)]
      ensures OnlyAt(old(queue), queue, a)
      ensures Items(queue, a) ==
                Items(old(queue), a) + old(pending)[a].Invalids(state, state.balanceOf(a), maxGas)
    {
      var l1 := pending[a];
      assert ListOk(pending, true, a);
      var drops := l1.Dropped(state, state.balanceOf(a), maxGas);
      var invalids := l1.Invalids(state, state.balanceOf(a), maxGas);
      var l2 := l1.Filtered(state, state.balanceOf(a), maxGas);
      FilteredKeepsCaps(l1, state, state.balanceOf(a), maxGas);
      FilterParts(l1, state, state.balanceOf(a), maxGas);
      DropPending(a, l2, drops, invalids);
      Requeue(a, invalids, multiset{});
      RequeuedAll(old(queue), queue, a, invalids);
    }

    /**
     Takes `part` and `keep` out of an account's pending list, leaving `l`; forgets
     `part`, leaves `keep` in limbo.
     */
    method DropPending(a: Address, l: AccountList, part: map<nat, Tx>, ghost keep: map<nat, Tx>)
      requires Holds(a, map[]) && PricedOk(multiset{}) && a in pending
      requires Partitioned(pending[a].items, l.items, part, keep) && l.strict && l.CapsBound()
      modifies this`pending, lookup, priced
      ensures Holds(a, keep) && PricedOk(multiset{})
      ensures pending == old(pending)[a := l]
    {
      PartsTogether(pending[a].items, l.items, part, keep);
      TakePending(pending, queue, lookup.all, a, map[], l, part + keep, part + keep);
      pending := pending[a := l];
      ForgetPart(a, part, keep);
    }

    /** Forgets part of what is in limbo. */
    method ForgetPart(a: Address, part: map<nat, Tx>, ghost keep: map<nat, Tx>)
      requires Holds(a, part + keep) && PricedOk(multiset{}) && forall n :: n in part ==> n !in keep
      modifies lookup, priced
      ensures Holds(a, keep) && PricedOk(multiset{})
    {
      var rest := part;
      ghost var limbo := part + keep;
      TwoPartsStart(part, keep);
      while rest != map[]
        invariant Holds(a, limbo) && PricedOk(multiset{}) && TwoParts(limbo, rest, keep)
        decreases |rest|
      {
        var n :| n in rest;
        AgreeIsFiled(pending, queue, lookup.all, a, limbo);
        ForgetOne(pending, queue, lookup.all, a, limbo, n);
        Unindex(rest[n].Hash());
        LessPart(limbo, rest, keep, n);
        rest, limbo := rest - {n}, limbo - {n};
      }
      OnePart(limbo, keep);
    }

    /** Demotes every account. */
    method DemoteUnexecutables()
      requires Valid()
      modifies this`pending, this`queue, lookup, priced
      ensures Valid() && DemotedExcept(old(pending), old(queue), pending, queue, state, maxGas, {})
      ensures forall a :: a in old(pending) ==>
                DemotionServed(old(pending), old(queue), pending, queue, Conditions(), a)
    {
      var todo := pending.Keys;
      DemotingStart(pending, queue, state, maxGas);
      while todo != {}
        invariant Valid() && todo <= pending.Keys
        invariant DemotedExcept(old(pending), old(queue), pending, queue, state, maxGas, todo)
      {
        var a :| a in todo;
        DemoteNext(a, todo, old(pending), old(queue));
        todo := todo - {a};
      }
      DemotionServesAll(old(pending), old(queue), old(lookup.all), pending, queue, Conditions());
    }

    method DemoteNext(a: Address, ghost todo: set<Address>, ghost p0: ListMap, ghost q0: ListMap)
      requires Valid() && a in todo && todo <= pending.Keys
      requires DemotedExcept(p0, q0, pending, queue, state, maxGas, todo)
      modifies this`pending, this`queue, lookup, priced
      ensures Valid() && todo - {a} <= pending.Keys
      ensures DemotedExcept(p0, q0, pending, queue, state, maxGas, todo - {a})
    {
      ghost var p, q := pending, queue;
      DemoteAccount(a);
      OnlyLess(p, pending, a, todo);
      DemotingMore(p0, q0, p, q, pending, queue, state, maxGas, todo, a);
    }

    /** Moves the virtual nonce of every account with pending transactions past the highest of them. */
    method ManageNonces()
      requires NoneEmpty(pending)
      modifies this`nonces
      ensures AllManaged(pending, old(nonces), nonces)
    {
      var todo := pending.Keys;
      while todo != {}
        invariant todo <= pending.Keys
        invariant AllManaged(pending - todo, old(nonces), nonces)
      {
        var a :| a in todo;
        assert NonEmpty(pending, a);
        var n := HighestNonce(pending[a].items);
        ManagedMore(pending, old(nonces), nonces, todo, a, n);
        nonces := nonces[a := n + 1];
        todo := todo - {a};
      }
      assert pending - {} == pending;
    }

    /**
     Makes room for a valid transaction in a full pool, or finds it cheaper than
     everything pooled.
     */
    method MakeRoom(tx: Tx, local: bool) returns (ok: bool, ghost drop: multiset<Tx>)
      requires Valid()
      modifies this`pending, this`queue, this`nonces, lookup, priced
      ensures Valid()
      ensures ok <==> !CheapFor(old(Now()), Rules(), tx, local)
      ensures if ok then RoomMade(old(Now()), Now(), Rules(), drop) else Now() == old(Now())
    {
      drop := multiset{};
      DroppedNone(lookup.all);
      PurgedNone(Contents(), state);
      if |lookup.all| < config.globalSlots + config.globalQueue {
        return true, drop;
      }
      var victims;
      ok, victims := PickVictims(tx, local);
      if ok {
        assert victims != [] ==> victims[0] in multiset(victims);
        DropAll(victims);
        drop := multiset(victims);
      }
    }

    /** The price heap's part of `MakeRoom`. */
    method PickVictims(tx: Tx, local: bool) returns (ok: bool, victims: seq<Tx>)
      requires Holds(0, map[]) && PricedOk(multiset{}) && |lookup.all| >= config.globalSlots + config.globalQueue > 0
      modifies priced
      ensures PricedOk(multiset(victims)) && Victims(lookup.all, locals, multiset(victims))
      ensures ok <==> !(!local && tx.sender !in locals && NoneCheaper(lookup.all, tx.price))
      ensures !ok ==> victims == []
      ensures ok ==>
                EnoughDropped(lookup.all, locals, multiset(victims),
                              |lookup.all| + 1 - config.globalSlots - config.globalQueue)
    {
      AgreeIsFiled(pending, queue, lookup.all, 0, map[]);
      if !local {
        var cheap := TooCheap(tx);
        if cheap {
          victims := [];
          assert multiset(victims) == multiset{};
          return false, victims;
        }
      }
      victims := GiveUp(|lookup.all| - (config.globalSlots + config.globalQueue - 1));
      ok := true;
    }

    method TooCheap(tx: Tx) returns (cheap: bool)
      requires PricedOk(multiset{}) && Filed(lookup.all)
      modifies priced
      ensures PricedOk(multiset{})
      ensures cheap <==> && tx.sender !in locals && lookup.all != map[]
                         && forall h :: h in lookup.all ==> lookup.all[h].price >= tx.price
    {
      ghost var items, stales := multiset(priced.items), priced.stales;
      assert items + multiset{} == items;
      cheap := priced.Underpriced(tx, locals);
      SweptCount(items, multiset(priced.items), multiset{}, stales, priced.stales, lookup.all);
    }

    method GiveUp(count: int) returns (victims: seq<Tx>)
      requires PricedOk(multiset{}) && Filed(lookup.all)
      modifies priced
      ensures PricedOk(multiset(victims)) && Victims(lookup.all, locals, multiset(victims))
      ensures count >= 0 ==> EnoughDropped(lookup.all, locals, multiset(victims), count)
    {
      ghost var items, stales := multiset(priced.items), priced.stales;
      assert items + multiset{} == items;
      victims := priced.Discard(count, locals);
      SweptCount(items, multiset(priced.items), multiset(victims), stales, priced.stales, lookup.all);
    }

    /** Puts a valid, unknown transaction into the list it belongs to. */
    method Insert(tx: Tx, local: bool) returns (r: AddResult)
      requires Valid() && tx.Hash() !in lookup.all
      modifies this`pending, this`queue, this`locals, lookup, priced
      ensures Valid()
      ensures r == Decision(old(pending), old(queue), tx, config.priceBump)
      ensures PutIn(old(Now()), Now(), tx, local, r)
      ensures var pm, qm, n := Items(old(pending), tx.sender), Items(old(queue), tx.sender), tx.nonce;
              && (r.ReplaceUnderpriced? <==>
                    if n in pm then !PaysBump(pm[n], tx, config.priceBump)
                    else n in qm && !PaysBump(qm[n], tx, config.priceBump))
              && (r.Accepted? ==> (r.replaced <==> n in pm || n in qm))
      ensures tx.sender in locals <==>
                tx.sender in old(locals) || (local && r.Accepted? && tx.nonce !in Items(old(pending), tx.sender))
    {
      DecisionMeans(pending, queue, tx, config.priceBump);
      LimboOfNobody(pending, queue, lookup.all, 0, tx.sender);
      AgreeIsFiled(pending, queue, lookup.all, 0, map[]);
      if tx.sender in pending && pending[tx.sender].Overlaps(tx) {
        r := InsertPending(tx);
      } else {
        r := InsertQueued(tx);
        if r.Accepted? && local && tx.sender !in locals {
          locals := locals + {tx.sender};
        }
      }
      LimboOfNobody(pending, queue, lookup.all, tx.sender, 0);
    }

    /** Replaces a pending transaction. */
    method InsertPending(tx: Tx) returns (r: AddResult)
      requires Holds(tx.sender, map[]) && PricedOk(multiset{}) && NoneEmpty(pending) && Filed(lookup.all)
      requires Taken(pending, tx.sender, tx.nonce) && tx.Hash() !in lookup.all
      modifies this`pending, lookup, priced
      ensures Holds(tx.sender, map[]) && PricedOk(multiset{}) && NoneEmpty(pending)
      ensures r == if old(pending)[tx.sender].Accepts(tx, config.priceBump) then Accepted(true) else ReplaceUnderpriced
      ensures pending ==
                if r.Accepted? then old(pending)[tx.sender := old(pending)[tx.sender].Added(tx)] else old(pending)
      ensures !r.Accepted? ==> lookup.all == old(lookup.all)
      ensures r.Accepted? ==> Entered(old(lookup.all), lookup.all, tx)
    {
      var a := tx.sender;
      var list := pending[a];
      if !list.Accepts(tx, config.priceBump) {
        return ReplaceUnderpriced;
      }
      ReplacePending(pending, queue, lookup.all, tx);
      EnteredFor(pending, queue, lookup.all, tx, list.items[tx.nonce]);
      OnlyAtUpdate(pending, a, list.Added(tx));
      pending := pending[a := list.Added(tx)];
      assert tx.nonce in pending[a].items;
      NoneEmptyElsewhere(old(pending), pending, a);
      Unindex(list.items[tx.nonce].Hash());
      Index(tx, multiset{});
      r := Accepted(true);
    }

    /** Queues a transaction whose nonce is not pending. */
    method InsertQueued(tx: Tx) returns (r: AddResult)
      requires Holds(tx.sender, map[]) && PricedOk(multiset{}) && NoneEmpty(queue) && Filed(lookup.all)
      requires !Taken(pending, tx.sender, tx.nonce)
      modifies this`queue, lookup, priced
      ensures Holds(tx.sender, map[]) && PricedOk(multiset{}) && NoneEmpty(queue)
      ensures r == if ListOf(old(queue), tx.sender, false).Accepts(tx, config.priceBump)
                   then Accepted(Taken(old(queue), tx.sender, tx.nonce))
                   else ReplaceUnderpriced
      ensures queue ==
                if r.Accepted? then old(queue)[tx.sender := ListOf(old(queue), tx.sender, false).Added(tx)]
                else old(queue)
      ensures !r.Accepted? ==> lookup.all == old(lookup.all)
      ensures r.Accepted? ==> Entered(old(lookup.all), lookup.all, tx)
    {
      var a := tx.sender;
      if Taken(queue, a, tx.nonce) {
        ReplaceQueued(pending, queue, lookup.all, tx);
        EnteredFor(pending, queue, lookup.all, tx, queue[a].items[tx.nonce]);
      } else {
        EnterQueue(pending, queue, lookup.all, tx);
        EnteredPlain(pending, queue, lookup.all, tx);
      }
      var inserted, replaced := EnqueueTx(tx, multiset{});
      if !inserted {
        return ReplaceUnderpriced;
      }
      OnlyAtUpdate(old(queue), a, queue[a]);
      assert tx.nonce in queue[a].items;
      NoneEmptyElsewhere(old(queue), queue, a);
      r := Accepted(replaced);
    }

    /**
     Validates a transaction and takes it in, evicting cheaper ones from a full
     pool; `mid` is the pool after the eviction.
     */
    method Add(tx: Tx, local: bool) returns (r: AddResult, ghost drop: multiset<Tx>, ghost mid: PoolView)
      requires Valid()
      modifies this`pending, this`queue, this`nonces, this`locals, lookup, priced
      ensures Valid() && AddedVia(old(Now()), Now(), Rules(), tx, local, r, drop, mid)
      ensures RunsKept(old(Contents()), Contents(), state)
      ensures r.ReplaceUnderpriced? || r.Accepted? ==>
                var pm, qm, n := Items(mid.l.p, tx.sender), Items(mid.l.q, tx.sender), tx.nonce;
                && (r.ReplaceUnderpriced? <==>
                      if n in pm then !PaysBump(pm[n], tx, config.priceBump)
                      else n in qm && !PaysBump(qm[n], tx, config.priceBump))
                && (r.Accepted? ==> (r.replaced <==> n in pm || n in qm))
    {
      ghost var v := Now();
      drop, mid := multiset{}, Now();
      if tx.Hash() in lookup.all {
        r := Known;
        return;
      }
      var error := Validate(state, maxGas, gasPrice, local || tx.sender in locals, homestead, tx);
      if error.Some? {
        r := Invalid(error.value);
        return;
      }
      r, drop, mid := AddValid(tx, local);
      AddingOneKeepsRuns(v, Now(), Rules(), tx, local, r);
      DecisionMeans(mid.l.p, mid.l.q, tx, config.priceBump);
    }

    /** The part of `Add` after validation. */
    method AddValid(tx: Tx, local: bool) returns (r: AddResult, ghost drop: multiset<Tx>, ghost mid: PoolView)
      requires Valid() && tx.Hash() !in lookup.all && Rules().Verdict(tx, local || tx.sender in locals).None?
      modifies this`pending, this`queue, this`nonces, this`locals, lookup, priced
      ensures Valid() && AddedVia(old(Now()), Now(), Rules(), tx, local, r, drop, mid)
    {
      var ok;
      ok, drop := MakeRoom(tx, local);
      mid, r := Now(), Underpriced;
      if ok {
        StillUnknown(old(Now()), mid, Rules(), drop, tx);
        r := PutNew(tx, local);
      }
      AddedByParts(old(Now()), mid, Now(), Rules(), tx, local, ok, r, drop);
    }

    /** `Insert`, as a step between two views of the pool. */
    method PutNew(tx: Tx, local: bool) returns (r: AddResult)
      requires Valid() && tx.Hash() !in lookup.all
      modifies this`pending, this`queue, this`locals, lookup, priced
      ensures Valid() && r == Decision(old(pending), old(queue), tx, config.priceBump)
      ensures PutIn(old(Now()), Now(), tx, local, r)
    {
      r := Insert(tx, local);
    }

    /** One addition, as a step between two views of the pool. */
    method AddNext(tx: Tx, local: bool) returns (r: AddResult)
      requires Valid()
      modifies this`pending, this`queue, this`nonces, this`locals, lookup, priced
      ensures Valid() && AddedOne(old(Now()), Now(), Rules(), tx, local, r)
    {
      ghost var drop, mid;
      r, drop, mid := Add(tx, local);
    }

    /** Adds one transaction and, if it is new, promotes its sender; `mid` is the pool in between. */
    method AddTx(tx: Tx, local: bool, beats: Address -> int)
      returns (r: AddResult, ghost mid: PoolView, ghost via: Passage)
      requires Valid()
      modifies this`pending, this`queue, this`nonces, this`locals, lookup, priced, mortgage
      ensures Valid() && AddedOne(old(Now()), mid, Rules(), tx, local, r) && mid.l == via.added
      ensures via.accounts == if r == Accepted(false) then {tx.sender} else {}
      ensures PassedOn(via, beats) && (via.accounts == {} ==> Now() == mid) && locals == mid.locals
      ensures BumpDecides(old(Now()), Rules(), tx, local, r)
      ensures Rules() == old(Rules()) && RunsKept(old(Contents()), Contents(), state)
    {
      r := AddNext(tx, local);
      mid := Now();
      via := PromoteDirty(if r == Accepted(false) then {tx.sender} else {}, beats);
      AddedOneDecides(old(Now()), mid, Rules(), tx, local, r);
      AddingKeepsRuns(old(Now()), mid, via, Contents(), Rules(), tx, local, r, Conditions(), mortgage.Full(), config,
                      beats);
    }

    /** Promotes the accounts with something new, if there are any. */
    method PromoteDirty(accounts: set<Address>, beats: Address -> int) returns (ghost via: Passage)
      requires Valid()
      modifies this`pending, this`queue, this`nonces, lookup, priced, mortgage
      ensures Valid() && via.added == old(Contents()) && via.accounts == accounts && Rules() == old(Rules())
      ensures PassedOn(via, beats) && (accounts == {} ==> Now() == old(Now()))
    {
      via := Passage(Contents(), accounts, Contents());
      if accounts != {} {
        ghost var lists := PromoteExecutables(accounts, beats);
        via := via.(promoted := lists);
      }
    }

    /** The lists are what promoting the accounts with something new makes of those after adding. */
    ghost predicate PassedOn(via: Passage, beats: Address -> int)
      reads this, mortgage
    {
      && PassedThrough(via, Contents(), Conditions(), mortgage.Full(), config, beats)
      && (via.accounts != {} ==> WithinLimits())
    }

    /** Adds a batch, one after the other, collecting the senders of what is new in it. */
    method AddBatch(txs: seq<Tx>, local: bool)
      returns (rs: seq<AddResult>, dirty: set<Address>, ghost trace: seq<PoolView>)
      requires Valid()
      modifies this`pending, this`queue, this`nonces, this`locals, lookup, priced
      ensures Valid() && Batch(old(Now()), trace, Rules(), txs, |txs|, local, rs, dirty) && trace[|txs|] == Now()
    {
      rs, dirty, trace := [], {}, [Now()];
      ghost var v, rules := Now(), Rules();
      for i := 0 to |txs|
        invariant Valid() && Batch(v, trace, rules, txs, i, local, rs, dirty) && trace[i] == Now()
      {
        rs, dirty, trace := BatchNext(txs, i, local, rs, dirty, v, trace);
      }
    }

    method BatchNext(txs: seq<Tx>, i: nat, local: bool, rs: seq<AddResult>, dirty: set<Address>,
                     ghost v: PoolView, ghost trace: seq<PoolView>)
      returns (rs': seq<AddResult>, dirty': set<Address>, ghost trace': seq<PoolView>)
      requires Valid() && i < |txs| && Batch(v, trace, Rules(), txs, i, local, rs, dirty) && trace[i] == Now()
      modifies this`pending, this`queue, this`nonces, this`locals, lookup, priced
      ensures Valid() && Batch(v, trace', Rules(), txs, i + 1, local, rs', dirty') && trace'[i + 1] == Now()
    {
      var r := AddNext(txs[i], local);
      BatchMore(v, trace, Rules(), txs, i, local, rs, dirty, r, Now());
      rs', trace' := rs + [r], trace + [Now()];
      dirty' := if r == Accepted(false) then dirty + {txs[i].sender} else dirty;
    }

    /** Adds a batch and promotes the senders of what is new in it. */
    method AddTxs(txs: seq<Tx>, local: bool, beats: Address -> int)
      returns (rs: seq<AddResult>, ghost trace: seq<PoolView>, ghost via: Passage)
      requires Valid()
      modifies this`pending, this`queue, this`nonces, this`locals, lookup, priced, mortgage
      ensures Valid() && Batch(old(Now()), trace, Rules(), txs, |txs|, local, rs, via.accounts)
      ensures trace[|txs|].l == via.added && trace[|txs|].locals == locals && PassedOn(via, beats)
      ensures forall i :: 0 <= i < |txs| ==> BumpDecides(trace[i], Rules(), txs[i], local, rs[i])
      ensures Rules() == old(Rules()) && RunsKept(old(Contents()), Contents(), state)
    {
      var dirty;
      rs, dirty, trace := AddBatch(txs, local);
      via := PromoteDirty(dirty, beats);
      BatchDecides(old(Now()), trace, Rules(), txs, |txs|, local, rs);
      BatchKeepsRuns(old(Now()), trace, via, Contents(), Rules(), txs, |txs|, local, rs, Conditions(), mortgage.Full(),
                     config, beats);
    }

    /** How many transactions are pending and queued; together they are what the hash index counts. */
    method Stats() returns (pendings: nat, queued: nat)
      requires Valid()
      ensures pendings == |Listing(pending)| && queued == |Listing(queue)|
      ensures pendings + queued == |lookup.all|
    {
      pendings := CountAll(pending);
      queued := CountAll(queue);
      AgreeIsOwned(pending, queue, lookup.all);
      ListingCount(pending);
      ListingCount(queue);
      IndexCount(pending, queue, lookup.all);
    }

    /** The limits on what the pool holds. */
    ghost predicate WithinLimits()
      reads this
    {
      && (Total(pending) <= config.globalSlots || WithinSlots(pending, locals, config.accountSlots))
      && (Total(queue) <= config.globalQueue || forall a :: a in queue ==> a in locals)
    }

    /**
     Moves the pool to a new head state, reinjecting the transactions that a
     reorganisation left out of the chain.
     */
    method Reset(st: ChainState, gasLimit: nat, reinject: seq<Tx>, beats: Address -> int)
      returns (ghost trace: ResetTrace)
      requires Valid()
      modifies this, lookup, priced, mortgage
      ensures Valid() && Rules() == old(Rules()).(st := st, maxGas := gasLimit) && locals == old(locals)
      ensures Batch(old(Now()).(l := old(Contents()).(ns := map[])), trace.views, Rules(), reinject, |reinject|, false,
                    trace.rs, trace.via.accounts)
      ensures Reinjected(trace, |reinject|, Conditions(), config, beats)
      ensures Settles(trace, Contents(), Conditions(), mortgage.Full(), config, beats) && WithinLimits()
      ensures forall a :: InOrderAt(trace.managed, trace.promoted, state, a) ==> Contents().RunAt(state, a)
      ensures forall a :: Foreseen(old(Now()), old(state), Contents(), Rules(), config, reinject, a)
      ensures forall a :: Bystood(old(Now()), old(state), trace, Contents(), state, reinject, a)
    {
      ghost var v, st0 := Now(), state;
      MoveTo(st, gasLimit);
      trace := Renew(reinject, beats);
      OrderedRuns(trace, Contents(), Conditions(), mortgage.Full(), config, beats);
      ResetForeseen(v, st0, trace, Contents(), Rules(), Conditions(), mortgage.Full(), config, beats, reinject);
    }

    /** Takes over a head state, forgetting the virtual nonces. */
    method MoveTo(st: ChainState, gasLimit: nat)
      requires Valid()
      modifies this`state, this`nonces, this`maxGas
      ensures Valid() && Rules() == old(Rules()).(st := st, maxGas := gasLimit)
      ensures Now() == old(Now()).(l := old(Contents()).(ns := map[]))
    {
      state, nonces, maxGas := st, map[], gasLimit;
    }

    /** The part of `Reset` under the new head state: reinjection, then settling every account. */
    method Renew(reinject: seq<Tx>, beats: Address -> int) returns (ghost trace: ResetTrace)
      requires Valid()
      modifies this`pending, this`queue, this`nonces, this`locals, lookup, priced, mortgage
      ensures Valid() && WithinLimits() && Rules() == old(Rules()) && locals == old(locals)
      ensures Batch(old(Now()), trace.views, Rules(), reinject, |reinject|, false, trace.rs, trace.via.accounts)
      ensures Reinjected(trace, |reinject|, Conditions(), config, beats)
      ensures Settles(trace, Contents(), Conditions(), mortgage.Full(), config, beats)
    {
      trace := Reinject(reinject, beats);
      ghost var demoted, managed, promoted := Resettle(beats);
      trace := trace.(demoted := demoted, managed := managed, promoted := promoted);
    }

    /** Adds what a reorganisation left out of the chain; `trace` ends with the lists after that. */
    method Reinject(reinject: seq<Tx>, beats: Address -> int) returns (ghost trace: ResetTrace)
      requires Valid()
      modifies this`pending, this`queue, this`nonces, this`locals, lookup, priced, mortgage
      ensures Valid() && trace.added == Contents() && Rules() == old(Rules()) && locals == old(locals)
      ensures Batch(old(Now()), trace.views, Rules(), reinject, |reinject|, false, trace.rs, trace.via.accounts)
      ensures Reinjected(trace, |reinject|, Conditions(), config, beats)
    {
      var rs;
      ghost var views, via;
      rs, views, via := AddTxs(reinject, false, beats);
      trace := ResetTrace(views, rs, via, mortgage.Full(), Contents(), Contents(), Contents(), Contents());
      RemoteBatch(old(Now()), views, Rules(), reinject, |reinject|, rs, |reinject|);
    }

    /** The part of `Reset` after reinjection: demotion, new virtual nonces, then promotion of every queue. */
    method Resettle(beats: Address -> int) returns (ghost demoted: Lists, ghost managed: Lists, ghost promoted: Lists)
      requires Valid()
      modifies this`pending, this`queue, this`nonces, lookup, priced, mortgage
      ensures Valid() && WithinLimits() && Rules() == old(Rules()) && Conditions() == old(Conditions())
      ensures Resettled(old(Contents()), demoted, managed, promoted, Contents(),
                        Conditions(), mortgage.Full(), config, beats)
    {
      demoted, managed := DemoteAndManage();
      promoted := PromoteExecutables(queue.Keys, beats);
    }

    /** Demotes every account and moves the virtual nonces past what is left pending. */
    method DemoteAndManage() returns (ghost demoted: Lists, ghost managed: Lists)
      requires Valid()
      modifies this`pending, this`queue, this`nonces, lookup, priced
      ensures Rules() == old(Rules()) && Conditions() == old(Conditions())
      ensures Valid() && managed == Contents() == demoted.(ns := nonces) && AllResting(managed, state)
      ensures DemotedExcept(old(pending), old(queue), pending, queue, state, maxGas, {})
      ensures AllManaged(pending, old(nonces), nonces)
    {
      DemoteUnexecutables();
      demoted := Contents();
      ManageNonces();
      managed := Contents();
      DemotedAllRest(old(pending), old(queue), managed, lookup.all, old(nonces), Conditions());
    }

    /** The eviction timer: drops what idle remote accounts have queued. */
    method EvictIdle(idle: set<Address>)
      requires Valid()
      modifies this`pending, this`queue, this`nonces, lookup, priced
      ensures Valid() && pending == old(pending) && nonces == old(nonces)
      ensures Evicted(old(queue), queue, idle - locals, {}) && RunsKept(old(Contents()), Contents(), state)
    {
      var todo := queue.Keys;
      while todo != {}
        invariant Valid() && pending == old(pending) && nonces == old(nonces)
        invariant Evicted(old(queue), queue, idle - locals, todo)
      {
        var a :| a in todo;
        ghost var q := queue;
        OnlyAtUpdate(queue, a, EmptyLoose);
        if a !in locals && a in idle {
          EvictQueue(a);
        }
        EvictedMore(old(queue), q, queue, idle - locals, todo, a);
        todo := todo - {a};
      }
      EvictionKeepsRuns(pending, old(queue), queue, nonces, state, idle - locals);
    }

    ghost function Here(): Moment
      reads this, lookup
    {
      Moment(Now(), Rules())
    }

    /** Any sequence of pool operations, in any order; `moments` are the states it leads through. */
    method Run(ops: seq<Op>) returns (ghost moments: seq<Moment>)
      requires Valid()
      modifies this, lookup, priced, mortgage
      ensures Valid() && History(moments, ops, |ops|, config)
      ensures moments[0] == old(Here()) && moments[|ops|] == Here()
      ensures forall a ::
                old(Here()).RunAt(a) && (forall i :: 0 <= i < |ops| ==> Harmless(moments[i], ops[i], config, a)) ==>
                  Here().RunAt(a)
    {
      moments := [Here()];
      for i := 0 to |ops|
        invariant Valid() && History(moments, ops, i, config) && moments[0] == old(Here()) && moments[i] == Here()
      {
        Step(ops[i]);
        HistoryMore(moments, ops, i, config, Here());
        moments := moments + [Here()];
      }
      forall a | moments[0].RunAt(a) && forall i :: 0 <= i < |ops| ==> Harmless(moments[i], ops[i], config, a)
        ensures moments[|ops|].RunAt(a)
      {
        HistoryKeepsRun(moments, ops, |ops|, config, |ops|, a);
      }
    }

    method Step(op: Op)
      requires Valid()
      modifies this, lookup, priced, mortgage
      ensures Valid() && Stepped(old(Here()), op, Here(), config)
    {
      match op
      case AddOne(tx, local, beats) => StepAddOne(tx, local, beats);
      case AddMany(txs, local, beats) => StepAddMany(txs, local, beats);
      case Reprice(price) => StepReprice(price);
      case NewHead(st, gasLimit, pastHomestead, reinject, beats) =>
        StepNewHead(st, gasLimit, pastHomestead, reinject, beats);
      case Tick(idle) => EvictIdle(idle);
      case Recount(counters) => mortgage.Updates(counters);
    }

    // The operations as steps of a history.

    method StepAddOne(tx: Tx, local: bool, beats: Address -> int)
      requires Valid()
      modifies this, lookup, priced, mortgage
      ensures Valid() && Stepped(old(Here()), AddOne(tx, local, beats), Here(), config)
    {
      ghost var r, mid, via := AddTx(tx, local, beats);
      assert AddedTx(old(Here()), Here(), config, tx, local, beats, r, mid, via, mortgage.Full());
    }

    method StepAddMany(txs: seq<Tx>, local: bool, beats: Address -> int)
      requires Valid()
      modifies this, lookup, priced, mortgage
      ensures Valid() && Stepped(old(Here()), AddMany(txs, local, beats), Here(), config)
    {
      ghost var rs, trace, via := AddTxs(txs, local, beats);
      assert AddedTxs(old(Here()), Here(), config, txs, local, beats, rs, trace, via, mortgage.Full());
    }

    method StepReprice(price: nat)
      requires Valid()
      modifies this, lookup, priced, mortgage
      ensures Valid() && Stepped(old(Here()), Reprice(price), Here(), config)
    {
      ghost var drop := SetGasPrice(price);
      assert Repriced(old(Here()), Here(), price, drop);
    }

    method StepNewHead(st: ChainState, gasLimit: nat, pastHomestead: bool, reinject: seq<Tx>, beats: Address -> int)
      requires Valid()
      modifies this, lookup, priced, mortgage
      ensures Valid() && Stepped(old(Here()), NewHead(st, gasLimit, pastHomestead, reinject, beats), Here(), config)
    {
      PassFork(pastHomestead);
      ghost var trace := Reset(st, gasLimit, reinject, beats);
      MovedIsStep(old(Here()), Here(), config, st, gasLimit, pastHomestead, reinject, beats, trace, mortgage.Full());
    }

    /** Once past the Homestead fork, the pool stays there. */
    method PassFork(past: bool)
      requires Valid()
      modifies this`homestead
      ensures Valid() && homestead == (old(homestead) || past)
    {
      homestead := homestead || past;
    }
  }
}
