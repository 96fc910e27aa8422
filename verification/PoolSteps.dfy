/**
 What the operations of the pool do to its state, as relations between the
 values before and after, and the lemmas that carry the pool's invariants
 across them.
 */
module PoolSteps {
  import opened Mortgage
  import opened NonceMaps
  import opened PoolState
  import opened Pricing
  import opened SortedMaps
  import opened Transactions
  import opened TxLists

  /** The virtual nonce of an account: the managed one if it was set, else that of the head state. */
  function NonceOf(nonces: map<Address, nat>, st: ChainState, a: Address): nat {
    if a in nonces then nonces[a] else st.nonceOf(a)
  }

  /**
   The pending nonces are exactly those from the state nonce `sn` up to the
   virtual nonce `pn`, and nothing queued lies below the virtual nonce.
   */
  ghost predicate Run(pm: map<nat, Tx>, qm: map<nat, Tx>, pn: nat, sn: nat) {
    && sn <= pn
    && (forall n :: n in pm <==> sn <= n < pn)
    && (forall n :: n in qm ==> n >= pn)
  }

  ghost predicate AccountRun(p: ListMap, q: ListMap, nonces: map<Address, nat>, st: ChainState, a: Address) {
    Run(Items(p, a), Items(q, a), NonceOf(nonces, st, a), st.nonceOf(a))
  }

  ghost predicate Contiguous(p: ListMap, q: ListMap, nonces: map<Address, nat>, st: ChainState) {
    forall a :: AccountRun(p, q, nonces, st, a)
  }

  /** The two maps agree on account `b`, unless `b` is `a`. */
  ghost predicate SameAt<T(!new)>(m: map<Address, T>, m': map<Address, T>, a: Address, b: Address) {
    b != a ==> (b in m <==> b in m') && (b in m && b in m' ==> m[b] == m'[b])
  }

  /** Only account `a` differs between two maps. */
  ghost predicate OnlyAt<T(!new)>(m: map<Address, T>, m': map<Address, T>, a: Address) {
    forall b :: SameAt(m, m', a, b)
  }

  lemma OnlyAtUpdate<T(!new)>(m: map<Address, T>, a: Address, v: T)
    ensures OnlyAt(m, m[a := v], a) && OnlyAt(m, m - {a}, a) && OnlyAt(m, m, a)
  {
  }

  lemma OnlyAtTwice<T(!new)>(m: map<Address, T>, m': map<Address, T>, m'': map<Address, T>, a: Address)
    requires OnlyAt(m, m', a) && OnlyAt(m', m'', a)
    ensures OnlyAt(m, m'', a)
  {
    forall b ensures SameAt(m, m'', a, b) {
      assert SameAt(m, m', a, b) && SameAt(m', m'', a, b);
    }
  }

  ghost predicate SameEntry<T(!new)>(m: map<Address, T>, m': map<Address, T>, a: Address) {
    (a in m <==> a in m') && (a in m && a in m' ==> m[a] == m'[a])
  }

  /** The lists and virtual nonces of the pool. */
  datatype Lists = Lists(p: ListMap, q: ListMap, ns: map<Address, nat>)
  {
    ghost predicate SameAs(l: Lists, a: Address) {
      SameEntry(p, l.p, a) && SameEntry(q, l.q, a) && SameEntry(ns, l.ns, a)
    }

    ghost predicate RunAt(st: ChainState, a: Address) {
      AccountRun(p, q, ns, st, a)
    }
  }

  ghost predicate NoneEmptyBut(m: ListMap, a: Address) {
    forall b :: b == a || NonEmpty(m, b)
  }

  lemma NoneEmptyStill(m: ListMap, m': ListMap, a: Address)
    requires NoneEmptyBut(m, a) && OnlyAt(m, m', a)
    ensures NoneEmptyBut(m', a)
  {
    forall b ensures b == a || NonEmpty(m', b) {
      assert b == a || NonEmpty(m, b);
      assert SameAt(m, m', a, b);
    }
  }

  lemma NoneEmptyElsewhere(m: ListMap, m': ListMap, a: Address)
    requires NoneEmptyBut(m, a) && OnlyAt(m, m', a) && NonEmpty(m', a)
    ensures NoneEmpty(m')
  {
    forall b ensures NonEmpty(m', b) {
      assert b == a || NonEmpty(m, b);
      assert SameAt(m, m', a, b);
    }
  }

  lemma CoversFewer(entries: multiset<Tx>, all: map<TxHash, Tx>, hash: TxHash)
    requires Covers(entries, all)
    ensures Covers(entries, all - {hash})
  {
  }

  lemma CoversOneMore(entries: multiset<Tx>, entries': multiset<Tx>, all: map<TxHash, Tx>, tx: Tx)
    requires Covers(entries, all) && entries' == entries + multiset{tx}
    ensures Covers(entries', all[tx.Hash() := tx])
  {
  }

  /** The queue of `a` without what is below the state nonce or what the account cannot pay. */
  function Payable(l: AccountList, st: ChainState, a: Address, maxGas: nat): AccountList {
    l.Without(Below(l.items, st.nonceOf(a)).Keys).Filtered(st, st.balanceOf(a), maxGas)
  }

  /** The transactions of `done`, with nonces from `s` up to `c`, were added to the pending list of `a`. */
  ghost predicate PromotedTo(p: ListMap, p': ListMap, nonces: map<Address, nat>, nonces': map<Address, nat>,
                             st: ChainState, a: Address, done: map<nat, Tx>, s: nat, c: nat) {
    && OnlyAt(p, p', a) && OnlyAt(nonces, nonces', a)
    && Items(p', a) == Items(p, a) + done
    && (a in p' <==> a in p || c > s)
    && NonceOf(nonces', st, a) == if c > s then c else NonceOf(nonces, st, a)
  }

  lemma PromotedStart(p: ListMap, nonces: map<Address, nat>, st: ChainState, a: Address, readys: map<nat, Tx>, s: nat)
    requires forall n :: n in readys ==> s <= n
    ensures Split(readys, map[], readys, s)
    ensures PromotedTo(p, p, nonces, nonces, st, a, map[], s, s)
  {
    assert Items(p, a) + map[] == Items(p, a);
  }

  lemma PromotedMore(p: ListMap, p': ListMap, nonces: map<Address, nat>, nonces': map<Address, nat>,
                     st: ChainState, a: Address, done: map<nat, Tx>, tx: Tx, s: nat, c: nat)
    requires PromotedTo(p, p', nonces, nonces', st, a, done, s, c) && s <= c && tx.nonce == c
    ensures PromotedTo(p, p'[a := ListOf(p', a, true).Added(tx)], nonces, nonces'[a := c + 1], st, a,
                       done[c := tx], s, c + 1)
  {
    var l := ListOf(p', a, true).Added(tx);
    OnlyAtUpdate(p', a, l);
    OnlyAtTwice(p, p', p'[a := l], a);
    OnlyAtUpdate(nonces', a, c + 1);
    OnlyAtTwice(nonces, nonces', nonces'[a := c + 1], a);
    assert (Items(p, a) + done)[c := tx] == Items(p, a) + done[c := tx];
  }

  /** `all'` is `all` without the transactions in `drop`. */
  ghost predicate KeptOr(all: map<TxHash, Tx>, all': map<TxHash, Tx>, drop: multiset<Tx>, h: TxHash) {
    && (h in all' <==> h in all && h.tx !in drop)
    && (h in all' ==> h in all && all'[h] == all[h])
  }

  ghost predicate DroppedFrom(all: map<TxHash, Tx>, all': map<TxHash, Tx>, drop: multiset<Tx>) {
    forall h :: KeptOr(all, all', drop, h)
  }

  lemma DroppedOneMore(all: map<TxHash, Tx>, all': map<TxHash, Tx>, drop: multiset<Tx>, tx: Tx)
    requires DroppedFrom(all, all', drop)
    ensures DroppedFrom(all, all' - {tx.Hash()}, drop + multiset{tx})
  {
    var all'', drop' := all' - {tx.Hash()}, drop + multiset{tx};
    forall h ensures KeptOr(all, all'', drop', h) {
      assert KeptOr(all, all', drop, h);
      assert h == tx.Hash() <==> h.tx == tx;
    }
  }

  lemma WholeSlices(s: seq<Tx>)
    ensures multiset(s[0..]) == multiset(s) && multiset(s[..0]) == multiset{}
    ensures multiset(s[|s|..]) == multiset{} && multiset(s[..|s|]) == multiset(s)
  {
    assert s[0..] == s && s[..|s|] == s;
  }

  lemma SliceStep(s: seq<Tx>, i: nat)
    requires i < |s|
    ensures multiset(s[i..]) == multiset(s[i + 1..]) + multiset{s[i]}
    ensures multiset(s[..i + 1]) == multiset(s[..i]) + multiset{s[i]}
  {
    assert s[i..] == [s[i]] + s[i + 1..] && s[..i + 1] == s[..i] + [s[i]];
  }

  lemma DroppedMeans(all: map<TxHash, Tx>, all': map<TxHash, Tx>, drop: multiset<Tx>)
    requires DroppedFrom(all, all', drop)
    ensures forall tx :: Live(all', tx) <==> Live(all, tx) && tx !in drop
  {
    forall tx ensures Live(all', tx) <==> Live(all, tx) && tx !in drop {
      assert KeptOr(all, all', drop, tx.Hash());
    }
  }

  lemma FloorHolds(all: map<TxHash, Tx>, all': map<TxHash, Tx>, drop: multiset<Tx>, locals: set<Address>, price: nat)
    requires DroppedFrom(all, all', drop)
    requires forall tx :: tx in drop ==> Remote(all, locals, tx) && tx.price < price
    requires forall tx :: Remote(all, locals, tx) && tx !in drop ==> tx.price >= price
    ensures forall tx :: Remote(all', locals, tx) ==> tx.price >= price
    ensures forall tx :: Live(all, tx) && !Live(all', tx) ==> tx.sender !in locals && tx.price < price
    ensures forall tx :: Live(all', tx) ==> Live(all, tx)
  {
    DroppedMeans(all, all', drop);
  }

  /** A transaction that left the index needs no entry any more. */
  lemma CoversWithout(entries: multiset<Tx>, extra: multiset<Tx>, extra': multiset<Tx>, tx: Tx, all: map<TxHash, Tx>)
    requires Covers(entries + extra, all) && extra == extra' + multiset{tx} && Filed(all) && tx.Hash() !in all
    ensures Covers(entries + extra', all)
  {
  }

  lemma ListedIsIndexed(p: ListMap, q: ListMap, all: map<TxHash, Tx>, a: Address, n: nat)
    requires Agree(p, q, all, 0, map[]) && Taken(q, a, n)
    ensures var tx := q[a].items[n];
            tx.sender == a && tx.nonce == n && tx.Hash() in all && !Taken(p, a, n)
  {
    assert ListOk(q, false, a) && Apart(p, q, 0, map[], a, n);
    assert Indexed(p, q, all, 0, map[], q[a].items[n]);
  }

  /** `q'` is `q` with the transactions of `txs` that are no longer in limbo added to account `a`. */
  ghost predicate Requeued(q: ListMap, q': ListMap, a: Address, txs: map<nat, Tx>, limbo: map<nat, Tx>) {
    && OnlyAt(q, q', a)
    && (forall n :: n in limbo ==> n in txs && limbo[n] == txs[n])
    && Items(q', a) == Items(q, a) + (txs - limbo.Keys)
    && (a in q' <==> a in q || limbo.Keys != txs.Keys)
  }

  lemma RequeueStart(q: ListMap, a: Address, txs: map<nat, Tx>)
    ensures Requeued(q, q, a, txs, txs)
  {
    assert txs - txs.Keys == map[];
  }

  lemma RequeueMore(q: ListMap, q': ListMap, a: Address, txs: map<nat, Tx>, limbo: map<nat, Tx>, n: nat)
    requires Requeued(q, q', a, txs, limbo) && n in limbo && limbo[n].nonce == n
    ensures Requeued(q, q'[a := ListOf(q', a, false).Added(limbo[n])], a, txs, limbo - {n})
    ensures |limbo - {n}| < |limbo|
  {
    var l := ListOf(q', a, false).Added(limbo[n]);
    OnlyAtUpdate(q', a, l);
    OnlyAtTwice(q, q', q'[a := l], a);
    LessLimbo(Items(q, a), txs, limbo, n);
  }

  lemma RequeuedAll(q: ListMap, q': ListMap, a: Address, txs: map<nat, Tx>)
    requires Requeued(q, q', a, txs, map[]) && NoneEmpty(q)
    ensures OnlyAt(q, q', a) && Items(q', a) == Items(q, a) + txs && NoneEmpty(q')
  {
    assert txs - {} == txs;
    assert NonEmpty(q, a);
    if a in q' && a !in q {
      assert txs.Keys != {};
    }
    NoneEmptyElsewhere(q, q', a);
  }

  lemma LessLimbo(items: map<nat, Tx>, txs: map<nat, Tx>, limbo: map<nat, Tx>, n: nat)
    requires n in limbo && n in txs && limbo[n] == txs[n]
    ensures (items + (txs - limbo.Keys))[n := limbo[n]] == items + (txs - (limbo - {n}).Keys)
    ensures (limbo - {n}).Keys != txs.Keys && |limbo - {n}| < |limbo|
  {
    assert limbo.Keys == (limbo - {n}).Keys + {n};
  }

  /** What removing the transaction of account `a` at nonce `n` does to the lists and the virtual nonces. */
  ghost predicate RemovedFrom(p: ListMap, q: ListMap, nonces: map<Address, nat>, p': ListMap, q': ListMap,
                              nonces': map<Address, nat>, st: ChainState, a: Address, n: nat) {
    && OnlyAt(p, p', a) && OnlyAt(q, q', a) && OnlyAt(nonces, nonces', a)
    && if Taken(p, a, n) then
         && Items(p', a) == Below(Items(p, a), n)
         && Items(q', a) == Items(q, a) + From(Items(p, a), n + 1)
         && NonceOf(nonces', st, a) == if NonceOf(nonces, st, a) > n then n else NonceOf(nonces, st, a)
       else
         p' == p && nonces' == nonces && Items(q', a) == Items(q, a) - {n}
  }

  lemma LimboIsIndexed(p: ListMap, q: ListMap, all: map<TxHash, Tx>, a: Address, limbo: map<nat, Tx>, n: nat)
    requires Agree(p, q, all, a, limbo) && n in limbo
    ensures limbo[n].sender == a && limbo[n].nonce == n
    ensures limbo[n].Hash() in all && all[limbo[n].Hash() := limbo[n]] == all
  {
    assert Indexed(p, q, all, a, limbo, limbo[n]);
  }

  /** A hash in the index names a transaction that is pending or queued under its own nonce. */
  lemma HashNames(p: ListMap, q: ListMap, all: map<TxHash, Tx>, a: Address, hash: TxHash)
    requires Agree(p, q, all, a, map[]) && hash in all
    ensures all[hash] == hash.tx
    ensures Held(p, hash.tx) != Held(q, hash.tx)
    ensures Taken(p, hash.tx.sender, hash.tx.nonce) ==> Held(p, hash.tx)
  {
    var tx := hash.tx;
    assert tx.Hash() == hash;
    assert Indexed(p, q, all, a, map[], tx) && Apart(p, q, a, map[], tx.sender, tx.nonce);
  }

  lemma TakeOnePending(p: ListMap, q: ListMap, all: map<TxHash, Tx>, a: Address, n: nat)
    requires Agree(p, q, all, a, map[]) && Taken(p, a, n)
    ensures Agree(p[a := p[a].Removed(n)], q, all - {p[a].items[n].Hash()}, a, p[a].Orphans(n))
  {
    var l := p[a];
    assert ListOk(p, true, a);
    var part := From(l.items, n);
    assert l.Removed(n).items == l.items - part.Keys;
    WithoutKeepsCaps(l, part.Keys);
    assert l.Removed(n) == l.Without(part.Keys);
    TakePending(p, q, all, a, map[], l.Removed(n), part, part);
    ForgetOne(p[a := l.Removed(n)], q, all, a, part, n);
    assert part - {n} == l.Orphans(n);
  }

  lemma TakeOneQueued(p: ListMap, q: ListMap, all: map<TxHash, Tx>, a: Address, n: nat)
    requires Agree(p, q, all, a, map[]) && Taken(q, a, n)
    ensures Agree(p, q[a := q[a].Removed(n)], all - {q[a].items[n].Hash()}, a, map[])
  {
    var l := q[a];
    assert ListOk(q, false, a);
    var part := map[n := l.items[n]];
    WithoutKeepsCaps(l, {n});
    assert l.Removed(n) == l.Without({n}) && part.Keys == {n};
    TakeQueued(p, q, all, a, map[], l.Removed(n), part, part);
    ForgetOne(p, q[a := l.Removed(n)], all, a, part, n);
    assert part - {n} == map[];
  }

  /** Counting a removal keeps the cover: the heap is untouched or rebuilt from the whole index. */
  lemma StillCovered(before: multiset<Tx>, after: multiset<Tx>, extra: multiset<Tx>, all: map<TxHash, Tx>)
    requires Covers(before + extra, all)
    requires after == before || after == multiset(all.Values)
    ensures Covers(after + extra, all)
  {
    if after == multiset(all.Values) {
      forall h | h in all ensures all[h] in after + extra {
        assert all[h] in all.Values;
      }
    }
  }

  // ----- promoting an account's queue -----

  /** The scan for the least nonce. */
  method LeastNonce(m: map<nat, Tx>) returns (least: nat)
    requires m != map[]
    ensures IsLeast(m, least)
  {
    least :| least in m;
    var todo := m.Keys - {least};
    while todo != {}
      invariant least in m && todo <= m.Keys && forall n :: n in m && n !in todo ==> least <= n
    {
      var n :| n in todo;
      least := if n < least then n else least;
      todo := todo - {n};
    }
  }

  /** The nonces that `Ready(start)` takes: those from `s` up to `e`. */
  method ReadyRange(m: map<nat, Tx>, start: nat) returns (s: nat, e: nat)
    ensures s <= e && IsReadyEnd(m, start, e)
    ensures forall n :: n in Below(m, e) <==> s <= n < e
  {
    if m == map[] {
      return 0, 0;
    }
    s := LeastNonce(m);
    if s > start {
      return 0, 0;
    }
    e := s;
    while e in m
      invariant Consecutive(m, s, e)
      decreases |From(m, e)|
    {
      ConsecutiveMore(m, s, e);
      assert From(m, e).Keys == From(m, e + 1).Keys + {e};
      e := e + 1;
    }
  }

  /** The longest prefix of the queue that an account may keep. */
  function Capped(m: map<nat, Tx>, local: bool, limit: nat): map<nat, Tx> {
    if local then m else Lowest(m, limit)
  }

  /**
   `kept` is what an account may keep queued of `left`: a local account all of it,
   another at most `limit`, and if something was dropped then just as many, all of
   them below what was dropped.
   */
  ghost predicate QueueKept(left: map<nat, Tx>, kept: map<nat, Tx>, local: bool, limit: nat) {
    && (forall n :: n in kept ==> n in left && kept[n] == left[n])
    && (local ==> kept == left)
    && (!local ==> |kept| <= limit)
    && (forall d :: d in left && d !in kept ==> |kept| == limit && forall n :: n in kept ==> n < d)
  }

  lemma CappedIsKept(m: map<nat, Tx>, local: bool, limit: nat)
    ensures QueueKept(m, Capped(m, local, limit), local, limit)
  {
    if !local {
      LowestCount(m, limit);
      LowestLieBelow(m, limit);
      LowestIsPart(m, limit);
      if |m| <= limit {
        assert Lowest(m, limit).Keys <= m.Keys;
        SameSize(Lowest(m, limit).Keys, m.Keys);
      }
    }
  }

  lemma SameSize(s: set<nat>, u: set<nat>)
    requires s <= u && |s| == |u|
    ensures s == u
  {
    assert u == s + (u - s);
  }

  /**
   What promoting account `a` does, where `items` is what its queue held that
   is still payable: the nonces of `items` below `c` become pending, the rest
   stays queued up to the limit.
   */
  ghost predicate AccountPromoted(p: ListMap, q: ListMap, nonces: map<Address, nat>, p': ListMap, q': ListMap,
                                  nonces': map<Address, nat>, st: ChainState, a: Address,
                                  items: map<nat, Tx>, e: nat, c: nat, local: bool, limit: nat) {
    && OnlyAt(p, p', a) && OnlyAt(q, q', a) && OnlyAt(nonces, nonces', a)
    && IsReadyEnd(items, NonceOf(nonces, st, a), e) && c <= e
    && Items(p', a) == Items(p, a) + Below(items, c)
    && Items(q', a) == Capped(From(items, c), local, limit)
    && NonceOf(nonces', st, a) == if Below(items, c) != map[] then c else NonceOf(nonces, st, a)
  }

  lemma PromotedNonEmpty(p: ListMap, p': ListMap, nonces: map<Address, nat>, nonces': map<Address, nat>,
                         st: ChainState, a: Address, done: map<nat, Tx>, s: nat, c: nat)
    requires PromotedTo(p, p', nonces, nonces', st, a, done, s, c) && NoneEmpty(p)
    requires s <= c && forall n :: n in done <==> s <= n < c
    ensures NoneEmpty(p') && (done != map[] <==> c > s)
  {
    assert NonEmpty(p, a);
    if c > s {
      assert s in done && s in Items(p', a);
    } else {
      assert forall n :: n !in done;
    }
    NoneEmptyElsewhere(p, p', a);
  }

  /** What was taken for promotion and not promoted rejoins the rest of the queue. */
  lemma RejoinedQueue(items: map<nat, Tx>, e: nat, c: nat)
    requires c <= e
    ensures (items - Below(items, e).Keys) + From(Below(items, e), c) == From(items, c)
    ensures Below(Below(items, e), c) == Below(items, c)
  {
  }

  /** Taking the executable run out, promoting it up to `c` and requeueing the rest, put together. */
  lemma RunPromoted(p: ListMap, q: ListMap, nonces: map<Address, nat>, p': ListMap, q': ListMap,
                    nonces': map<Address, nat>, st: ChainState, a: Address, l: AccountList, done: map<nat, Tx>,
                    rest: map<nat, Tx>, items: map<nat, Tx>, s: nat, e: nat, c: nat)
    requires s <= c <= e && NoneEmpty(p) && IsReadyEnd(items, NonceOf(nonces, st, a), e)
    requires PromotedTo(p, p', nonces, nonces', st, a, done, s, c) && forall n :: n in done <==> s <= n < c
    requires Requeued(q[a := l], q', a, rest, map[])
    requires done == Below(items, c) && l.items + rest == From(items, c)
    ensures AccountPromoted(p, q, nonces, p', q', nonces', st, a, items, e, c, true, 0)
    ensures a in q' && NoneEmpty(p')
  {
    assert rest - {} == rest;
    OnlyAtUpdate(q, a, l);
    OnlyAtTwice(q, q[a := l], q', a);
    PromotedNonEmpty(p, p', nonces, nonces', st, a, done, s, c);
  }

  /** The executable part of a queue was taken out, promoted up to `c`, and put back from there. */
  lemma TakenPromoted(p: ListMap, q: ListMap, nonces: map<Address, nat>, p': ListMap, q': ListMap,
                      nonces': map<Address, nat>, st: ChainState, a: Address, readys: map<nat, Tx>, s: nat, e: nat,
                      c: nat)
    requires a in q && readys == Below(q[a].items, e) && s <= c <= e && NoneEmpty(p)
    requires IsReadyEnd(q[a].items, NonceOf(nonces, st, a), e) && forall n :: n in readys <==> s <= n < e
    requires PromotedTo(p, p', nonces, nonces', st, a, Below(readys, c), s, c)
    requires Requeued(q[a := q[a].Without(readys.Keys)], q', a, From(readys, c), map[])
    ensures AccountPromoted(p, q, nonces, p', q', nonces', st, a, q[a].items, e, c, true, 0)
    ensures a in q' && NoneEmpty(p') && (c < e ==> c in q[a].items && q[a].items[c] == readys[c])
  {
    var items := q[a].items;
    RejoinedQueue(items, e, c);
    ReadyParts(items, s, e, c);
    RunPromoted(p, q, nonces, p', q', nonces', st, a, q[a].Without(readys.Keys),
                Below(readys, c), From(readys, c), items, s, e, c);
  }

  /** Pruning before and cutting after the promotion. */
  lemma PrunedAndSettled(p: ListMap, q: ListMap, nonces: map<Address, nat>, q1: ListMap, p': ListMap, q2: ListMap,
                         nonces': map<Address, nat>, q': ListMap, st: ChainState, a: Address,
                         items: map<nat, Tx>, e: nat, c: nat, local: bool, limit: nat)
    requires OnlyAt(q, q1, a) && OnlyAt(q2, q', a)
    requires AccountPromoted(p, q1, nonces, p', q2, nonces', st, a, items, e, c, true, 0)
    requires Items(q', a) == Capped(Items(q2, a), local, limit)
    ensures AccountPromoted(p, q, nonces, p', q', nonces', st, a, items, e, c, local, limit)
  {
    OnlyAtTwice(q, q1, q2, a);
    OnlyAtTwice(q, q2, q', a);
  }

  lemma PayableIsPart(l: AccountList, st: ChainState, a: Address, maxGas: nat)
    ensures forall n :: n in Payable(l, st, a, maxGas).items ==> n in l.items
  {
  }

  /** A list with gaps allowed loses only what it drops. */
  lemma LooseFilter(l: AccountList, st: ChainState, costLimit: nat, gasLimit: nat)
    requires !l.strict
    ensures l.Filtered(st, costLimit, gasLimit).items == l.items - l.Dropped(st, costLimit, gasLimit).Keys
    ensures !l.Filtered(st, costLimit, gasLimit).strict
  {
    assert l.items - {} == l.items;
  }

  lemma ReadyParts(items: map<nat, Tx>, s: nat, e: nat, c: nat)
    requires s <= c <= e && forall n :: n in Below(items, e) <==> s <= n < e
    ensures forall n :: n in Below(Below(items, e), c) <==> s <= n < c
    ensures c < e ==> c in items && Below(items, e)[c] == items[c]
  {
    assert c < e ==> c in Below(items, e);
  }

  lemma LowestIsPart(m: map<nat, Tx>, k: nat)
    ensures Lowest(m, k) == m - (m - Lowest(m, k).Keys).Keys
    ensures forall n :: n in Lowest(m, k) ==> n in m && Lowest(m, k)[n] == m[n]
  {
  }

  /** Promotion extends a run by what it promotes. */
  lemma PromotionKeepsRun(pm: map<nat, Tx>, qm: map<nat, Tx>, items: map<nat, Tx>, pn: nat, sn: nat, e: nat, c: nat,
                          local: bool, limit: nat)
    requires Run(pm, qm, pn, sn) && forall n :: n in items ==> n in qm
    requires IsReadyEnd(items, pn, e) && c <= e
    ensures Run(pm + Below(items, c), Capped(From(items, c), local, limit),
                if Below(items, c) != map[] then c else pn, sn)
  {
    var done := Below(items, c);
    if done != map[] {
      var n0 :| n0 in done;
      assert exists n: nat :: IsLeast(items, n) && n <= pn;
      var n: nat :| IsLeast(items, n) && IsRunEnd(items, n, e);
      var m: nat :| IsLeast(items, m) && m <= pn;
      assert n == m == pn;
      assert forall k :: k in done <==> pn <= k < c;
    }
  }

  // ----- a new head state -----

  lemma PayableIsFresh(l: AccountList, st: ChainState, a: Address, maxGas: nat)
    ensures forall n :: n in Payable(l, st, a, maxGas).items ==> n in From(l.items, st.nonceOf(a))
  {
  }

  // ----- demotion -----

  /** What a pending list loses to the queue for want of a predecessor when it is pruned. */
  function Unsupported(l: AccountList, st: ChainState, a: Address, maxGas: nat): map<nat, Tx> {
    l.Without(Below(l.items, st.nonceOf(a)).Keys).Invalids(st, st.balanceOf(a), maxGas)
  }

  /** What demoting account `a` does to its lists. */
  ghost predicate Demoted(p: ListMap, q: ListMap, p': ListMap, q': ListMap, st: ChainState, a: Address, maxGas: nat)
    requires a in p
  {
    OnlyAt(p, p', a) && OnlyAt(q, q', a) && DemotedItems(p[a], Items(q, a), Items(p', a), Items(q', a), st, a, maxGas)
  }

  /** The payable part of a pending list stays, unless its first nonce is missing; the rest is dropped or queued. */
  ghost predicate DemotedItems(l: AccountList, qm: map<nat, Tx>, pm': map<nat, Tx>, qm': map<nat, Tx>,
                               st: ChainState, a: Address, maxGas: nat) {
    var kept, lost := Payable(l, st, a, maxGas).items, Unsupported(l, st, a, maxGas);
    if kept != map[] && st.nonceOf(a) !in kept then pm' == map[] && qm' == qm + lost + kept
    else pm' == kept && qm' == qm + lost
  }

  /** `m` consists of three parts. */
  ghost predicate Partitioned(m: map<nat, Tx>, rest: map<nat, Tx>, part: map<nat, Tx>, keep: map<nat, Tx>) {
    && (forall n :: n in part ==> n in m && part[n] == m[n] && n !in keep)
    && (forall n :: n in keep ==> n in m && keep[n] == m[n])
    && rest == m - part.Keys - keep.Keys
  }

  lemma FilterParts(l: AccountList, st: ChainState, costLimit: nat, gasLimit: nat)
    ensures Partitioned(l.items, l.Filtered(st, costLimit, gasLimit).items, l.Dropped(st, costLimit, gasLimit),
                        l.Invalids(st, costLimit, gasLimit))
  {
  }

  lemma PartsTogether(m: map<nat, Tx>, rest: map<nat, Tx>, part: map<nat, Tx>, keep: map<nat, Tx>)
    requires Partitioned(m, rest, part, keep)
    ensures forall n :: n in part + keep ==> n in m && (part + keep)[n] == m[n]
    ensures rest == m - (part + keep).Keys
    ensures map[] + (part + keep) == part + keep
  {
  }

  /** `limbo` is the disjoint union of `rest` and `keep`. */
  ghost predicate TwoParts(limbo: map<nat, Tx>, rest: map<nat, Tx>, keep: map<nat, Tx>) {
    && (forall n :: n in limbo ==> n in rest || n in keep)
    && (forall n :: n in rest ==> n in limbo && limbo[n] == rest[n] && n !in keep)
    && (forall n :: n in keep ==> n in limbo && limbo[n] == keep[n])
  }

  lemma LessPart(limbo: map<nat, Tx>, rest: map<nat, Tx>, keep: map<nat, Tx>, n: nat)
    requires TwoParts(limbo, rest, keep) && n in rest
    ensures TwoParts(limbo - {n}, rest - {n}, keep) && |rest - {n}| < |rest|
  {
    assert rest.Keys == (rest - {n}).Keys + {n};
  }

  lemma TwoPartsStart(part: map<nat, Tx>, keep: map<nat, Tx>)
    requires forall n :: n in part ==> n !in keep
    ensures TwoParts(part + keep, part, keep)
  {
  }

  lemma OnePart(limbo: map<nat, Tx>, keep: map<nat, Tx>)
    requires TwoParts(limbo, map[], keep)
    ensures limbo == keep
  {
  }

  /** Pruning a pending run leaves a lower part of it; what goes back to the queue lies above that. */
  lemma PrunedRun(l: AccountList, st: ChainState, a: Address, maxGas: nat) returns (t: nat)
    requires l.strict
    ensures forall n :: n in Payable(l, st, a, maxGas).items <==> n in l.items && st.nonceOf(a) <= n < t
    ensures forall n :: n in Unsupported(l, st, a, maxGas) ==> n in l.items && n >= st.nonceOf(a) && n >= t
  {
    var l1 := l.Without(Below(l.items, st.nonceOf(a)).Keys);
    var cost := st.balanceOf(a);
    if l1.Skips(cost, maxGas) {
      t := Bound(l1.items.Keys);
      assert Payable(l, st, a, maxGas) == l1;
      assert l1.Invalids(st, cost, maxGas) == map[];
    } else {
      var dropped := l1.Dropped(st, cost, maxGas);
      FilteredIsCut(l1.items, dropped);
      t :| l1.items - dropped.Keys - Above(l1.items - dropped.Keys, dropped).Keys == Below(l1.items, t);
      assert l1.Filtered(st, cost, maxGas).items == Below(l1.items, t);
      assert forall n :: n in l1.Invalids(st, cost, maxGas) ==> n in l1.items && n !in Below(l1.items, t);
    }
  }

  /** The virtual nonce of `a` follows its highest pending nonce, or is as before if nothing is pending. */
  ghost predicate Managed(p: ListMap, prev: map<Address, nat>, nonces: map<Address, nat>, a: Address) {
    if a in p then
      && a in nonces && nonces[a] > 0 && nonces[a] - 1 in p[a].items
      && (forall n :: n in p[a].items ==> n < nonces[a])
    else
      (a in nonces <==> a in prev) && (a in nonces && a in prev ==> nonces[a] == prev[a])
  }

  ghost predicate AllManaged(p: ListMap, prev: map<Address, nat>, nonces: map<Address, nat>) {
    forall a :: Managed(p, prev, nonces, a)
  }

  // ----- adding -----

  lemma DroppedNone(all: map<TxHash, Tx>)
    ensures DroppedFrom(all, all, multiset{})
  {
    forall h ensures KeptOr(all, all, multiset{}, h) {
    }
  }

  /** One more account's virtual nonce is set. */
  lemma ManagedMore(p: ListMap, prev: map<Address, nat>, nonces: map<Address, nat>, todo: set<Address>, x: Address,
                    n: nat)
    requires AllManaged(p - todo, prev, nonces) && x in todo && x in p
    requires n in p[x].items && forall k :: k in p[x].items ==> k <= n
    ensures AllManaged(p - (todo - {x}), prev, nonces[x := n + 1])
  {
    var p1, p2, nonces' := p - todo, p - (todo - {x}), nonces[x := n + 1];
    forall a ensures Managed(p2, prev, nonces', a) {
      assert Managed(p1, prev, nonces, a);
    }
  }

  lemma OnlyLess(p: ListMap, p': ListMap, a: Address, todo: set<Address>)
    requires OnlyAt(p, p', a) && todo <= p.Keys
    ensures todo - {a} <= p'.Keys
  {
    forall b | b in todo - {a} ensures b in p' {
      assert SameAt(p, p', a, b);
    }
  }

  /** The victims of a full pool are remote and no dearer than the remote transactions it keeps. */
  ghost predicate Victims(all: map<TxHash, Tx>, locals: set<Address>, drop: multiset<Tx>) {
    && (forall v :: v in drop ==> Remote(all, locals, v))
    && (forall v, t :: v in drop && t !in drop && Remote(all, locals, t) ==> PriceLe(v, t))
  }

  /** The queue of `a` is gone if `a` is to be evicted and is not still to be visited; otherwise it is as before. */
  ghost predicate EvictedUnless(q: ListMap, q': ListMap, idle: set<Address>, todo: set<Address>, a: Address) {
    && (a in q' <==> a in q && !(a in idle && a !in todo))
    && (a in q && a in q' ==> q'[a] == q[a])
  }

  ghost predicate Evicted(q: ListMap, q': ListMap, idle: set<Address>, todo: set<Address>) {
    todo <= q.Keys && forall a :: EvictedUnless(q, q', idle, todo, a)
  }

  lemma EvictedMore(q: ListMap, q1: ListMap, q': ListMap, idle: set<Address>, todo: set<Address>, x: Address)
    requires Evicted(q, q1, idle, todo) && x in todo && OnlyAt(q1, q', x)
    requires if x in idle then x !in q' else q' == q1
    ensures Evicted(q, q', idle, todo - {x})
  {
    var todo' := todo - {x};
    forall a ensures EvictedUnless(q, q', idle, todo', a) {
      assert EvictedUnless(q, q1, idle, todo, a) && SameAt(q1, q', x, a);
    }
  }

  // ----- dropping many -----

  function Undropped(m: map<nat, Tx>, drop: multiset<Tx>): map<nat, Tx> {
    map n | n in m && m[n] !in drop :: m[n]
  }

  /**
   What is left of an account when the transactions of `drop` were removed from the
   pool.  Its lowest pending victim is at `t`, or `t` is above all of its pending
   nonces: the pending list is cut there, what was above goes back to the queue
   unless it is a victim too, and the virtual nonce comes down to `t`.
   */
  ghost predicate PurgedTo(pm: map<nat, Tx>, qm: map<nat, Tx>, pn: nat, pm': map<nat, Tx>, qm': map<nat, Tx>, pn': nat,
                            drop: multiset<Tx>, t: nat) {
    && (forall n :: n in pm && n < t ==> pm[n] !in drop)
    && (if t in pm then pm[t] in drop else forall n :: n in pm ==> n < t)
    && pm' == Below(pm, t) && qm' == Undropped(qm + From(pm, t), drop)
    && pn' == if t in pm && pn > t then t else pn
  }

  ghost predicate PurgedAt(l: Lists, l': Lists, drop: multiset<Tx>, st: ChainState, a: Address) {
    exists t: nat :: PurgedTo(Items(l.p, a), Items(l.q, a), NonceOf(l.ns, st, a),
                               Items(l'.p, a), Items(l'.q, a), NonceOf(l'.ns, st, a), drop, t)
  }

  ghost predicate AllPurged(l: Lists, l': Lists, drop: multiset<Tx>, st: ChainState) {
    forall a :: PurgedAt(l, l', drop, st, a)
  }

  lemma PurgedNone(l: Lists, st: ChainState)
    ensures AllPurged(l, l, multiset{}, st)
  {
    forall a ensures PurgedAt(l, l, multiset{}, st, a) {
      var pm, qm, pn := Items(l.p, a), Items(l.q, a), NonceOf(l.ns, st, a);
      var t := Bound(pm.Keys);
      assert Below(pm, t) == pm && Undropped(qm + From(pm, t), multiset{}) == qm;
      assert PurgedTo(pm, qm, pn, pm, qm, pn, multiset{}, t);
    }
  }

  /** What is above a removed pending transaction goes back to the queue, unless it was dropped before. */
  lemma PurgedBack(pm: map<nat, Tx>, qm: map<nat, Tx>, drop: multiset<Tx>, t: nat, v: Tx)
    requires (forall n :: n in pm && n < t ==> pm[n] !in drop) && v.nonce !in qm
    requires (forall n :: n in pm ==> n !in qm && pm[n].nonce == n) && (forall n :: n in qm ==> qm[n].nonce == n)
    requires v.nonce in pm && v.nonce < t && pm[v.nonce] == v
    ensures Undropped(qm + From(pm, t), drop) + From(Below(pm, t), v.nonce + 1)
            == Undropped(qm + From(pm, v.nonce), drop + multiset{v})
  {
    var m := Undropped(qm + From(pm, t), drop) + From(Below(pm, t), v.nonce + 1);
    var m' := Undropped(qm + From(pm, v.nonce), drop + multiset{v});
    forall k ensures SameAtNonce(m, m', k) {
      PurgedBackAt(pm, qm, drop, t, v, k, m, m');
    }
    SameEverywhere(m, m');
  }

  ghost predicate SameAtNonce(m: map<nat, Tx>, m': map<nat, Tx>, k: nat) {
    (k in m <==> k in m') && (k in m ==> k in m' && m[k] == m'[k])
  }

  lemma SameEverywhere(m: map<nat, Tx>, m': map<nat, Tx>)
    requires forall k :: SameAtNonce(m, m', k)
    ensures m == m'
  {
    assert forall k :: k in m ==> SameAtNonce(m, m', k);
    assert forall k :: k in m' ==> SameAtNonce(m, m', k);
  }

  lemma PurgedBackAt(pm: map<nat, Tx>, qm: map<nat, Tx>, drop: multiset<Tx>, t: nat, v: Tx, k: nat,
                     m: map<nat, Tx>, m': map<nat, Tx>)
    requires (k in pm && k < t ==> pm[k] !in drop) && v.nonce !in qm
    requires (k in pm ==> k !in qm && pm[k].nonce == k) && (k in qm ==> qm[k].nonce == k)
    requires v.nonce in pm && v.nonce < t && pm[v.nonce] == v
    requires m == Undropped(qm + From(pm, t), drop) + From(Below(pm, t), v.nonce + 1)
    requires m' == Undropped(qm + From(pm, v.nonce), drop + multiset{v})
    ensures SameAtNonce(m, m', k)
  {
    if k in pm && k < t {
      assert pm[k] in multiset{v} <==> k == v.nonce;
    }
  }

  /** The lowest of what is left pending is removed. */
  lemma PurgedPending(pm: map<nat, Tx>, qm: map<nat, Tx>, pn: nat, pm1: map<nat, Tx>, qm1: map<nat, Tx>, pn1: nat,
                      drop: multiset<Tx>, t: nat, v: Tx)
    requires PurgedTo(pm, qm, pn, pm1, qm1, pn1, drop, t) && (forall n :: n in pm ==> n !in qm)
    requires (forall n :: n in pm ==> pm[n].nonce == n) && (forall n :: n in qm ==> qm[n].nonce == n)
    requires v.nonce in pm1 && pm1[v.nonce] == v
    ensures PurgedTo(pm, qm, pn, Below(pm1, v.nonce), qm1 + From(pm1, v.nonce + 1),
                     if pn1 > v.nonce then v.nonce else pn1, drop + multiset{v}, v.nonce)
  {
    PurgedBack(pm, qm, drop, t, v);
    assert Below(pm1, v.nonce) == Below(pm, v.nonce);
  }

  /** A queued transaction is removed. */
  lemma PurgedQueued(pm: map<nat, Tx>, qm: map<nat, Tx>, pn: nat, pm1: map<nat, Tx>, qm1: map<nat, Tx>, pn1: nat,
                     drop: multiset<Tx>, t: nat, v: Tx)
    requires PurgedTo(pm, qm, pn, pm1, qm1, pn1, drop, t)
    requires (forall n :: n in pm ==> pm[n].nonce == n) && (forall n :: n in qm ==> qm[n].nonce == n)
    requires v.nonce in qm1 && qm1[v.nonce] == v && v.nonce !in pm1
    ensures PurgedTo(pm, qm, pn, pm1, qm1 - {v.nonce}, pn1, drop + multiset{v}, t)
  {
    var m := qm + From(pm, t);
    forall k ensures k in Undropped(m, drop + multiset{v}) <==> k in qm1 && k != v.nonce {
      assert k in m ==> m[k].nonce == k;
    }
    assert qm1 - {v.nonce} == Undropped(m, drop + multiset{v});
  }

  /** A transaction that the account does not hold any more leaves it alone. */
  lemma PurgedOther(pm: map<nat, Tx>, qm: map<nat, Tx>, pn: nat, pm1: map<nat, Tx>, qm1: map<nat, Tx>, pn1: nat,
                    drop: multiset<Tx>, t: nat, v: Tx)
    requires PurgedTo(pm, qm, pn, pm1, qm1, pn1, drop, t)
    requires v in drop || ((forall n :: n in pm ==> pm[n] != v) && forall n :: n in qm ==> qm[n] != v)
    ensures PurgedTo(pm, qm, pn, pm1, qm1, pn1, drop + multiset{v}, t)
  {
    assert Undropped(qm + From(pm, t), drop) == Undropped(qm + From(pm, t), drop + multiset{v});
  }

  /** One more of the transactions to be dropped is removed, if it is still there. */
  lemma PurgedMore(l: Lists, all: map<TxHash, Tx>, l1: Lists, all1: map<TxHash, Tx>, l2: Lists, st: ChainState,
                   drop: multiset<Tx>, v: Tx)
    requires Agree(l.p, l.q, all, 0, map[]) && Agree(l1.p, l1.q, all1, 0, map[])
    requires AllPurged(l, l1, drop, st) && DroppedFrom(all, all1, drop)
    requires if v.Hash() in all1 then RemovedFrom(l1.p, l1.q, l1.ns, l2.p, l2.q, l2.ns, st, v.sender, v.nonce)
             else l2 == l1
    ensures AllPurged(l, l2, drop + multiset{v}, st)
  {
    forall a ensures PurgedAt(l, l2, drop + multiset{v}, st, a) {
      assert PurgedAt(l, l1, drop, st, a);
      if v.Hash() in all1 && v.sender == a {
        PurgedHere(l, all, l1, all1, l2, st, drop, v);
      } else {
        PurgedElsewhere(l, all, l1, all1, l2, st, drop, v, a);
      }
    }
  }

  lemma OwnApart(p: ListMap, q: ListMap, all: map<TxHash, Tx>, a: Address)
    requires Agree(p, q, all, 0, map[])
    ensures Owned(a, Items(p, a)) && Owned(a, Items(q, a))
    ensures forall n :: n in Items(p, a) ==> n !in Items(q, a)
  {
    assert ListOk(p, true, a) && ListOk(q, false, a);
    forall n | n in Items(p, a) ensures n !in Items(q, a) {
      assert Apart(p, q, 0, map[], a, n);
    }
  }

  lemma PurgedHere(l: Lists, all: map<TxHash, Tx>, l1: Lists, all1: map<TxHash, Tx>, l2: Lists, st: ChainState,
                   drop: multiset<Tx>, v: Tx)
    requires Agree(l.p, l.q, all, 0, map[]) && Agree(l1.p, l1.q, all1, 0, map[])
    requires PurgedAt(l, l1, drop, st, v.sender) && v.Hash() in all1
    requires RemovedFrom(l1.p, l1.q, l1.ns, l2.p, l2.q, l2.ns, st, v.sender, v.nonce)
    ensures PurgedAt(l, l2, drop + multiset{v}, st, v.sender)
  {
    OwnApart(l.p, l.q, all, v.sender);
    HashNames(l1.p, l1.q, all1, 0, v.Hash());
    PurgedHeld(l, l1, l2, st, drop, v);
  }

  lemma PurgedHeld(l: Lists, l1: Lists, l2: Lists, st: ChainState, drop: multiset<Tx>, v: Tx)
    requires Owned(v.sender, Items(l.p, v.sender)) && Owned(v.sender, Items(l.q, v.sender))
    requires forall n :: n in Items(l.p, v.sender) ==> n !in Items(l.q, v.sender)
    requires PurgedAt(l, l1, drop, st, v.sender)
    requires if Taken(l1.p, v.sender, v.nonce) then Held(l1.p, v) else Held(l1.q, v)
    requires RemovedFrom(l1.p, l1.q, l1.ns, l2.p, l2.q, l2.ns, st, v.sender, v.nonce)
    ensures PurgedAt(l, l2, drop + multiset{v}, st, v.sender)
  {
    var a := v.sender;
    var pm, qm, pn := Items(l.p, a), Items(l.q, a), NonceOf(l.ns, st, a);
    var pm1, qm1, pn1 := Items(l1.p, a), Items(l1.q, a), NonceOf(l1.ns, st, a);
    var t: nat :| PurgedTo(pm, qm, pn, pm1, qm1, pn1, drop, t);
    if Taken(l1.p, a, v.nonce) {
      PurgedPending(pm, qm, pn, pm1, qm1, pn1, drop, t, v);
    } else {
      PurgedQueued(pm, qm, pn, pm1, qm1, pn1, drop, t, v);
    }
  }

  lemma DroppedOrNotHeld(l: Lists, all: map<TxHash, Tx>, all1: map<TxHash, Tx>, drop: multiset<Tx>, v: Tx, a: Address)
    requires Agree(l.p, l.q, all, 0, map[]) && DroppedFrom(all, all1, drop)
    requires v.sender != a || v.Hash() !in all1
    ensures v in drop || ((forall n :: n in Items(l.p, a) ==> Items(l.p, a)[n] != v)
                          && forall n :: n in Items(l.q, a) ==> Items(l.q, a)[n] != v)
  {
    OwnApart(l.p, l.q, all, a);
    assert KeptOr(all, all1, drop, v.Hash()) && Indexed(l.p, l.q, all, 0, map[], v);
  }

  lemma PurgedElsewhere(l: Lists, all: map<TxHash, Tx>, l1: Lists, all1: map<TxHash, Tx>, l2: Lists, st: ChainState,
                        drop: multiset<Tx>, v: Tx, a: Address)
    requires Agree(l.p, l.q, all, 0, map[])
    requires PurgedAt(l, l1, drop, st, a) && DroppedFrom(all, all1, drop)
    requires v.sender != a || v.Hash() !in all1
    requires if v.Hash() in all1 then RemovedFrom(l1.p, l1.q, l1.ns, l2.p, l2.q, l2.ns, st, v.sender, v.nonce)
             else l2 == l1
    ensures PurgedAt(l, l2, drop + multiset{v}, st, a)
  {
    DroppedOrNotHeld(l, all, all1, drop, v, a);
    if l2 != l1 {
      assert SameAt(l1.p, l2.p, v.sender, a) && SameAt(l1.q, l2.q, v.sender, a);
      assert SameAt(l1.ns, l2.ns, v.sender, a);
    }
    PurgedSame(l, l1, l2, st, drop, v, a);
  }

  lemma PurgedSame(l: Lists, l1: Lists, l2: Lists, st: ChainState, drop: multiset<Tx>, v: Tx, a: Address)
    requires PurgedAt(l, l1, drop, st, a) && l1.SameAs(l2, a)
    requires v in drop || ((forall n :: n in Items(l.p, a) ==> Items(l.p, a)[n] != v)
                           && forall n :: n in Items(l.q, a) ==> Items(l.q, a)[n] != v)
    ensures PurgedAt(l, l2, drop + multiset{v}, st, a)
  {
    var pm, qm, pn := Items(l.p, a), Items(l.q, a), NonceOf(l.ns, st, a);
    var pm1, qm1, pn1 := Items(l1.p, a), Items(l1.q, a), NonceOf(l1.ns, st, a);
    var t: nat :| PurgedTo(pm, qm, pn, pm1, qm1, pn1, drop, t);
    PurgedOther(pm, qm, pn, pm1, qm1, pn1, drop, t, v);
    assert Items(l2.p, a) == pm1 && Items(l2.q, a) == qm1 && NonceOf(l2.ns, st, a) == pn1;
  }

  /** What accepting a transaction does to the lists. */
  ghost predicate Placed(p: ListMap, q: ListMap, p': ListMap, q': ListMap, tx: Tx, accepted: bool) {
    if !accepted then p' == p && q' == q
    else if Taken(p, tx.sender, tx.nonce) then p' == p[tx.sender := p[tx.sender].Added(tx)] && q' == q
    else p' == p && q' == q[tx.sender := ListOf(q, tx.sender, false).Added(tx)]
  }

  /** The call `tx` makes is to a contract whose creator is among `full`. */
  ghost predicate RefusedIn(full: set<Address>, st: ChainState, tx: Tx) {
    IsCallOrdinaryContract(st, tx) && st.creatorOf(tx.to.value) in full
  }

  // ----- all accounts -----

  /**
   One account's queue `l` was promoted: of what is payable, the nonces below `c`
   of the executable run up to `e` became pending; the rest stays queued, up to
   the limit.
   */
  ghost predicate AccountStep(pm: map<nat, Tx>, items: map<nat, Tx>, pn: nat, pm': map<nat, Tx>, qm': map<nat, Tx>,
                              pn': nat,
                              local: bool, limit: nat, e: nat, c: nat) {
    && IsReadyEnd(items, pn, e) && c <= e
    && pm' == pm + Below(items, c)
    && qm' == Capped(From(items, c), local, limit)
    && pn' == if Below(items, c) != map[] then c else pn
  }

  /** The run was cut short at `c` because the quota refuses the call there. */
  ghost predicate CutShort(items: map<nat, Tx>, c: nat, st: ChainState, full: set<Address>) {
    c in items && RefusedIn(full, st, items[c])
  }

  /** What decides how an account is promoted. */
  datatype Terms = Terms(st: ChainState, maxGas: nat, locals: set<Address>, limit: nat)

  ghost predicate Promotion(l: Lists, l': Lists, terms: Terms, full: set<Address>, a: Address, e: nat, c: nat)
    requires a in l.q
  {
    var items := Payable(l.q[a], terms.st, a, terms.maxGas).items;
    && AccountStep(Items(l.p, a), items, NonceOf(l.ns, terms.st, a), Items(l'.p, a), Items(l'.q, a),
                   NonceOf(l'.ns, terms.st, a), a in terms.locals, terms.limit, e, c)
    && (c < e ==> CutShort(items, c, terms.st, full))
  }

  /**
   `a` was promoted if it is among `accounts`, has a queue and is not still
   `todo`; its executable run is pending up to where a quota in `full` cut it
   short.  Otherwise it is as before.
   */
  ghost predicate PromotedUnless(l: Lists, l': Lists, terms: Terms, full: set<Address>, accounts: set<Address>,
                                 todo: set<Address>,
                                 a: Address) {
    if a in accounts && a in l.q && a !in todo then exists e, c :: Promotion(l, l', terms, full, a, e, c)
    else l.SameAs(l', a)
  }

  ghost predicate PromotedExcept(l: Lists, l': Lists, terms: Terms, full: set<Address>, accounts: set<Address>,
                                 todo: set<Address>) {
    forall a :: PromotedUnless(l, l', terms, full, accounts, todo, a)
  }

  lemma PromotingStart(l: Lists, terms: Terms, full: set<Address>, accounts: set<Address>)
    ensures PromotedExcept(l, l, terms, full, accounts, accounts)
  {
    forall a ensures PromotedUnless(l, l, terms, full, accounts, accounts, a) {
    }
  }

  lemma PromotionStill(l: Lists, l1: Lists, l': Lists, terms: Terms, full: set<Address>, full': set<Address>,
                       a: Address,
                       e: nat, c: nat)
    requires a in l.q && Promotion(l, l1, terms, full, a, e, c) && full <= full' && l1.SameAs(l', a)
    ensures Promotion(l, l', terms, full', a, e, c)
  {
    assert Items(l'.p, a) == Items(l1.p, a) && Items(l'.q, a) == Items(l1.q, a);
    assert NonceOf(l'.ns, terms.st, a) == NonceOf(l1.ns, terms.st, a);
  }

  /** Promoting `x` leaves the other accounts as they were; more quotas may be used up by then. */
  lemma PromotingMore(l: Lists, l1: Lists, l': Lists, terms: Terms, full: set<Address>, full': set<Address>,
                      accounts: set<Address>, todo: set<Address>, x: Address, e: nat, c: nat)
    requires PromotedExcept(l, l1, terms, full, accounts, todo) && full <= full' && x in todo && x in accounts
    requires x in l1.q ==>
               && OnlyAt(l1.p, l'.p, x) && OnlyAt(l1.q, l'.q, x) && OnlyAt(l1.ns, l'.ns, x)
               && Promotion(l1, l', terms, full', x, e, c)
    requires x !in l1.q ==> l' == l1
    ensures PromotedExcept(l, l', terms, full', accounts, todo - {x})
  {
    var todo' := todo - {x};
    forall a ensures PromotedUnless(l, l', terms, full', accounts, todo', a) {
      assert PromotedUnless(l, l1, terms, full, accounts, todo, a);
      if a != x {
        StillPromoted(l, l1, l', terms, full, full', accounts, todo, x, a);
      } else if x in l.q {
        PromotedFrom(l, l1, l', terms, full', x, e, c);
      }
    }
  }

  lemma PromotedFrom(l: Lists, l1: Lists, l': Lists, terms: Terms, full: set<Address>, x: Address, e: nat, c: nat)
    requires l.SameAs(l1, x) && x in l.q && x in l1.q && Promotion(l1, l', terms, full, x, e, c)
    ensures Promotion(l, l', terms, full, x, e, c)
  {
    assert Items(l.p, x) == Items(l1.p, x) && NonceOf(l.ns, terms.st, x) == NonceOf(l1.ns, terms.st, x);
  }

  lemma StillPromoted(l: Lists, l1: Lists, l': Lists, terms: Terms, full: set<Address>, full': set<Address>,
                      accounts: set<Address>, todo: set<Address>, x: Address, a: Address)
    requires PromotedUnless(l, l1, terms, full, accounts, todo, a) && full <= full' && a != x
    requires l' == l1 || (OnlyAt(l1.p, l'.p, x) && OnlyAt(l1.q, l'.q, x) && OnlyAt(l1.ns, l'.ns, x))
    ensures PromotedUnless(l, l', terms, full', accounts, todo - {x}, a)
  {
    assert l1.SameAs(l', a) by {
      if l' != l1 {
        assert SameAt(l1.p, l'.p, x, a) && SameAt(l1.q, l'.q, x, a) && SameAt(l1.ns, l'.ns, x, a);
      }
    }
    if a in accounts && a in l.q && a !in todo {
      var e, c :| Promotion(l, l1, terms, full, a, e, c);
      PromotionStill(l, l1, l', terms, full, full', a, e, c);
    }
  }

  /** `a` was demoted if it had pending transactions and is not still `todo`; otherwise it is as before. */
  ghost predicate DemotedUnless(p: ListMap, q: ListMap, p': ListMap, q': ListMap, st: ChainState, maxGas: nat,
                                todo: set<Address>, a: Address) {
    if a in p && a !in todo then DemotedItems(p[a], Items(q, a), Items(p', a), Items(q', a), st, a, maxGas)
    else SameEntry(p, p', a) && SameEntry(q, q', a)
  }

  ghost predicate DemotedExcept(p: ListMap, q: ListMap, p': ListMap, q': ListMap, st: ChainState, maxGas: nat,
                                todo: set<Address>) {
    forall a :: DemotedUnless(p, q, p', q', st, maxGas, todo, a)
  }

  lemma DemotingStart(p: ListMap, q: ListMap, st: ChainState, maxGas: nat)
    ensures DemotedExcept(p, q, p, q, st, maxGas, p.Keys)
  {
    forall a ensures DemotedUnless(p, q, p, q, st, maxGas, p.Keys, a) {
    }
  }

  lemma DemotingMore(p: ListMap, q: ListMap, p1: ListMap, q1: ListMap, p': ListMap, q': ListMap, st: ChainState,
                     maxGas: nat,
                     todo: set<Address>, x: Address)
    requires DemotedExcept(p, q, p1, q1, st, maxGas, todo) && x in todo && x in p1
    requires Demoted(p1, q1, p', q', st, x, maxGas)
    ensures DemotedExcept(p, q, p', q', st, maxGas, todo - {x})
  {
    var todo' := todo - {x};
    assert DemotedUnless(p, q, p1, q1, st, maxGas, todo, x);
    forall a ensures DemotedUnless(p, q, p', q', st, maxGas, todo', a) {
      assert DemotedUnless(p, q, p1, q1, st, maxGas, todo, a);
      if a != x {
        assert SameAt(p1, p', x, a) && SameAt(q1, q', x, a);
        assert Items(p', a) == Items(p1, a) && Items(q', a) == Items(q1, a);
      }
    }
  }

  /** What promoting one account does, seen from its lists alone. */
  lemma PromotedIsPromotion(l: Lists, l': Lists, terms: Terms, full: set<Address>, a: Address, items: map<nat, Tx>,
                            e: nat, c: nat)
    requires a in l.q && items == Payable(l.q[a], terms.st, a, terms.maxGas).items
    requires AccountPromoted(l.p, l.q, l.ns, l'.p, l'.q, l'.ns, terms.st, a, items, e, c,
                             a in terms.locals, terms.limit)
    requires c < e ==> CutShort(items, c, terms.st, full)
    ensures Promotion(l, l', terms, full, a, e, c)
  {
  }
}
