/**
 The redundant state of the transaction pool as values: the pending and queued
 lists of every account and the hash index.  `Agree` says that the three hold
 the same transactions; the lemmas say that each elementary move keeps it.

 While an operation is under way some transactions of one account are in
 limbo: still in the hash index, but taken out of one list and not yet put into
 the other or forgotten.
 */
module PoolState {
  import opened Pricing
  import opened Transactions
  import opened TxLists

  type ListMap = map<Address, AccountList>

  function Items(m: ListMap, a: Address): map<nat, Tx> {
    if a in m then m[a].items else map[]
  }

  function ListOf(m: ListMap, a: Address, strict: bool): AccountList {
    if a in m then m[a] else AccountList(strict, map[], 0, 0)
  }

  predicate Taken(m: ListMap, a: Address, n: nat) {
    a in m && n in m[a].items
  }

  predicate Held(m: ListMap, tx: Tx) {
    Taken(m, tx.sender, tx.nonce) && m[tx.sender].items[tx.nonce] == tx
  }

  predicate InLimbo(a: Address, limbo: map<nat, Tx>, tx: Tx) {
    tx.sender == a && tx.nonce in limbo && limbo[tx.nonce] == tx
  }

  /** The transactions of `items` are those of sender `a`, each under its nonce. */
  ghost predicate Owned(a: Address, items: map<nat, Tx>) {
    forall n :: n in items ==> items[n].nonce == n && items[n].sender == a
  }

  ghost predicate ListOk(m: ListMap, strict: bool, a: Address) {
    a in m ==> m[a].strict == strict && m[a].CapsBound() && Owned(a, m[a].items)
  }

  ghost predicate ListsOk(m: ListMap, strict: bool) {
    forall a :: ListOk(m, strict, a)
  }

  /** `tx` is in the hash index exactly if it is pending, queued or in limbo. */
  ghost predicate Indexed(p: ListMap, q: ListMap, all: map<TxHash, Tx>, a: Address, limbo: map<nat, Tx>, tx: Tx) {
    && (tx.Hash() in all <==> Held(p, tx) || Held(q, tx) || InLimbo(a, limbo, tx))
    && (tx.Hash() in all ==> all[tx.Hash()] == tx)
  }

  /** No nonce of an account is held in two places. */
  ghost predicate Apart(p: ListMap, q: ListMap, a: Address, limbo: map<nat, Tx>, b: Address, n: nat) {
    && !(Taken(p, b, n) && Taken(q, b, n))
    && (b == a && n in limbo ==> !Taken(p, b, n) && !Taken(q, b, n))
  }

  ghost predicate AllIndexed(p: ListMap, q: ListMap, all: map<TxHash, Tx>, a: Address, limbo: map<nat, Tx>) {
    forall tx :: Indexed(p, q, all, a, limbo, tx)
  }

  ghost predicate AllApart(p: ListMap, q: ListMap, a: Address, limbo: map<nat, Tx>) {
    forall b, n :: Apart(p, q, a, limbo, b, n)
  }

  ghost predicate Agree(p: ListMap, q: ListMap, all: map<TxHash, Tx>, a: Address, limbo: map<nat, Tx>) {
    && ListsOk(p, true) && ListsOk(q, false) && Owned(a, limbo)
    && AllIndexed(p, q, all, a, limbo) && AllApart(p, q, a, limbo)
  }

  /** No account has an empty list. */
  ghost predicate NonEmpty(m: ListMap, a: Address) {
    a in m ==> m[a].items != map[]
  }

  ghost predicate NoneEmpty(m: ListMap) {
    forall a :: NonEmpty(m, a)
  }

  // ----- the moves -----

  lemma AgreeIsFiled(p: ListMap, q: ListMap, all: map<TxHash, Tx>, a: Address, limbo: map<nat, Tx>)
    requires Agree(p, q, all, a, limbo)
    ensures Filed(all)
  {
    forall h | h in all ensures all[h].Hash() == h {
      assert h.tx.Hash() == h;
      assert Indexed(p, q, all, a, limbo, h.tx);
    }
  }

  /** With an empty limbo it does not matter whose limbo it is. */
  lemma LimboOfNobody(p: ListMap, q: ListMap, all: map<TxHash, Tx>, a: Address, b: Address)
    requires Agree(p, q, all, a, map[])
    ensures Agree(p, q, all, b, map[])
  {
    forall tx ensures Indexed(p, q, all, b, map[], tx) {
      assert Indexed(p, q, all, a, map[], tx);
    }
    forall c, n ensures Apart(p, q, b, map[], c, n) {
      assert Apart(p, q, a, map[], c, n);
    }
  }

  /** Taking transactions out of an account's queue puts them in limbo. */
  lemma TakeQueued(p: ListMap, q: ListMap, all: map<TxHash, Tx>, a: Address, limbo: map<nat, Tx>,
                   l: AccountList, part: map<nat, Tx>, limbo': map<nat, Tx>)
    requires Agree(p, q, all, a, limbo) && a in q
    requires forall n :: n in part ==> n in q[a].items && part[n] == q[a].items[n]
    requires l.items == q[a].items - part.Keys && !l.strict && l.CapsBound()
    requires limbo' == limbo + part
    ensures Agree(p, q[a := l], all, a, limbo')
  {
    var q' := q[a := l];
    assert ListOk(q, false, a);
    forall b ensures ListOk(q', false, b) {
      assert ListOk(q, false, b);
    }
    forall tx ensures Indexed(p, q', all, a, limbo', tx) {
      assert Indexed(p, q, all, a, limbo, tx) && Apart(p, q, a, limbo, tx.sender, tx.nonce);
    }
    forall b, n ensures Apart(p, q', a, limbo', b, n) {
      assert Apart(p, q, a, limbo, b, n);
    }
  }

  /** Likewise for its pending list. */
  lemma TakePending(p: ListMap, q: ListMap, all: map<TxHash, Tx>, a: Address, limbo: map<nat, Tx>,
                    l: AccountList, part: map<nat, Tx>, limbo': map<nat, Tx>)
    requires Agree(p, q, all, a, limbo) && a in p
    requires forall n :: n in part ==> n in p[a].items && part[n] == p[a].items[n]
    requires l.items == p[a].items - part.Keys && l.strict && l.CapsBound()
    requires limbo' == limbo + part
    ensures Agree(p[a := l], q, all, a, limbo')
  {
    var p' := p[a := l];
    assert ListOk(p, true, a);
    forall b ensures ListOk(p', true, b) {
      assert ListOk(p, true, b);
    }
    forall tx ensures Indexed(p', q, all, a, limbo', tx) {
      assert Indexed(p, q, all, a, limbo, tx) && Apart(p, q, a, limbo, tx.sender, tx.nonce);
    }
    forall b, n ensures Apart(p', q, a, limbo', b, n) {
      assert Apart(p, q, a, limbo, b, n);
    }
  }

  /** Putting one transaction in limbo into the account's queue. */
  lemma PutQueued(p: ListMap, q: ListMap, all: map<TxHash, Tx>, a: Address, limbo: map<nat, Tx>, n: nat)
    requires Agree(p, q, all, a, limbo) && n in limbo
    ensures Agree(p, q[a := ListOf(q, a, false).Added(limbo[n])], all, a, limbo - {n})
    ensures !Taken(q, a, n)
  {
    var l, limbo' := ListOf(q, a, false).Added(limbo[n]), limbo - {n};
    var q' := q[a := l];
    assert ListOk(q, false, a) && Apart(p, q, a, limbo, a, n);
    AddedKeepsCaps(ListOf(q, a, false), limbo[n]);
    forall b ensures ListOk(q', false, b) {
      assert ListOk(q, false, b);
    }
    forall tx ensures Indexed(p, q', all, a, limbo', tx) {
      assert Indexed(p, q, all, a, limbo, tx) && Apart(p, q, a, limbo, tx.sender, tx.nonce);
    }
    forall b, k ensures Apart(p, q', a, limbo', b, k) {
      assert Apart(p, q, a, limbo, b, k);
    }
  }

  /** Putting one transaction in limbo into the account's pending list. */
  lemma PutPending(p: ListMap, q: ListMap, all: map<TxHash, Tx>, a: Address, limbo: map<nat, Tx>, n: nat)
    requires Agree(p, q, all, a, limbo) && n in limbo
    ensures Agree(p[a := ListOf(p, a, true).Added(limbo[n])], q, all, a, limbo - {n})
    ensures !Taken(p, a, n)
  {
    var l, limbo' := ListOf(p, a, true).Added(limbo[n]), limbo - {n};
    var p' := p[a := l];
    assert ListOk(p, true, a) && Apart(p, q, a, limbo, a, n);
    AddedKeepsCaps(ListOf(p, a, true), limbo[n]);
    forall b ensures ListOk(p', true, b) {
      assert ListOk(p, true, b);
    }
    forall tx ensures Indexed(p', q, all, a, limbo', tx) {
      assert Indexed(p, q, all, a, limbo, tx) && Apart(p, q, a, limbo, tx.sender, tx.nonce);
    }
    forall b, k ensures Apart(p', q, a, limbo', b, k) {
      assert Apart(p, q, a, limbo, b, k);
    }
  }

  /** Forgetting one transaction in limbo. */
  lemma ForgetOne(p: ListMap, q: ListMap, all: map<TxHash, Tx>, a: Address, limbo: map<nat, Tx>, n: nat)
    requires Agree(p, q, all, a, limbo) && n in limbo
    ensures Agree(p, q, all - {limbo[n].Hash()}, a, limbo - {n})
  {
    var all', limbo' := all - {limbo[n].Hash()}, limbo - {n};
    forall tx ensures Indexed(p, q, all', a, limbo', tx) {
      assert Indexed(p, q, all, a, limbo, tx) && Apart(p, q, a, limbo, tx.sender, tx.nonce);
      assert tx.Hash() == limbo[n].Hash() <==> tx == limbo[n];
    }
    forall b, k ensures Apart(p, q, a, limbo', b, k) {
      assert Apart(p, q, a, limbo, b, k);
    }
  }

  /** A transaction new to the pool enters through limbo, at a nonce its sender does not use yet. */
  lemma NewOne(p: ListMap, q: ListMap, all: map<TxHash, Tx>, limbo: map<nat, Tx>, tx: Tx)
    requires Agree(p, q, all, tx.sender, limbo)
    requires tx.nonce !in limbo && !Taken(p, tx.sender, tx.nonce) && !Taken(q, tx.sender, tx.nonce)
    ensures Agree(p, q, all[tx.Hash() := tx], tx.sender, limbo[tx.nonce := tx])
    ensures tx.Hash() !in all
  {
    var a, all', limbo' := tx.sender, all[tx.Hash() := tx], limbo[tx.nonce := tx];
    assert Indexed(p, q, all, a, limbo, tx);
    forall t ensures Indexed(p, q, all', a, limbo', t) {
      assert Indexed(p, q, all, a, limbo, t);
      assert t.Hash() == tx.Hash() <==> t == tx;
    }
    forall b, k ensures Apart(p, q, a, limbo', b, k) {
      assert Apart(p, q, a, limbo, b, k);
    }
  }

  /** Removing an empty list changes nothing. */
  lemma DropEmptyQueue(p: ListMap, q: ListMap, all: map<TxHash, Tx>, a: Address, limbo: map<nat, Tx>)
    requires Agree(p, q, all, a, limbo) && Items(q, a) == map[]
    ensures Agree(p, q - {a}, all, a, limbo)
  {
    var q' := q - {a};
    forall b ensures ListOk(q', false, b) {
      assert ListOk(q, false, b);
    }
    forall tx ensures Indexed(p, q', all, a, limbo, tx) {
      assert Indexed(p, q, all, a, limbo, tx);
    }
    forall b, k ensures Apart(p, q', a, limbo, b, k) {
      assert Apart(p, q, a, limbo, b, k);
    }
  }

  lemma DropEmptyPending(p: ListMap, q: ListMap, all: map<TxHash, Tx>, a: Address, limbo: map<nat, Tx>)
    requires Agree(p, q, all, a, limbo) && Items(p, a) == map[]
    ensures Agree(p - {a}, q, all, a, limbo)
  {
    var p' := p - {a};
    forall b ensures ListOk(p', true, b) {
      assert ListOk(p, true, b);
    }
    forall tx ensures Indexed(p', q, all, a, limbo, tx) {
      assert Indexed(p, q, all, a, limbo, tx);
    }
    forall b, k ensures Apart(p', q, a, limbo, b, k) {
      assert Apart(p, q, a, limbo, b, k);
    }
  }

  /** A transaction takes the place of the pending one with its nonce. */
  lemma ReplacePending(p: ListMap, q: ListMap, all: map<TxHash, Tx>, tx: Tx)
    requires Agree(p, q, all, tx.sender, map[]) && Taken(p, tx.sender, tx.nonce)
    ensures Agree(p[tx.sender := p[tx.sender].Added(tx)], q,
                  (all - {p[tx.sender].items[tx.nonce].Hash()})[tx.Hash() := tx], tx.sender, map[])
  {
    var a, n := tx.sender, tx.nonce;
    assert ListOk(p, true, a);
    var l, part := p[a], map[n := p[a].items[n]];
    WithoutKeepsCaps(l, {n});
    assert map[] + part == part && part.Keys == {n} && part - {n} == map[];
    TakePending(p, q, all, a, map[], l.Without({n}), part, part);
    var p1 := p[a := l.Without({n})];
    ForgetOne(p1, q, all, a, part, n);
    assert Apart(p, q, a, map[], a, n);
    NewOne(p1, q, all - {part[n].Hash()}, map[], tx);
    var limbo: map<nat, Tx> := map[n := tx];
    assert map[][n := tx] == limbo && limbo - {n} == map[];
    PutPending(p1, q, (all - {part[n].Hash()})[tx.Hash() := tx], a, limbo, n);
    assert l.Without({n}).Added(tx) == l.Added(tx);
    assert p1[a := l.Added(tx)] == p[a := l.Added(tx)];
  }

  /** Likewise in the queue. */
  lemma ReplaceQueued(p: ListMap, q: ListMap, all: map<TxHash, Tx>, tx: Tx)
    requires Agree(p, q, all, tx.sender, map[]) && Taken(q, tx.sender, tx.nonce)
    ensures Agree(p, q[tx.sender := q[tx.sender].Added(tx)],
                  (all - {q[tx.sender].items[tx.nonce].Hash()})[tx.Hash() := tx], tx.sender, map[])
  {
    var a, n := tx.sender, tx.nonce;
    assert ListOk(q, false, a);
    var l, part := q[a], map[n := q[a].items[n]];
    WithoutKeepsCaps(l, {n});
    assert map[] + part == part && part.Keys == {n} && part - {n} == map[];
    TakeQueued(p, q, all, a, map[], l.Without({n}), part, part);
    var q1 := q[a := l.Without({n})];
    ForgetOne(p, q1, all, a, part, n);
    assert Apart(p, q, a, map[], a, n);
    NewOne(p, q1, all - {part[n].Hash()}, map[], tx);
    var limbo: map<nat, Tx> := map[n := tx];
    assert map[][n := tx] == limbo && limbo - {n} == map[];
    PutQueued(p, q1, (all - {part[n].Hash()})[tx.Hash() := tx], a, limbo, n);
    assert l.Without({n}).Added(tx) == l.Added(tx);
    assert q1[a := l.Added(tx)] == q[a := l.Added(tx)];
  }

  /** A transaction enters the queue at a nonce its sender has not used. */
  lemma EnterQueue(p: ListMap, q: ListMap, all: map<TxHash, Tx>, tx: Tx)
    requires Agree(p, q, all, tx.sender, map[])
    requires !Taken(p, tx.sender, tx.nonce) && !Taken(q, tx.sender, tx.nonce)
    ensures Agree(p, q[tx.sender := ListOf(q, tx.sender, false).Added(tx)], all[tx.Hash() := tx], tx.sender, map[])
  {
    var a, n := tx.sender, tx.nonce;
    NewOne(p, q, all, map[], tx);
    var limbo: map<nat, Tx> := map[n := tx];
    assert map[][n := tx] == limbo && limbo - {n} == map[];
    PutQueued(p, q, all[tx.Hash() := tx], a, limbo, n);
  }

  /** `all'` is `all` with `tx` in the place of whatever had its sender and nonce. */
  ghost predicate EnteredAt(all: map<TxHash, Tx>, all': map<TxHash, Tx>, tx: Tx, t: Tx) {
    t.Hash() in all' <==> t == tx || (t.Hash() in all && !(t.sender == tx.sender && t.nonce == tx.nonce))
  }

  ghost predicate Entered(all: map<TxHash, Tx>, all': map<TxHash, Tx>, tx: Tx) {
    forall t :: EnteredAt(all, all', tx, t)
  }

  lemma EnteredPlain(p: ListMap, q: ListMap, all: map<TxHash, Tx>, tx: Tx)
    requires Agree(p, q, all, tx.sender, map[])
    requires !Taken(p, tx.sender, tx.nonce) && !Taken(q, tx.sender, tx.nonce)
    ensures Entered(all, all[tx.Hash() := tx], tx)
  {
    var all' := all[tx.Hash() := tx];
    forall t ensures EnteredAt(all, all', tx, t) {
      assert Indexed(p, q, all, tx.sender, map[], t);
      assert t.Hash() == tx.Hash() <==> t == tx;
    }
  }

  lemma EnteredFor(p: ListMap, q: ListMap, all: map<TxHash, Tx>, tx: Tx, u: Tx)
    requires Agree(p, q, all, tx.sender, map[])
    requires || (Taken(p, tx.sender, tx.nonce) && u == p[tx.sender].items[tx.nonce])
             || (Taken(q, tx.sender, tx.nonce) && u == q[tx.sender].items[tx.nonce])
    ensures Entered(all, (all - {u.Hash()})[tx.Hash() := tx], tx)
  {
    var all' := (all - {u.Hash()})[tx.Hash() := tx];
    assert Apart(p, q, tx.sender, map[], tx.sender, tx.nonce);
    assert ListOk(p, true, tx.sender) && ListOk(q, false, tx.sender);
    forall t ensures EnteredAt(all, all', tx, t) {
      assert Indexed(p, q, all, tx.sender, map[], t);
      assert (t.Hash() == tx.Hash() <==> t == tx) && (t.Hash() == u.Hash() <==> t == u);
    }
  }
}
