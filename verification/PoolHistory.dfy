/**
 Whole histories of the pool: sequences of operations, each an exact step from one
 moment of the pool to the next, and what they keep.
 */
module PoolHistories {
  import opened Bystanders
  import opened Mortgage
  import opened PoolRuns
  import opened PoolSteps
  import opened PoolTraces
  import opened Reinjections
  import opened Transactions

  datatype Op =
    | AddOne(tx: Tx, local: bool, beats: Address -> int)
    | AddMany(txs: seq<Tx>, local: bool, beats: Address -> int)
    | Reprice(price: nat)
    | NewHead(st: ChainState, gasLimit: nat, pastHomestead: bool, reinject: seq<Tx>, beats: Address -> int)
    | Tick(idle: set<Address>)
    | Recount(counters: seq<HeightCounter>)

  datatype Moment = Moment(v: PoolView, rules: AddRules)
  {
    function Conditions(config: Config): Terms {
      Terms(rules.st, rules.maxGas, v.locals, config.accountQueue)
    }

    ghost predicate RunAt(a: Address) {
      v.l.RunAt(rules.st, a)
    }
  }

  /** The rules under a new head. */
  function Under(rules: AddRules, st: ChainState, gasLimit: nat, pastHomestead: bool): AddRules {
    rules.(st := st, maxGas := gasLimit, homestead := rules.homestead || pastHomestead)
  }

  // ----- the steps -----

  ghost predicate AddedTx(m: Moment, m': Moment, config: Config, tx: Tx, local: bool, beats: Address -> int,
                          r: AddResult, mid: PoolView, via: Passage, full: set<Address>) {
    && m'.rules == m.rules && AddedOne(m.v, mid, m.rules, tx, local, r)
    && mid.l == via.added && mid.locals == m'.v.locals
    && via.accounts == (if r == Accepted(false) then {tx.sender} else {}) && (via.accounts == {} ==> m'.v == mid)
    && PassedThrough(via, m'.v.l, m'.Conditions(config), full, config, beats)
  }

  ghost predicate AddedTxs(m: Moment, m': Moment, config: Config, txs: seq<Tx>, local: bool, beats: Address -> int,
                           rs: seq<AddResult>, trace: seq<PoolView>, via: Passage, full: set<Address>) {
    && m'.rules == m.rules && Batch(m.v, trace, m.rules, txs, |txs|, local, rs, via.accounts)
    && trace[|txs|].l == via.added && trace[|txs|].locals == m'.v.locals
    && PassedThrough(via, m'.v.l, m'.Conditions(config), full, config, beats)
  }

  ghost predicate Repriced(m: Moment, m': Moment, price: nat, drop: multiset<Tx>) {
    && m'.rules == m.rules.(gasPrice := price) && m'.v.locals == m.v.locals
    && AllPurged(m.v.l, m'.v.l, drop, m.rules.st) && DroppedFrom(m.v.all, m'.v.all, drop)
    && BelowFloor(m.v.all, m.v.locals, drop, price)
  }

  ghost predicate Moved(m: Moment, m': Moment, config: Config, rules: AddRules, txs: seq<Tx>, beats: Address -> int,
                        trace: ResetTrace, full: set<Address>) {
    var terms := m'.Conditions(config);
    && m'.rules == rules && m'.v.locals == m.v.locals
    && Batch(m.v.(l := m.v.l.(ns := map[])), trace.views, rules, txs, |txs|, false, trace.rs, trace.via.accounts)
    && Reinjected(trace, |txs|, terms, config, beats) && Settles(trace, m'.v.l, terms, full, config, beats)
  }

  ghost predicate Ticked(m: Moment, m': Moment, idle: set<Address>) {
    && m'.rules == m.rules && m'.v.locals == m.v.locals
    && m'.v.l.p == m.v.l.p && m'.v.l.ns == m.v.l.ns && Evicted(m.v.l.q, m'.v.l.q, idle - m.v.locals, {})
  }

  /** What each operation does. */
  ghost predicate Stepped(m: Moment, op: Op, m': Moment, config: Config) {
    match op
    case AddOne(tx, local, beats) =>
      exists r, mid, via, full :: AddedTx(m, m', config, tx, local, beats, r, mid, via, full)
    case AddMany(txs, local, beats) =>
      exists rs, trace, via, full :: AddedTxs(m, m', config, txs, local, beats, rs, trace, via, full)
    case Reprice(price) => exists drop :: Repriced(m, m', price, drop)
    case NewHead(st, gasLimit, pastHomestead, reinject, beats) =>
      exists trace, full ::
        Moved(m, m', config, Under(m.rules, st, gasLimit, pastHomestead), reinject, beats, trace, full)
    case Tick(idle) => Ticked(m, m', idle)
    case Recount(counters) => m' == m
  }

  lemma MovedIsStep(m: Moment, m': Moment, config: Config, st: ChainState, gasLimit: nat, pastHomestead: bool,
                    reinject: seq<Tx>, beats: Address -> int, trace: ResetTrace, full: set<Address>)
    requires Moved(m, m', config, Under(m.rules, st, gasLimit, pastHomestead), reinject, beats, trace, full)
    ensures Stepped(m, NewHead(st, gasLimit, pastHomestead, reinject, beats), m', config)
  {
  }

  // ----- what they keep -----

  /**
   A reset leaves the account undisturbed and without a hole, or reinjects nothing for
   it; in that case it must reinject nothing at all, or find nothing used up among
   what the account has pending.
   */
  ghost predicate Harmless(m: Moment, op: Op, config: Config, a: Address) {
    op.NewHead? ==>
      var rules := Under(m.rules, op.st, op.gasLimit, op.pastHomestead);
      || (NotIn(op.reinject, a) && (op.reinject == [] || NothingStale(m.v, op.st, a)))
      || (Undisturbed(m.v, rules, config, op.reinject, a)
          && !LeavesHole(m.v, rules, op.reinject, a, m.rules.st.nonceOf(a)))
  }

  /** Every operation keeps the nonces of an account a run, if it is harmless to it. */
  lemma StepKeepsRun(m: Moment, op: Op, m': Moment, config: Config, a: Address)
    requires Stepped(m, op, m', config) && m.RunAt(a) && Harmless(m, op, config, a)
    ensures m'.RunAt(a)
  {
    match op
    case AddOne(tx, local, beats) =>
      var r, mid, via, full :| AddedTx(m, m', config, tx, local, beats, r, mid, via, full);
      AddingKeepsRuns(m.v, mid, via, m'.v.l, m.rules, tx, local, r, m'.Conditions(config), full, config, beats);
      assert RunKept(m.v.l, m'.v.l, m.rules.st, a);
    case AddMany(txs, local, beats) =>
      var rs, trace, via, full :| AddedTxs(m, m', config, txs, local, beats, rs, trace, via, full);
      BatchKeepsRuns(m.v, trace, via, m'.v.l, m.rules, txs, |txs|, local, rs, m'.Conditions(config), full, config,
                     beats);
      assert RunKept(m.v.l, m'.v.l, m.rules.st, a);
    case Reprice(price) =>
      var drop :| Repriced(m, m', price, drop);
      PurgingKeepsRuns(m.v.l, m'.v.l, drop, m.rules.st);
      assert RunKept(m.v.l, m'.v.l, m.rules.st, a);
    case NewHead(st, gasLimit, pastHomestead, reinject, beats) =>
      var rules := Under(m.rules, st, gasLimit, pastHomestead);
      var trace, full :| Moved(m, m', config, rules, reinject, beats, trace, full);
      ResetForeseen(m.v, m.rules.st, trace, m'.v.l, rules, m'.Conditions(config), full, config, beats, reinject);
      assert Foreseen(m.v, m.rules.st, m'.v.l, rules, config, reinject, a);
    case Tick(idle) =>
      EvictionKeepsRuns(m.v.l.p, m.v.l.q, m'.v.l.q, m.v.l.ns, m.rules.st, idle - m.v.locals);
      assert RunKept(m.v.l, m'.v.l, m.rules.st, a);
    case Recount(counters) =>
  }

  /** Each moment comes from the one before by the operation between them. */
  ghost predicate Successive<M(!new), O(!new)>(moments: seq<M>, ops: seq<O>, n: nat, step: (M, O, M) -> bool) {
    && n <= |ops| && |moments| == n + 1
    && forall i, j :: 0 <= i < n && j == i + 1 ==> step(moments[i], ops[i], moments[j])
  }

  lemma SuccessiveMore<M(!new), O(!new)>(moments: seq<M>, ops: seq<O>, n: nat, step: (M, O, M) -> bool, m: M)
    requires Successive(moments, ops, n, step) && n < |ops| && step(moments[n], ops[n], m)
    ensures Successive(moments + [m], ops, n + 1, step)
  {
  }

  ghost function Steps(config: Config): (Moment, Op, Moment) -> bool {
    (m: Moment, op: Op, m': Moment) => Stepped(m, op, m', config)
  }

  /** A sequence of operations, step by step. */
  ghost predicate History(moments: seq<Moment>, ops: seq<Op>, n: nat, config: Config) {
    Successive(moments, ops, n, Steps(config))
  }

  lemma HistoryStep(moments: seq<Moment>, ops: seq<Op>, n: nat, config: Config, i: nat)
    requires History(moments, ops, n, config) && i < n
    ensures Stepped(moments[i], ops[i], moments[i + 1], config)
  {
    var j := i + 1;
    assert Steps(config)(moments[i], ops[i], moments[j]);
  }

  lemma HistoryMore(moments: seq<Moment>, ops: seq<Op>, n: nat, config: Config, m: Moment)
    requires History(moments, ops, n, config) && n < |ops| && Stepped(moments[n], ops[n], m, config)
    ensures History(moments + [m], ops, n + 1, config)
  {
    SuccessiveMore(moments, ops, n, Steps(config), m);
  }

  /**
   Over any history, in any order of operations: an account whose nonces are a run at
   the start has them in a run at every moment, if every reset on the way is
   harmless to it.
   */
  lemma {:induction false} HistoryKeepsRun(moments: seq<Moment>, ops: seq<Op>, n: nat, config: Config, k: nat,
                                           a: Address)
    requires History(moments, ops, n, config) && k <= n && moments[0].RunAt(a)
    requires forall i :: 0 <= i < k ==> Harmless(moments[i], ops[i], config, a)
    ensures moments[k].RunAt(a)
  {
    if k > 0 {
      var i := k - 1;
      HistoryKeepsRun(moments, ops, n, config, i, a);
      HistoryStep(moments, ops, n, config, i);
      StepKeepsRun(moments[i], ops[i], moments[k], config, a);
    }
  }
}
