/**
 `validateTx` beside `TransitionDb`: what the pool admits in a state, and what can be
 applied in it.
 */
module Execution {
  import opened Admission
  import opened StateTransitions
  import opened Transactions

  /** The message made of a transaction. */
  function MessageOf(tx: Tx): Message {
    Message(tx.sender, tx.to, tx.nonce, tx.value, tx.gasLimit, tx.price, tx.data, true)
  }

  /** The state a block is applied to and the head state the pool consults are one. */
  ghost predicate Agree(env: Env, w: World, st: ChainState, tx: Tx) {
    && (forall a :: BalanceOf(w.balances, a) == st.balanceOf(a))
    && (forall a :: w.NonceOf(a) == st.nonceOf(a))
    && env.sponsor(w, MessageOf(tx)) ==
         if tx.to.Some? && st.paysFor(tx.sender, tx)
         then Some((st.creatorOrSelf(tx.to.value), st.contractGasLimit(tx.to.value))) else None
  }

  /** The machine refuses a transfer exactly if the sender does not have the value. */
  ghost predicate Transfers(env: Env) {
    forall w, m, g :: env.run(w, m, g).error.InsufficientBalance? <==> BalanceOf(w.balances, m.from) < m.value
  }

  /** A creator calls its own contract, leaves the gas to itself, and cannot cover both value and gas. */
  ghost predicate PaysTwice(st: ChainState, tx: Tx) {
    && tx.gasLimit == 0 && tx.to.Some? && st.creatorOrSelf(tx.to.value) == tx.sender
    && tx.value + tx.price * st.contractGasLimit(tx.to.value) > st.balanceOf(tx.sender)
  }

  /**
   The pool admits exactly what it finds well formed, not too cheap, not used up and not
   above the block's gas, what a block could charge for, and what the sender could
   transfer, and for its own gas pay, as well.
   */
  lemma AdmittedIffAffordable(env: Env, w: World, st: ChainState, maxGas: nat, gasPrice: nat, local: bool, tx: Tx)
    requires Agree(env, w, st, tx)
    ensures Validate(st, maxGas, gasPrice, local, env.homestead, tx).None? <==>
              && tx.form.size <= 32768 && !tx.form.negative && tx.form.signed
              && (local || gasPrice <= tx.price) && w.NonceOf(tx.sender) <= tx.nonce && tx.Gas() <= maxGas
              && Affordable(env, w, MessageOf(tx)) && Funded(env, w, MessageOf(tx)).gas <= maxGas
              && tx.value + tx.price * tx.gasLimit <= BalanceOf(w.balances, tx.sender)
  {
  }

  /**
   What the pool admits with the state's nonce is accepted into a block with enough
   gas left, unless a creator that pays for its own call cannot cover both value and gas.
   */
  lemma AdmittedIsAccepted(env: Env, w: World, st: ChainState, maxGas: nat, gasPrice: nat, local: bool, tx: Tx,
                           pool: nat)
    requires Agree(env, w, st, tx) && Transfers(env) && maxGas <= pool
    requires Validate(st, maxGas, gasPrice, local, env.homestead, tx).None? && tx.nonce == st.nonceOf(tx.sender)
    ensures Accepts(env, w, MessageOf(tx), pool) <==> !PaysTwice(st, tx)
  {
    AdmittedIffAffordable(env, w, st, maxGas, gasPrice, local, tx);
    var m := MessageOf(tx);
    var payer, bought := PayerOf(env, w, m), Funded(env, w, m).gas;
    GivenIsHandedOver(env, w, m, payer, bought);
    assert BalanceOf(Given(env, w, m).balances, tx.sender)
           == st.balanceOf(tx.sender) - if tx.sender == payer then bought * tx.price else 0;
  }

  // ----- a creator that pays twice -----

  /** A machine that only checks the transfer, and a registry in which account 3 pays for calls to contract 2. */
  const PLAIN: Env := Env(
    (w: World, m: Message, gas: nat) =>
      Outcome(w, gas, 0, if BalanceOf(w.balances, m.from) < m.value then InsufficientBalance else NoError, {}, {}, []),
    (w: World, m: Message) => if m.to.Some? then Some((3, 50_000)) else None,
    (a: Address, n: nat) => 0, (w: World, a: Address) => 3, 7, true, true)

  /** The creator has exactly what the gas costs, and sends a value with its call. */
  lemma CreatorCanPayTwice()
    ensures var tx := SponsoredCall(1).(sender := 3, value := 1);
            var w := World(map[3 := 50_000], map[], map[2 := [0xFF]], map[]);
            && Agree(PLAIN, w, Sponsored(50_000), tx) && Transfers(PLAIN)
            && Validate(Sponsored(50_000), 8_000_000, 1, false, true, tx).None?
            && !Accepts(PLAIN, w, MessageOf(tx), 8_000_000)
  {
    var tx := SponsoredCall(1).(sender := 3, value := 1);
    var w := World(map[3 := 50_000], map[], map[2 := [0xFF]], map[]);
    assert NonZeros([1]) == 1 by {
      assert [1][..0] == [];
    }
    assert IntrinsicNeed([1], false, true) == 21_068;
    assert Validate(Sponsored(50_000), 8_000_000, 1, false, true, tx).None?;
    AdmittedIsAccepted(PLAIN, w, Sponsored(50_000), 8_000_000, 1, false, tx, 8_000_000);
  }
}
