/**
 `IntrinsicGas` and `validateTx`: what the pool asks of a transaction before it
 takes it in.
 */
module Admission {
  import opened Transactions
  import opened TxLists

  const MAX_UINT64: nat := 0xFFFF_FFFF_FFFF_FFFF
  const TX_GAS: nat := 21000
  const TX_GAS_CONTRACT_CREATION: nat := 53000
  const TX_DATA_NON_ZERO_GAS: nat := 68
  const TX_DATA_ZERO_GAS: nat := 4

  function NonZeros(data: seq<nat>): (c: nat)
    ensures c <= |data|
  {
    if data == [] then 0 else NonZeros(data[..|data| - 1]) + if data[|data| - 1] != 0 then 1 else 0
  }

  function NonZeroAt(data: seq<nat>): set<nat> {
    set i: nat | i < |data| && data[i] != 0
  }

  /** What is due up front, byte by byte. */
  function UpFront(data: seq<nat>, creation: bool, homestead: bool): int {
    (if creation && homestead then 53000 else 21000) + 68 * |NonZeroAt(data)| + 4 * (|data| - |NonZeroAt(data)|)
  }

  lemma {:induction false} NonZerosCount(data: seq<nat>)
    ensures NonZeros(data) == |NonZeroAt(data)|
  {
    if data != [] {
      var n := |data| - 1;
      NonZerosCount(data[..n]);
      assert NonZeroAt(data) == NonZeroAt(data[..n]) + if data[n] != 0 then {n} else {};
    }
  }

  /** The gas a transaction costs before it runs, in unbounded arithmetic. */
  function IntrinsicNeed(data: seq<nat>, creation: bool, homestead: bool): nat {
    (if creation && homestead then TX_GAS_CONTRACT_CREATION else TX_GAS)
    + NonZeros(data) * TX_DATA_NON_ZERO_GAS + (|data| - NonZeros(data)) * TX_DATA_ZERO_GAS
  }

  function Intrinsic(data: seq<nat>, creation: bool, homestead: bool): Option<nat> {
    var need := IntrinsicNeed(data, creation, homestead);
    if need <= MAX_UINT64 then Some(need) else None
  }

  /** The two overflow tests refuse exactly the data whose cost does not fit in 64 bits. */
  method IntrinsicGas(data: seq<nat>, creation: bool, homestead: bool) returns (r: Option<nat>)
    ensures r == Intrinsic(data, creation, homestead)
    ensures var cost := UpFront(data, creation, homestead);
            r == if cost < 0x1_0000_0000_0000_0000 then Some(cost) else None
  {
    NonZerosCount(data);
    var gas := if creation && homestead then TX_GAS_CONTRACT_CREATION else TX_GAS;
    if |data| > 0 {
      var nz := 0;
      for i := 0 to |data|
        invariant nz == NonZeros(data[..i])
      {
        assert data[..i + 1][..i] == data[..i];
        if data[i] != 0 {
          nz := nz + 1;
        }
      }
      assert data[..|data|] == data;
      if (MAX_UINT64 - gas) / TX_DATA_NON_ZERO_GAS < nz {
        return None;
      }
      gas := gas + nz * TX_DATA_NON_ZERO_GAS;
      var z := |data| - nz;
      if (MAX_UINT64 - gas) / TX_DATA_ZERO_GAS < z {
        return None;
      }
      gas := gas + z * TX_DATA_ZERO_GAS;
    }
    return Some(gas);
  }

  const MAX_TX_SIZE: nat := 32 * 1024

  datatype TxError =
    | OversizedData
    | NegativeValue
    | GasLimitExceeded
    | InvalidSender
    | BelowPriceFloor
    | NonceTooLow
    | NotPaidByContract
    | ContractInsufficientFunds
    | InsufficientFunds
    | OutOfGas
    | IntrinsicGasTooLow

  /** The gas of a transaction after validation has cached what the called contract grants. */
  function GrantedGas(st: ChainState, tx: Tx): nat {
    if tx.gasLimit == 0 && tx.to.Some? then st.contractGasLimit(tx.to.value) else tx.gasLimit
  }

  /** Who is to pay what: the funds part of `validateTx`. */
  function ValidateFunds(st: ChainState, maxGas: nat, tx: Tx): Option<TxError> {
    if tx.gasLimit == 0 then
      if tx.to.None? || !st.paysFor(tx.sender, tx) then Some(NotPaidByContract)
      else if st.contractGasLimit(tx.to.value) > maxGas then Some(GasLimitExceeded)
      else if st.balanceOf(st.creatorOrSelf(tx.to.value)) < tx.price * st.contractGasLimit(tx.to.value)
      then Some(ContractInsufficientFunds)
      else if st.balanceOf(tx.sender) < tx.value then Some(InsufficientFunds)
      else None
    else if st.balanceOf(tx.sender) < tx.Cost() then Some(InsufficientFunds)
    else None
  }

  /** `validateTx`: the first reason to refuse a transaction, if any. */
  function Validate(st: ChainState, maxGas: nat, gasPrice: nat, local: bool, homestead: bool, tx: Tx): Option<TxError> {
    if tx.form.size > MAX_TX_SIZE then Some(OversizedData)
    else if tx.form.negative then Some(NegativeValue)
    else if maxGas < tx.Gas() then Some(GasLimitExceeded)
    else if !tx.form.signed then Some(InvalidSender)
    else if !local && gasPrice > tx.price then Some(BelowPriceFloor)
    else if st.nonceOf(tx.sender) > tx.nonce then Some(NonceTooLow)
    else if ValidateFunds(st, maxGas, tx).Some? then ValidateFunds(st, maxGas, tx)
    else
      var need := Intrinsic(tx.data, tx.to.None?, homestead);
      if need.None? then Some(OutOfGas)
      else if GrantedGas(st, tx) < need.value then Some(IntrinsicGasTooLow)
      else None
  }

  /**
   Validation and the filter that later prunes the account lists agree: nothing
   is admitted that the filter would drop in the same state, and whatever passes
   the other checks and would survive the filter is admitted.
   */
  lemma AdmittedIffPayable(st: ChainState, maxGas: nat, gasPrice: nat, local: bool, homestead: bool, tx: Tx)
    ensures Validate(st, maxGas, gasPrice, local, homestead, tx).None? <==>
              && tx.form.size <= MAX_TX_SIZE && !tx.form.negative && tx.form.signed
              && !Unpayable(st, tx, st.balanceOf(tx.sender), maxGas)
              && tx.Gas() <= maxGas && (local || gasPrice <= tx.price) && st.nonceOf(tx.sender) <= tx.nonce
              && IntrinsicNeed(tx.data, tx.to.None?, homestead) <= GrantedGas(st, tx)
              && IntrinsicNeed(tx.data, tx.to.None?, homestead) <= MAX_UINT64
    ensures Validate(st, maxGas, gasPrice, local, homestead, tx).None? <==>
              && tx.form.size <= 32768 && !tx.form.negative && tx.form.signed
              && (local || gasPrice <= tx.price) && st.nonceOf(tx.sender) <= tx.nonce
              && (if tx.gasLimit > 0 then OwnMeans(st, maxGas, homestead, tx)
                  else SponsoredMeans(st, maxGas, homestead, tx))
  {
    NonZerosCount(tx.data);
  }

  /** The sender covers value and gas, and the gas what is due up front. */
  ghost predicate OwnMeans(st: ChainState, maxGas: nat, homestead: bool, tx: Tx) {
    && tx.value + tx.price * tx.gasLimit <= st.balanceOf(tx.sender) && tx.gasLimit <= maxGas
    && UpFront(tx.data, tx.to.None?, homestead) <= tx.gasLimit
    && UpFront(tx.data, tx.to.None?, homestead) < 0x1_0000_0000_0000_0000
  }

  /**
   The sender covers the value, the creator of the called contract pays for the sender
   and covers the gas it grants, and that gas covers what is due up front.
   */
  ghost predicate SponsoredMeans(st: ChainState, maxGas: nat, homestead: bool, tx: Tx) {
    && tx.to.Some? && st.paysFor(tx.sender, tx) && tx.value <= st.balanceOf(tx.sender)
    && var grant := st.contractGasLimit(tx.to.value);
    && tx.price * grant <= st.balanceOf(st.creatorOrSelf(tx.to.value)) && grant <= maxGas && tx.contractGas <= maxGas
    && UpFront(tx.data, false, homestead) <= grant && UpFront(tx.data, false, homestead) < 0x1_0000_0000_0000_0000
  }

  /** What validation asks, in the order in which it does. */
  ghost predicate Check(st: ChainState, maxGas: nat, gasPrice: nat, local: bool, homestead: bool, tx: Tx, k: nat) {
    var due := UpFront(tx.data, tx.to.None?, homestead);
    var sponsored := tx.gasLimit == 0 && tx.to.Some? && st.paysFor(tx.sender, tx);
    var grant := if sponsored then st.contractGasLimit(tx.to.value) else tx.gasLimit;
    match k
    case 0 => tx.form.size <= 32768
    case 1 => !tx.form.negative
    case 2 => (if tx.gasLimit > 0 then tx.gasLimit else tx.contractGas) <= maxGas
    case 3 => tx.form.signed
    case 4 => local || gasPrice <= tx.price
    case 5 => st.nonceOf(tx.sender) <= tx.nonce
    case 6 => tx.gasLimit > 0 || sponsored
    case 7 => grant <= maxGas
    case 8 => sponsored ==> tx.price * grant <= st.balanceOf(st.creatorOrSelf(tx.to.value))
    case 9 => tx.value + tx.price * tx.gasLimit <= st.balanceOf(tx.sender)
    case 10 => due < 0x1_0000_0000_0000_0000
    case _ => due <= grant
  }

  function Failure(k: nat): TxError {
    match k
    case 0 => OversizedData
    case 1 => NegativeValue
    case 2 => GasLimitExceeded
    case 3 => InvalidSender
    case 4 => BelowPriceFloor
    case 5 => NonceTooLow
    case 6 => NotPaidByContract
    case 7 => GasLimitExceeded
    case 8 => ContractInsufficientFunds
    case 9 => InsufficientFunds
    case 10 => OutOfGas
    case _ => IntrinsicGasTooLow
  }

  /** A refusal names the first check that fails. */
  lemma RefusedFor(st: ChainState, maxGas: nat, gasPrice: nat, local: bool, homestead: bool, tx: Tx, k: nat)
    requires k < 12 && !Check(st, maxGas, gasPrice, local, homestead, tx, k)
    requires forall j :: 0 <= j < k ==> Check(st, maxGas, gasPrice, local, homestead, tx, j)
    ensures Validate(st, maxGas, gasPrice, local, homestead, tx) == Some(Failure(k))
  {
    var passed := (j: nat) => Check(st, maxGas, gasPrice, local, homestead, tx, j);
    assert (0 < k ==> passed(0)) && (1 < k ==> passed(1)) && (2 < k ==> passed(2)) && (3 < k ==> passed(3));
    assert (4 < k ==> passed(4)) && (5 < k ==> passed(5));
    if k > 5 {
      assert (6 < k ==> passed(6)) && (7 < k ==> passed(7)) && (8 < k ==> passed(8)) && (9 < k ==> passed(9));
      assert 10 < k ==> passed(10);
      RefusedForMeans(st, maxGas, gasPrice, local, homestead, tx, k);
    }
  }

  /** The checks of what the transaction costs. */
  lemma RefusedForMeans(st: ChainState, maxGas: nat, gasPrice: nat, local: bool, homestead: bool, tx: Tx, k: nat)
    requires 6 <= k < 12 && !Check(st, maxGas, gasPrice, local, homestead, tx, k)
    requires Check(st, maxGas, gasPrice, local, homestead, tx, 2)
    requires 6 < k ==> Check(st, maxGas, gasPrice, local, homestead, tx, 6)
    requires 7 < k ==> Check(st, maxGas, gasPrice, local, homestead, tx, 7)
    requires 8 < k ==> Check(st, maxGas, gasPrice, local, homestead, tx, 8)
    requires 9 < k ==> Check(st, maxGas, gasPrice, local, homestead, tx, 9)
    requires 10 < k ==> Check(st, maxGas, gasPrice, local, homestead, tx, 10)
    ensures k < 10 ==> ValidateFunds(st, maxGas, tx) == Some(Failure(k))
    ensures k >= 10 ==>
              && ValidateFunds(st, maxGas, tx).None?
              && var need := Intrinsic(tx.data, tx.to.None?, homestead);
                 if k == 10 then need.None? else need.Some? && GrantedGas(st, tx) < need.value
  {
    NonZerosCount(tx.data);
  }

  /** A head state in which account 3 created contract 2, pays for calls to it, and has so much to pay with. */
  function Sponsored(funds: nat): ChainState {
    ChainState(a => 0, a => if a == 3 then funds else 0, a => 0, a => a == 2, a => 3, a => 3, a => 50_000,
               (a, tx) => true)
  }

  /** A call to that contract that leaves the gas to its creator. */
  function SponsoredCall(price: nat): Tx {
    Tx(1, 0, price, 0, 0, Some(2), [1], 50_000, Form(110, false, true))
  }

  /** While the creator can pay, such a call is admitted. */
  lemma SponsoredCallAdmitted(price: nat, funds: nat)
    requires price > 0 && funds >= price * 50_000
    ensures Validate(Sponsored(funds), 8_000_000, 1, false, true, SponsoredCall(price)).None?
  {
    assert NonZeros([1]) == 1 by {
      assert [1][..0] == [];
    }
    assert IntrinsicNeed([1], false, true) == 21_068;
    assert ValidateFunds(Sponsored(funds), 8_000_000, SponsoredCall(price)).None?;
  }

  /**
   Once the creator cannot pay, the filter of the head reset skips the list that the
   call was put in, and it stays.
   */
  lemma SkipCanKeepUnpayable(price: nat, funds: nat)
    requires funds < price * 50_000
    ensures var l, st := EmptyStrict.Added(SponsoredCall(price)), Sponsored(funds);
            && l.CapsBound() && l.Skips(st.balanceOf(1), 8_000_000)
            && l.Filtered(st, st.balanceOf(1), 8_000_000).items == map[0 := SponsoredCall(price)]
            && Unpayable(st, SponsoredCall(price), st.balanceOf(1), 8_000_000)
  {
  }
}
