/**
 Transactions, their hashes, and the part of the chain state that the pool and
 the quota worker consult.
 */
module Transactions {
  type Address = nat

  datatype Option<+T> = None | Some(value: T)

  /** The encoded size, whether the value is negative, and whether the signature names the sender. */
  datatype Form = Form(size: nat, negative: bool, signed: bool)

  /**
   `contractGas` is what validation caches on a transaction that names no gas
   limit of its own and is paid for by the creator of the called contract.
   */
  datatype Tx = Tx(
    sender: Address,
    nonce: nat,
    price: nat,
    gasLimit: nat,
    value: nat,
    to: Option<Address>,
    data: seq<nat>,
    contractGas: nat,
    form: Form)
  {
    /** Gas is bought by the sender, not by the creator of the called contract. */
    predicate SelfPaying() { gasLimit != 0 }

    function Gas(): nat { if gasLimit > 0 then gasLimit else contractGas }

    function Cost(): nat { value + price * gasLimit }

    function Hash(): TxHash { Digest(this) }
  }

  /** A collision-free hash: equal hashes have equal preimages. */
  datatype TxHash = Digest(tx: Tx)

  /** The head state: account records and the contract registries behind `syscon`. */
  datatype ChainState = ChainState(
    nonceOf: Address -> nat,
    balanceOf: Address -> nat,
    totalReceived: Address -> nat,
    hasCode: Address -> bool,
    creatorOf: Address -> Address,
    creatorOrSelf: Address -> Address,
    contractGasLimit: Address -> nat,
    paysFor: (Address, Tx) -> bool)
  {
    /** `syscon.IsCallContract` */
    predicate IsCallContract(tx: Tx) {
      |tx.data| > 0 && tx.to.Some? && hasCode(tx.to.value)
    }
  }
}
