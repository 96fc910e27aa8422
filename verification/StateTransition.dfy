/**
 `GasPool`, `StateTransition` and the end of a transaction: gas is bought, used,
 refunded and returned to the block's pool, what the payer loses the coinbase
 gains, and accounts that destroyed themselves go with all they hold.  The
 virtual machine and the paying contracts are functions given from outside.
 */
module StateTransitions {
  import opened Admission
  import opened Transactions

  // ----- balances -----

  /** The sum of all balances. */
  ghost function Sum(m: map<Address, nat>): nat {
    if m == map[] then 0
    else
      var a :| a in m;
      m[a] + Sum(m - {a})
  }

  function BalanceOf(m: map<Address, nat>, a: Address): nat {
    if a in m then m[a] else 0
  }

  /** Taking out any one account takes out its balance, whichever the sum picked first. */
  lemma {:induction false} SumWithout(m: map<Address, nat>, a: Address)
    requires a in m
    ensures Sum(m) == m[a] + Sum(m - {a})
    decreases |m|
  {
    var b :| b in m && Sum(m) == m[b] + Sum(m - {b});
    if b != a {
      assert |(m - {b}).Keys| < |m.Keys| by {
        assert m.Keys == (m - {b}).Keys + {b};
      }
      assert |(m - {a}).Keys| < |m.Keys| by {
        assert m.Keys == (m - {a}).Keys + {a};
      }
      SumWithout(m - {b}, a);
      SumWithout(m - {a}, b);
      assert m - {b} - {a} == m - {a} - {b};
    }
  }

  lemma SumUpdate(m: map<Address, nat>, a: Address, v: nat)
    ensures Sum(m[a := v]) == Sum(m) - BalanceOf(m, a) + v
  {
    SumWithout(m[a := v], a);
    if a in m {
      SumWithout(m, a);
      assert m[a := v] - {a} == m - {a};
    } else {
      assert m[a := v] - {a} == m;
    }
  }

  /** Deleting accounts that hold nothing takes nothing out of the sum. */
  lemma {:induction false} SumWithoutPoor(m: map<Address, nat>, poor: set<Address>)
    requires forall a :: a in poor ==> BalanceOf(m, a) == 0
    ensures Sum(m - poor) == Sum(m)
    decreases |poor|
  {
    if poor == {} {
      assert m - poor == m;
    } else {
      var a :| a in poor;
      SumWithoutPoor(m, poor - {a});
      var rest := m - (poor - {a});
      if a in rest {
        SumWithout(rest, a);
        assert rest - {a} == m - poor;
      } else {
        assert rest == m - poor;
      }
    }
  }

  /** A balance raised before some accounts are deleted is lost exactly if its account is among them. */
  lemma SumRaisedWithout(m: map<Address, nat>, a: Address, v: nat, gone: set<Address>)
    ensures Sum(m[a := BalanceOf(m, a) + v] - gone) == Sum(m - gone) + if a in gone then 0 else v
  {
    if a in gone {
      assert m[a := BalanceOf(m, a) + v] - gone == m - gone;
    } else {
      assert m[a := BalanceOf(m, a) + v] - gone == (m - gone)[a := BalanceOf(m, a) + v];
      SumUpdate(m - gone, a, BalanceOf(m, a) + v);
    }
  }

  /** Balances, nonces, and the code and storage of contracts, which only the machine looks into. */
  datatype World = World(balances: map<Address, nat>, nonces: map<Address, nat>, code: map<Address, seq<nat>>,
                         storage: map<Address, map<nat, nat>>)
  {
    function Credit(a: Address, v: nat): World {
      this.(balances := balances[a := BalanceOf(balances, a) + v])
    }

    function Debit(a: Address, v: nat): World
      requires v <= BalanceOf(balances, a)
    {
      this.(balances := balances[a := BalanceOf(balances, a) - v])
    }

    function NonceOf(a: Address): nat {
      if a in nonces then nonces[a] else 0
    }

    predicate Empty(a: Address) {
      NonceOf(a) == 0 && BalanceOf(balances, a) == 0 && a !in code
    }

    function Delete(gone: set<Address>): World {
      World(balances - gone, nonces - gone, code - gone, storage - gone)
    }

    ghost function Wealth(): nat { Sum(balances) }
  }

  // ----- the block's gas pool -----

  class GasPool {
    var gas: nat

    constructor ()
      ensures gas == 0
    {
      gas := 0;
    }

    /** Adding more than fits in 64 bits panics. */
    method AddGas(amount: nat)
      requires gas <= MAX_UINT64 - amount
      modifies this
      ensures gas == old(gas) + amount
    {
      gas := gas + amount;
    }

    method SubGas(amount: nat) returns (ok: bool)
      modifies this
      ensures ok <==> amount <= old(gas)
      ensures gas == if ok then old(gas) - amount else old(gas)
    {
      if gas < amount {
        return false;
      }
      gas := gas - amount;
      return true;
    }
  }

  // ----- one transaction -----

  datatype Message = Message(from: Address, to: Option<Address>, nonce: nat, value: nat, gas: nat, price: nat,
                             data: seq<nat>, checkNonce: bool)

  datatype VmError = NoError | InsufficientBalance | Reverted

  /**
   What an execution leaves behind: the state, unused gas, the refund counter, the
   accounts that destroyed themselves, those it touched at all, and its logs.
   */
  datatype Outcome = Outcome(world: World, gasLeft: nat, refund: nat, error: VmError,
                             destroyed: set<Address>, touched: set<Address>, logs: seq<seq<nat>>)

  datatype TransitionError =
    NotPaid | NonceTooHigh | NonceBelow | InsufficientForGas | GasLimitReached | TooLittleGas | TransferFailed

  datatype Transition = Failed(error: TransitionError) | Done(usedGas: nat, reverted: bool)

  /**
   The machine run on a message, who pays for messages that name no gas limit and
   how much gas they get, the address of a created contract, whom the registry names
   as the creator of a contract, and the rules in force.
   */
  datatype Env = Env(
    run: (World, Message, nat) -> Outcome,
    sponsor: (World, Message) -> Option<(Address, nat)>,
    create: (Address, nat) -> Address,
    creatorOf: (World, Address) -> Address,
    coinbase: Address,
    homestead: bool,
    deleteEmpty: bool)
  {
    /** The machine never returns more gas than it was given; gas limits fit in 64 bits. */
    ghost predicate Sound() {
      && (forall w, m, g :: run(w, m, g).gasLeft <= g)
      && (forall w, m :: sponsor(w, m).Some? ==> sponsor(w, m).value.1 <= MAX_UINT64)
    }
  }

  function Fee(gas: nat, price: nat): nat { gas * price }

  /** What is charged of the gas bought: what was spent, less a refund of at most half. */
  function Charged(bought: nat, left: nat, counter: nat): (used: nat)
    requires left <= bought
    ensures used <= bought && 2 * used >= bought - left
  {
    var spent := bought - left;
    spent - if counter < spent / 2 then counter else spent / 2
  }

  /** The payer gets back what was not charged, the coinbase the rest. */
  function Paid(w: World, payer: Address, coinbase: Address, bought: nat, used: nat, price: nat): World
    requires used <= bought
  {
    w.Credit(payer, Fee(bought - used, price)).Credit(coinbase, Fee(used, price))
  }

  // What a message does, as functions of the state it is applied to.

  function PayerOf(env: Env, w: World, m: Message): Address {
    if m.gas == 0 && env.sponsor(w, m).Some? then env.sponsor(w, m).value.0 else m.from
  }

  /** The message with the gas its sponsor grants if it names none. */
  function Funded(env: Env, w: World, m: Message): Message {
    if m.gas == 0 && env.sponsor(w, m).Some? then m.(gas := env.sponsor(w, m).value.1) else m
  }

  /** Somebody pays, the payer can, and the gas covers what is due up front. */
  predicate Affordable(env: Env, w: World, m: Message) {
    && (m.gas == 0 ==> env.sponsor(w, m).Some?)
    && Fee(Funded(env, w, m).gas, m.price) <= BalanceOf(w.balances, PayerOf(env, w, m))
    && Intrinsic(m.data, m.to.None?, env.homestead).Some?
    && IntrinsicNeed(m.data, m.to.None?, env.homestead) <= Funded(env, w, m).gas
  }

  /** The state handed to the machine: all gas is paid for, and a call has consumed its nonce. */
  function Given(env: Env, w: World, m: Message): World
    requires Affordable(env, w, m)
  {
    var paid := w.Debit(PayerOf(env, w, m), Fee(Funded(env, w, m).gas, m.price));
    if m.to.Some? then paid.(nonces := paid.nonces[m.from := paid.NonceOf(m.from) + 1]) else paid
  }

  function Ran(env: Env, w: World, m: Message): Outcome
    requires Affordable(env, w, m)
  {
    var m' := Funded(env, w, m);
    env.run(Given(env, w, m), m', m'.gas - IntrinsicNeed(m.data, m.to.None?, env.homestead))
  }

  /**
   By how much the machine changed the wealth of all accounts together, where what
   accounts that destroyed themselves hold when it stops is gone.
   */
  ghost function MadeBy(env: Env, w: World, m: Message): int
    requires Affordable(env, w, m)
  {
    Ran(env, w, m).world.Delete(Ran(env, w, m).destroyed).Wealth() - Given(env, w, m).Wealth()
  }

  /**
   The gas charged: what was spent, less a refund of at most half.  So at least
   half of what is due up front is always charged, and never more than was bought.
   */
  function Used(env: Env, w: World, m: Message): (used: nat)
    requires Affordable(env, w, m) && env.Sound()
    ensures used <= Funded(env, w, m).gas
    ensures 2 * used >= IntrinsicNeed(m.data, m.to.None?, env.homestead)
  {
    Charged(Funded(env, w, m).gas, Ran(env, w, m).gasLeft, Ran(env, w, m).refund)
  }

  function After(env: Env, w: World, m: Message): World
    requires Affordable(env, w, m) && env.Sound()
  {
    Paid(Ran(env, w, m).world, PayerOf(env, w, m), env.coinbase, Funded(env, w, m).gas, Used(env, w, m), m.price)
  }

  /** The message is accepted into a block with so much gas left. */
  predicate Accepts(env: Env, w: World, m: Message, pool: nat) {
    && Affordable(env, w, m)
    && (m.checkNonce ==> w.NonceOf(m.from) == m.nonce)
    && Funded(env, w, m).gas <= pool
    && !Ran(env, w, m).error.InsufficientBalance?
  }

  /** The accounts a transaction changed. */
  function Dirty(env: Env, w: World, m: Message): set<Address>
    requires Affordable(env, w, m)
  {
    Ran(env, w, m).destroyed + Ran(env, w, m).touched + {PayerOf(env, w, m), m.from, env.coinbase}
  }

  /** Of the changed accounts, those that destroyed themselves and, under newer rules, those left empty. */
  function Doomed(w: World, dirties: set<Address>, destroyed: set<Address>, deleteEmpty: bool): set<Address> {
    set a | a in dirties && (a in destroyed || (deleteEmpty && w.Empty(a)))
  }

  /** The accounts deleted when a transaction ends. */
  function Gone(env: Env, w: World, m: Message): set<Address>
    requires Affordable(env, w, m) && env.Sound()
  {
    Doomed(After(env, w, m), Dirty(env, w, m), Ran(env, w, m).destroyed, env.deleteEmpty)
  }

  /** The state the next transaction starts from. */
  function Finalised(env: Env, w: World, m: Message): World
    requires Affordable(env, w, m) && env.Sound()
  {
    After(env, w, m).Delete(Gone(env, w, m))
  }

  /** What is refunded or paid to an account that is then deleted. */
  ghost function Burnt(env: Env, w: World, m: Message): nat
    requires Affordable(env, w, m) && env.Sound()
  {
    var used, gone := Used(env, w, m), Ran(env, w, m).destroyed;
    (if PayerOf(env, w, m) in gone then Fee(Funded(env, w, m).gas - used, m.price) else 0)
    + if env.coinbase in gone then Fee(used, m.price) else 0
  }

  /** Gas is free, or neither the coinbase nor a payer with a refund destroyed itself. */
  predicate Spares(env: Env, w: World, m: Message)
    requires Affordable(env, w, m) && env.Sound()
  {
    var gone := Ran(env, w, m).destroyed;
    m.price == 0 || (env.coinbase !in gone && (PayerOf(env, w, m) in gone ==> Used(env, w, m) == Funded(env, w, m).gas))
  }

  /**
   Buying, refunding and paying the coinbase move balances about, whoever pays;
   only what they put on an account that is then deleted is lost.
   */
  lemma FeesCancel(env: Env, w: World, m: Message)
    requires Affordable(env, w, m) && env.Sound()
    ensures Finalised(env, w, m).Wealth() == w.Wealth() + MadeBy(env, w, m) - Burnt(env, w, m)
    ensures Finalised(env, w, m).Wealth() == w.Wealth() + MadeBy(env, w, m) <==> Spares(env, w, m)
  {
    var payer, bought, used := PayerOf(env, w, m), Funded(env, w, m).gas, Used(env, w, m);
    var gone := Ran(env, w, m).destroyed;
    BoughtWealth(env, w, m);
    PaidAdds(Ran(env, w, m).world, payer, env.coinbase, bought, used, m.price, gone);
    DeletedWealth(After(env, w, m), Dirty(env, w, m), gone, env.deleteEmpty);
    BurntIff(env, w, m);
  }

  lemma BoughtWealth(env: Env, w: World, m: Message)
    requires Affordable(env, w, m)
    ensures Given(env, w, m).Wealth() == w.Wealth() - Fee(Funded(env, w, m).gas, m.price)
  {
    var payer := PayerOf(env, w, m);
    SumUpdate(w.balances, payer, BalanceOf(w.balances, payer) - Fee(Funded(env, w, m).gas, m.price));
  }

  /** Deleting empty accounts beside the destroyed ones makes no difference to the wealth. */
  lemma DeletedWealth(w: World, dirties: set<Address>, destroyed: set<Address>, deleteEmpty: bool)
    requires destroyed <= dirties
    ensures w.Delete(Doomed(w, dirties, destroyed, deleteEmpty)).Wealth() == w.Delete(destroyed).Wealth()
  {
    var doomed := Doomed(w, dirties, destroyed, deleteEmpty);
    SumWithoutPoor(w.balances - destroyed, doomed - destroyed);
    assert w.balances - doomed == w.balances - destroyed - (doomed - destroyed);
  }

  /** Some gas is always charged, so the coinbase gets nothing only if gas is free. */
  lemma BurntIff(env: Env, w: World, m: Message)
    requires Affordable(env, w, m) && env.Sound()
    ensures Burnt(env, w, m) == 0 <==> Spares(env, w, m)
  {
    FreeIff(Used(env, w, m), m.price);
    FreeIff(Funded(env, w, m).gas - Used(env, w, m), m.price);
  }

  lemma FreeIff(gas: nat, price: nat)
    ensures Fee(gas, price) == 0 <==> gas == 0 || price == 0
  {
  }

  lemma CreditDeleted(w: World, a: Address, v: nat, gone: set<Address>)
    ensures w.Credit(a, v).Delete(gone).Wealth() == w.Delete(gone).Wealth() + if a in gone then 0 else v
  {
    SumRaisedWithout(w.balances, a, v, gone);
  }

  lemma PaidAdds(w: World, payer: Address, coinbase: Address, bought: nat, used: nat, price: nat, gone: set<Address>)
    requires used <= bought
    ensures Paid(w, payer, coinbase, bought, used, price).Delete(gone).Wealth() ==
              w.Delete(gone).Wealth() + Fee(bought, price)
              - (if payer in gone then Fee(bought - used, price) else 0)
              - (if coinbase in gone then Fee(used, price) else 0)
  {
    Shares(used, bought, price);
    CreditDeleted(w, payer, Fee(bought - used, price), gone);
    CreditDeleted(w.Credit(payer, Fee(bought - used, price)), coinbase, Fee(used, price), gone);
  }

  // ----- the same said of accounts, one by one -----

  /** Who is to pay for a message: the sponsor for one that names no gas, else its sender. */
  ghost predicate Pays(env: Env, w: World, m: Message, payer: Address, bought: nat) {
    if m.gas == 0 then env.sponsor(w, m) == Some((payer, bought)) else payer == m.from && bought == m.gas
  }

  /** `w'` differs from `w` in the balance of `payer`, which is `cost` less, and for a call in its sender's nonce. */
  ghost predicate HandedOver(w: World, w': World, m: Message, payer: Address, cost: nat) {
    && (forall a :: BalanceOf(w'.balances, a) + (if a == payer then cost else 0) == BalanceOf(w.balances, a))
    && (forall a :: w'.NonceOf(a) == w.NonceOf(a) + if m.to.Some? && a == m.from then 1 else 0)
    && w'.code == w.code && w'.storage == w.storage
  }

  /** `w'` differs from `w` in balances alone: the payer has `back` more and the coinbase `fee` more. */
  ghost predicate SettledUp(w: World, w': World, payer: Address, back: nat, coinbase: Address, fee: nat) {
    && (forall a :: BalanceOf(w'.balances, a) ==
          BalanceOf(w.balances, a) + (if a == payer then back else 0) + if a == coinbase then fee else 0)
    && w'.nonces == w.nonces && w'.code == w.code && w'.storage == w.storage
  }

  /** `used` of `spent` gas is charged: what was spent less the refund counter, but at least half, rounded up. */
  ghost predicate Refunded(spent: nat, counter: nat, used: nat) {
    if 2 * counter <= spent then used == spent - counter else spent <= 2 * used <= spent + 1
  }

  /**
   Why a message fails, in the order of the tests: nobody pays, its nonce is above or
   below the sender's, the payer cannot pay, the pool is too small, the gas does not
   cover what is due up front, the value cannot be transferred.
   */
  ghost predicate FailsWith(env: Env, w: World, m: Message, pool: nat, payer: Address, bought: nat,
                            error: TransitionError) {
    var nonceOk := m.checkNonce ==> w.NonceOf(m.from) == m.nonce;
    if m.gas == 0 && env.sponsor(w, m).None? then error == NotPaid
    else if !nonceOk then error == if w.NonceOf(m.from) < m.nonce then NonceTooHigh else NonceBelow
    else if bought * m.price > BalanceOf(w.balances, payer) then error == InsufficientForGas
    else if bought > pool then error == GasLimitReached
    else if IntrinsicNeed(m.data, m.to.None?, env.homestead) > bought
            || IntrinsicNeed(m.data, m.to.None?, env.homestead) > MAX_UINT64
    then error == TooLittleGas
    else error == TransferFailed
  }

  lemma GivenIsHandedOver(env: Env, w: World, m: Message, payer: Address, bought: nat)
    requires Affordable(env, w, m) && Pays(env, w, m, payer, bought)
    ensures HandedOver(w, Given(env, w, m), m, payer, bought * m.price)
  {
  }

  lemma PaidIsSettledUp(w: World, payer: Address, coinbase: Address, bought: nat, used: nat, price: nat)
    requires used <= bought
    ensures SettledUp(w, Paid(w, payer, coinbase, bought, used, price), payer, (bought - used) * price, coinbase,
                      used * price)
  {
  }

  lemma ChargedIsRefunded(bought: nat, left: nat, counter: nat)
    requires left <= bought
    ensures Refunded(bought - left, counter, Charged(bought, left, counter))
  {
  }

  /**
   The machine ran on `given`, in which the payer has paid for `bought` gas, with what
   is left of that gas after what is due up front.
   */
  ghost predicate RanOn(env: Env, w: World, m: Message, payer: Address, bought: nat, given: World, outcome: Outcome) {
    var need := IntrinsicNeed(m.data, m.to.None?, env.homestead);
    && Pays(env, w, m, payer, bought) && HandedOver(w, given, m, payer, bought * m.price)
    && need <= bought && outcome == env.run(given, m.(gas := bought), bought - need)
  }

  /** After the machine, `used` gas was charged, and the payer got the rest back and the coinbase its price. */
  ghost predicate CarriedOut(env: Env, w: World, m: Message, payer: Address, bought: nat, given: World,
                             outcome: Outcome, used: nat, w': World) {
    && RanOn(env, w, m, payer, bought, given, outcome)
    && used <= bought && outcome.gasLeft <= bought && Refunded(bought - outcome.gasLeft, outcome.refund, used)
    && SettledUp(outcome.world, w', payer, (bought - used) * m.price, env.coinbase, used * m.price)
  }

  lemma TransitionMeans(env: Env, w: World, m: Message, payer: Address, bought: nat)
    requires Affordable(env, w, m) && env.Sound() && Pays(env, w, m, payer, bought)
    ensures CarriedOut(env, w, m, payer, bought, Given(env, w, m), Ran(env, w, m), Used(env, w, m), After(env, w, m))
  {
    GivenIsHandedOver(env, w, m, payer, bought);
    assert m.(gas := bought) == Funded(env, w, m);
    ChargedIsRefunded(bought, Ran(env, w, m).gasLeft, Ran(env, w, m).refund);
    PaidIsSettledUp(Ran(env, w, m).world, payer, env.coinbase, bought, Used(env, w, m), m.price);
  }

  class StateTransition {
    const env: Env
    const gp: GasPool
    var msg: Message
    var world: World
    var gas: nat
    var initialGas: nat
    var outcome: Outcome

    constructor (env: Env, msg: Message, world: World, gp: GasPool)
      ensures this.env == env && this.msg == msg && this.world == world && this.gp == gp && gas == 0
    {
      this.env, this.msg, this.world, this.gp := env, msg, world, gp;
      gas, initialGas := 0, 0;
      outcome := Outcome(world, 0, 0, NoError, {}, {}, []);
    }

    method BuyGas(payer: Address) returns (error: Option<TransitionError>)
      requires gas == 0
      modifies this`gas, this`initialGas, this`world, gp
      ensures error.None? <==>
                Fee(msg.gas, msg.price) <= BalanceOf(old(world).balances, payer) && msg.gas <= old(gp.gas)
      ensures error.None? ==>
                && gas == initialGas == msg.gas && gp.gas == old(gp.gas) - msg.gas
                && world == old(world).Debit(payer, Fee(msg.gas, msg.price))
      ensures error.Some? ==>
                && gp.gas == old(gp.gas) && world == old(world)
                && error.value == if msg.gas * msg.price > BalanceOf(old(world).balances, payer)
                                  then InsufficientForGas else GasLimitReached
    {
      var mgval := Fee(msg.gas, msg.price);
      if BalanceOf(world.balances, payer) < mgval {
        return Some(InsufficientForGas);
      }
      var ok := gp.SubGas(msg.gas);
      if !ok {
        return Some(GasLimitReached);
      }
      gas := gas + msg.gas;
      initialGas := msg.gas;
      world := world.Debit(payer, mgval);
      return None;
    }

    method PreCheck(payer: Address) returns (error: Option<TransitionError>)
      requires gas == 0
      modifies this`gas, this`initialGas, this`world, gp
      ensures error.None? <==>
                && (msg.checkNonce ==> old(world).NonceOf(msg.from) == msg.nonce)
                && Fee(msg.gas, msg.price) <= BalanceOf(old(world).balances, payer) && msg.gas <= old(gp.gas)
      ensures error.None? ==>
                && gas == initialGas == msg.gas && gp.gas == old(gp.gas) - msg.gas
                && world == old(world).Debit(payer, Fee(msg.gas, msg.price))
      ensures error.Some? ==>
                && gp.gas == old(gp.gas) && world == old(world)
                && error.value ==
                     if msg.checkNonce && old(world).NonceOf(msg.from) < msg.nonce then NonceTooHigh
                     else if msg.checkNonce && old(world).NonceOf(msg.from) > msg.nonce then NonceBelow
                     else if msg.gas * msg.price > BalanceOf(old(world).balances, payer) then InsufficientForGas
                     else GasLimitReached
    {
      if msg.checkNonce {
        var nonce := world.NonceOf(msg.from);
        if nonce < msg.nonce {
          return Some(NonceTooHigh);
        } else if nonce > msg.nonce {
          return Some(NonceBelow);
        }
      }
      error := BuyGas(payer);
    }

    /** Returns unused gas, and part of the used, to the payer and the pool. */
    method RefundGas(payer: Address, counter: nat)
      requires gas <= initialGas && gp.gas + initialGas <= MAX_UINT64
      modifies this`gas, this`world, gp
      ensures gas == initialGas - Charged(initialGas, old(gas), counter)
      ensures gas <= initialGas && gp.gas == old(gp.gas) + gas
      ensures world == old(world).Credit(payer, Fee(gas, msg.price))
    {
      var refund := (initialGas - gas) / 2;
      if refund > counter {
        refund := counter;
      }
      gas := gas + refund;
      world := world.Credit(payer, Fee(gas, msg.price));
      gp.AddGas(gas);
    }

    /**
     Applies the message.  It fails exactly if somebody cannot pay, the nonce is
     off, the pool is too small or the transfer fails; otherwise the pool loses
     exactly the gas charged.  `buyer` buys `bought` gas, the machine runs on `given`, and
     what it leaves differs from the end only in what `buyer` gets back and what the
     coinbase is paid.
     */
    method TransitionDb() returns (r: Transition, ghost given: World, ghost buyer: Address, ghost bought: nat)
      requires env.Sound() && gas == 0 && msg.gas <= MAX_UINT64 && gp.gas <= MAX_UINT64
      modifies this, gp
      ensures r.Done? <==> Accepts(env, old(world), old(msg), old(gp.gas))
      ensures r.Done? ==>
                && world == After(env, old(world), old(msg)) && outcome == Ran(env, old(world), old(msg))
                && r == Done(Used(env, old(world), old(msg)), outcome.error != NoError)
                && gp.gas + r.usedGas == old(gp.gas)
      ensures r.Done? ==>
                && CarriedOut(env, old(world), old(msg), buyer, bought, given, outcome, r.usedGas, world)
                && (r.reverted <==> outcome.error.Reverted?) && !outcome.error.InsufficientBalance?
                && (old(msg).checkNonce ==> old(world).NonceOf(old(msg).from) == old(msg).nonce)
                && bought <= old(gp.gas)
      ensures r == Failed(TransferFailed) ==>
                && RanOn(env, old(world), old(msg), buyer, bought, given, outcome)
                && outcome.error.InsufficientBalance?
      ensures r.Failed? ==>
                && (r.error != NotPaid ==> Pays(env, old(world), old(msg), buyer, bought))
                && FailsWith(env, old(world), old(msg), old(gp.gas), buyer, bought, r.error)
    {
      ghost var w0, m0 := world, msg;
      given, buyer, bought := world, msg.from, msg.gas;
      var paid, payer := TakePayer();
      if !paid {
        r := Failed(NotPaid);
        return;
      }
      buyer, bought := payer, msg.gas;
      var error := PreCheck(payer);
      if error.Some? {
        r := Failed(error.value);
        return;
      }
      r, given := Complete(payer, w0, m0);
    }

    /** Finds out who pays; a message that names no gas gets what its sponsor grants. */
    method TakePayer() returns (paid: bool, payer: Address)
      modifies this`msg
      ensures paid <==> old(msg).gas > 0 || env.sponsor(world, old(msg)).Some?
      ensures paid ==>
                && Pays(env, world, old(msg), payer, msg.gas) && msg == old(msg).(gas := msg.gas)
                && payer == PayerOf(env, world, old(msg)) && msg == Funded(env, world, old(msg))
    {
      paid, payer := true, msg.from;
      if msg.gas == 0 {
        var sponsor := env.sponsor(world, msg);
        if sponsor.None? {
          paid := false;
          return;
        }
        payer := sponsor.value.0;
        msg := msg.(gas := sponsor.value.1);
      }
    }

    /** Carries out a message for which all gas has been bought. */
    method Complete(payer: Address, ghost w0: World, ghost m0: Message) returns (r: Transition, ghost given: World)
      requires env.Sound() && (m0.gas == 0 ==> env.sponsor(w0, m0).Some?) && Pays(env, w0, m0, payer, msg.gas)
      requires payer == PayerOf(env, w0, m0) && msg == Funded(env, w0, m0) && gas == initialGas == msg.gas
      requires Fee(msg.gas, msg.price) <= BalanceOf(w0.balances, payer)
      requires world == w0.Debit(payer, Fee(msg.gas, msg.price))
      requires gp.gas + msg.gas <= MAX_UINT64
      modifies this`gas, this`world, this`outcome, gp
      ensures r.Done? <==> Affordable(env, w0, m0) && !Ran(env, w0, m0).error.InsufficientBalance?
      ensures r.Done? ==>
                && world == After(env, w0, m0) && outcome == Ran(env, w0, m0)
                && r == Done(Used(env, w0, m0), outcome.error != NoError)
                && gp.gas + r.usedGas == old(gp.gas) + msg.gas
                && CarriedOut(env, w0, m0, payer, msg.gas, given, outcome, r.usedGas, world)
      ensures r.Failed? ==> r.error.TransferFailed? || r.error.TooLittleGas?
      ensures r == Failed(TransferFailed) ==>
                RanOn(env, w0, m0, payer, msg.gas, given, outcome) && outcome.error.InsufficientBalance?
      ensures r == Failed(TooLittleGas) <==>
                var need := IntrinsicNeed(m0.data, m0.to.None?, env.homestead); need > msg.gas || need > MAX_UINT64
    {
      given := world;
      r := Execute(payer, w0, m0);
      if Affordable(env, w0, m0) {
        given := Given(env, w0, m0);
        TransitionMeans(env, w0, m0, payer, msg.gas);
      }
    }

    /** The part of `TransitionDb` after all gas has been bought. */
    method Execute(payer: Address, ghost w0: World, ghost m0: Message) returns (r: Transition)
      requires env.Sound() && (m0.gas == 0 ==> env.sponsor(w0, m0).Some?)
      requires payer == PayerOf(env, w0, m0) && msg == Funded(env, w0, m0) && gas == initialGas == msg.gas
      requires Fee(msg.gas, msg.price) <= BalanceOf(w0.balances, payer)
      requires world == w0.Debit(payer, Fee(msg.gas, msg.price))
      requires gp.gas + msg.gas <= MAX_UINT64
      modifies this`gas, this`world, this`outcome, gp
      ensures r.Done? <==> Affordable(env, w0, m0) && !Ran(env, w0, m0).error.InsufficientBalance?
      ensures r.Done? ==>
                && world == After(env, w0, m0) && outcome == Ran(env, w0, m0)
                && r == Done(Used(env, w0, m0), outcome.error != NoError)
                && gp.gas + r.usedGas == old(gp.gas) + msg.gas
      ensures r.Failed? ==>
                if Affordable(env, w0, m0) then r.error == TransferFailed && outcome == Ran(env, w0, m0)
                else r.error == TooLittleGas
    {
      var need := IntrinsicGas(msg.data, msg.to.None?, env.homestead);
      if need.None? || gas < need.value {
        return Failed(TooLittleGas);
      }
      gas := gas - need.value;
      if msg.to.Some? {
        world := world.(nonces := world.nonces[msg.from := world.NonceOf(msg.from) + 1]);
      }
      assert Affordable(env, w0, m0) && world == Given(env, w0, m0);
      r := RunMachine(payer, w0, m0);
    }

    /** Runs the machine on what is left of the gas and settles. */
    method RunMachine(payer: Address, ghost w0: World, ghost m0: Message) returns (r: Transition)
      requires env.Sound() && Affordable(env, w0, m0) && payer == PayerOf(env, w0, m0) && msg == Funded(env, w0, m0)
      requires world == Given(env, w0, m0) && initialGas == msg.gas
      requires gas == initialGas - IntrinsicNeed(m0.data, m0.to.None?, env.homestead)
      requires gp.gas + msg.gas <= MAX_UINT64
      modifies this`gas, this`world, this`outcome, gp
      ensures r.Done? <==> !Ran(env, w0, m0).error.InsufficientBalance?
      ensures r.Failed? ==> r.error == TransferFailed && outcome == Ran(env, w0, m0)
      ensures r.Done? ==>
                && world == After(env, w0, m0) && outcome == Ran(env, w0, m0)
                && r == Done(Used(env, w0, m0), outcome.error != NoError)
                && gp.gas + r.usedGas == old(gp.gas) + msg.gas
    {
      outcome := env.run(world, msg, gas);
      world, gas := outcome.world, outcome.gasLeft;
      if outcome.error.InsufficientBalance? {
        return Failed(TransferFailed);
      }
      Settle(payer, outcome.refund);
      return Done(initialGas - gas, outcome.error != NoError);
    }

    /** Refunds the payer and pays the coinbase. */
    method Settle(payer: Address, counter: nat)
      requires gas <= initialGas && gp.gas + initialGas <= MAX_UINT64
      modifies this`gas, this`world, gp
      ensures gas == initialGas - Charged(initialGas, old(gas), counter) && gp.gas == old(gp.gas) + gas
      ensures world == Paid(old(world), payer, env.coinbase, initialGas, Charged(initialGas, old(gas), counter),
                            msg.price)
    {
      RefundGas(payer, counter);
      world := world.Credit(env.coinbase, Fee(initialGas - gas, msg.price));
    }
  }

  lemma Shares(part: nat, whole: nat, price: nat)
    requires part <= whole
    ensures Fee(part, price) + Fee(whole - part, price) == Fee(whole, price)
  {
  }

  lemma DeleteMore(w: World, gone: set<Address>, a: Address)
    ensures w.Delete(gone).Delete({a}) == w.Delete(gone + {a})
    ensures a !in gone ==> (w.Delete(gone).Empty(a) <==> w.Empty(a))
  {
    assert w.balances - gone - {a} == w.balances - (gone + {a}) && w.nonces - gone - {a} == w.nonces - (gone + {a});
    assert w.code - gone - {a} == w.code - (gone + {a}) && w.storage - gone - {a} == w.storage - (gone + {a});
  }

  /**
   A changed account that destroyed itself, or under newer rules has neither nonce nor
   balance nor code, is gone without a trace; any other is as it was.
   */
  ghost predicate EndedAt(w: World, w': World, dirties: set<Address>, destroyed: set<Address>, deleteEmpty: bool,
                          a: Address) {
    var bare := w.NonceOf(a) == 0 && BalanceOf(w.balances, a) == 0 && a !in w.code;
    if a in dirties && (a in destroyed || (deleteEmpty && bare)) then
      a !in w'.balances && a !in w'.nonces && a !in w'.code && a !in w'.storage
    else
      && SameIn(w.balances, w'.balances, a) && SameIn(w.nonces, w'.nonces, a)
      && SameIn(w.code, w'.code, a) && SameIn(w.storage, w'.storage, a)
  }

  ghost predicate SameIn<T(!new)>(m: map<Address, T>, m': map<Address, T>, a: Address) {
    (a in m <==> a in m') && (a in m ==> m'[a] == m[a])
  }

  /**
   The state the next transaction starts from, account by account: of those the machine
   touched or destroyed, the payer, the sender and the coinbase, the destroyed and, under
   newer rules, the empty ones are gone; nothing else changed since the fees were settled.
   */
  lemma FinalisedMeans(env: Env, w: World, m: Message, payer: Address, bought: nat)
    requires Affordable(env, w, m) && env.Sound() && Pays(env, w, m, payer, bought)
    ensures var ran := Ran(env, w, m);
            forall a :: EndedAt(After(env, w, m), Finalised(env, w, m),
                                ran.destroyed + ran.touched + {payer, m.from, env.coinbase}, ran.destroyed,
                                env.deleteEmpty, a)
  {
  }

  /** Ends a transaction: goes through the changed accounts and deletes the doomed ones. */
  method Finalise(world: World, dirties: set<Address>, destroyed: set<Address>, deleteEmpty: bool)
    returns (world': World)
    ensures world' == world.Delete(Doomed(world, dirties, destroyed, deleteEmpty))
    ensures forall a :: EndedAt(world, world', dirties, destroyed, deleteEmpty, a)
  {
    world' := world;
    var todo := dirties;
    ghost var gone: set<Address> := {};
    while todo != {}
      invariant todo <= dirties && gone == Doomed(world, dirties - todo, destroyed, deleteEmpty)
      invariant world' == world.Delete(gone)
    {
      var a :| a in todo;
      DeleteMore(world, gone, a);
      if a in destroyed || (deleteEmpty && world'.Empty(a)) {
        world' := world'.Delete({a});
        gone := gone + {a};
      }
      todo := todo - {a};
    }
    assert dirties - {} == dirties;
  }
}
