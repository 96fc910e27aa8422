/**
 `StateProcessor.Process` and `SetReceiptsData`: the transactions of a block are
 applied one after the other to a state and a gas pool, each ends with the
 deletion of destroyed and empty accounts, and the receipts it leaves can be
 recovered from what their consensus encoding carries.
 */
module StateProcessors {
  import opened Admission
  import Mortgage
  import opened StateTransitions
  import opened Transactions

  datatype Place = Place(number: nat, hash: nat)

  datatype Log = Log(place: Place, txHash: nat, txIndex: nat, index: nat, payload: seq<nat>)

  datatype Receipt = Receipt(txHash: nat, contract: Option<Address>, gasUsed: nat, cumulative: nat, reverted: bool,
                             logs: seq<Log>)

  datatype BlockTx = BlockTx(hash: nat, msg: Message)

  // ----- gas sums -----

  function GasSum(rs: seq<Receipt>): nat {
    if rs == [] then 0 else GasSum(rs[..|rs| - 1]) + rs[|rs| - 1].gasUsed
  }

  /** Each receipt's cumulative gas is the sum of the gas used up to it. */
  ghost predicate PrefixSums(rs: seq<Receipt>) {
    forall i :: 0 <= i < |rs| ==> rs[i].cumulative == GasSum(rs[..i + 1])
  }

  lemma PrefixSumsMore(rs: seq<Receipt>, r: Receipt)
    requires PrefixSums(rs) && r.cumulative == GasSum(rs) + r.gasUsed
    ensures PrefixSums(rs + [r]) && GasSum(rs + [r]) == r.cumulative
  {
    var rs' := rs + [r];
    assert rs'[..|rs|] == rs && rs'[..|rs| + 1] == rs';
    forall i | 0 <= i < |rs'| ensures rs'[i].cumulative == GasSum(rs'[..i + 1]) {
      if i < |rs| {
        assert rs'[..i + 1] == rs[..i + 1];
      }
    }
  }

  // ----- what a block does, as functions of the state it is applied to -----

  /** The state after the transactions of a block. */
  function WorldAfter(env: Env, w: World, txs: seq<BlockTx>): World
    requires env.Sound()
  {
    if txs == [] then w
    else
      var n := |txs| - 1;
      var before := WorldAfter(env, w, txs[..n]);
      if Affordable(env, before, txs[n].msg) then Finalised(env, before, txs[n].msg) else before
  }

  /** What the machine made in a block. */
  ghost function MadeIn(env: Env, w: World, txs: seq<BlockTx>): int
    requires env.Sound()
  {
    if txs == [] then 0
    else
      var n := |txs| - 1;
      var before := WorldAfter(env, w, txs[..n]);
      MadeIn(env, w, txs[..n]) + if Affordable(env, before, txs[n].msg) then MadeBy(env, before, txs[n].msg) else 0
  }

  /** What the fees of a block put on accounts that were then deleted. */
  ghost function BurntIn(env: Env, w: World, txs: seq<BlockTx>): nat
    requires env.Sound()
  {
    if txs == [] then 0
    else
      var n := |txs| - 1;
      var before := WorldAfter(env, w, txs[..n]);
      BurntIn(env, w, txs[..n]) + if Affordable(env, before, txs[n].msg) then Burnt(env, before, txs[n].msg) else 0
  }

  /** The gas the transactions of a block are charged. */
  function UsedIn(env: Env, w: World, txs: seq<BlockTx>): nat
    requires env.Sound()
  {
    if txs == [] then 0
    else
      var n := |txs| - 1;
      var before := WorldAfter(env, w, txs[..n]);
      UsedIn(env, w, txs[..n]) + if Affordable(env, before, txs[n].msg) then Used(env, before, txs[n].msg) else 0
  }

  /** Every transaction is accepted in the state and with the gas that those before it leave. */
  ghost predicate BlockOk(env: Env, w: World, txs: seq<BlockTx>, gasLimit: nat)
    requires env.Sound()
  {
    forall i :: 0 <= i < |txs| ==> TxOk(env, w, txs, gasLimit, i)
  }

  ghost predicate TxOk(env: Env, w: World, txs: seq<BlockTx>, gasLimit: nat, i: nat)
    requires env.Sound() && i < |txs|
  {
    && UsedIn(env, w, txs[..i]) <= gasLimit
    && Accepts(env, WorldAfter(env, w, txs[..i]), txs[i].msg, gasLimit - UsedIn(env, w, txs[..i]))
  }

  ghost predicate OkUpTo(env: Env, w: World, txs: seq<BlockTx>, gasLimit: nat, n: nat)
    requires env.Sound() && n <= |txs|
  {
    forall i :: 0 <= i < n ==> TxOk(env, w, txs, gasLimit, i)
  }

  /** No transaction's fees end up on an account that it destroys. */
  ghost predicate AllSpare(env: Env, w: World, txs: seq<BlockTx>)
    requires env.Sound()
  {
    forall i :: 0 <= i < |txs| ==> SparesAt(env, w, txs, i)
  }

  ghost predicate SparesAt(env: Env, w: World, txs: seq<BlockTx>, i: nat)
    requires env.Sound() && i < |txs|
  {
    var before := WorldAfter(env, w, txs[..i]);
    Affordable(env, before, txs[i].msg) ==> Spares(env, before, txs[i].msg)
  }

  /**
   Over a whole block, fees only move balances about, except for what falls on
   accounts that are then deleted; that is nothing exactly if every transaction
   spares the accounts it pays.
   */
  lemma {:induction false} BlockFeesCancel(env: Env, w: World, txs: seq<BlockTx>)
    requires env.Sound()
    ensures WorldAfter(env, w, txs).Wealth() == w.Wealth() + MadeIn(env, w, txs) - BurntIn(env, w, txs)
    ensures BurntIn(env, w, txs) == 0 <==> AllSpare(env, w, txs)
    decreases |txs|
  {
    if txs != [] {
      var n := |txs| - 1;
      BlockFeesCancel(env, w, txs[..n]);
      var before := WorldAfter(env, w, txs[..n]);
      if Affordable(env, before, txs[n].msg) {
        FeesCancel(env, before, txs[n].msg);
      }
      AllSpareMore(env, w, txs);
    }
  }

  lemma AllSpareMore(env: Env, w: World, txs: seq<BlockTx>)
    requires env.Sound() && txs != []
    ensures var n := |txs| - 1; AllSpare(env, w, txs) <==> AllSpare(env, w, txs[..n]) && SparesAt(env, w, txs, n)
  {
    var n := |txs| - 1;
    forall i | 0 <= i < n ensures SparesAt(env, w, txs[..n], i) <==> SparesAt(env, w, txs, i) {
      assert txs[..n][..i] == txs[..i];
    }
  }

  // ----- a block whose coinbase destroys itself -----

  const MINER: Address := 7
  const USER: Address := 1

  /** A machine on which every call makes the called account destroy itself. */
  const SELF_DESTRUCT: Env := Env(
    (w: World, m: Message, gas: nat) =>
      Outcome(w, gas, 0, NoError, if m.to.Some? then {m.to.value} else {}, {}, []),
    (w: World, m: Message) => None, (a: Address, n: nat) => 0, (w: World, a: Address) => USER, MINER, true, true)

  const CALL: Message := Message(USER, Some(MINER), 0, 0, 100_000, 1, [], true)

  const BEFORE: World := World(map[USER := 1_000_000], map[], map[MINER := [0xFF]], map[])

  /** The call is accepted, makes nothing, and its fee goes to the coinbase that it destroys. */
  lemma CallBurns(env: Env, w: World, m: Message)
    requires env == SELF_DESTRUCT && w == BEFORE && m == CALL
    ensures env.Sound() && Accepts(env, w, m, 8_000_000) && MadeBy(env, w, m) == 0 && Burnt(env, w, m) == 21_000
  {
    assert Intrinsic([], false, true) == Some(21_000);
    assert Fee(100_000, 1) == 100_000;
    var given := Given(env, w, m);
    assert given.balances == map[USER := 900_000];
    assert given.Delete({MINER}).balances == given.balances;
    assert Used(env, w, m) == 21_000;
  }

  /** In a block of one transaction. */
  lemma OneInBlock(env: Env, w: World, tx: BlockTx, gasLimit: nat)
    requires env.Sound() && Accepts(env, w, tx.msg, gasLimit)
    ensures BlockOk(env, w, [tx], gasLimit) && MadeIn(env, w, [tx]) == MadeBy(env, w, tx.msg)
    ensures BurntIn(env, w, [tx]) == Burnt(env, w, tx.msg)
  {
    assert [tx][..0] == [];
  }

  /** The coinbase is a contract, and the one transaction of the block makes it destroy itself. */
  lemma CoinbaseCanBurn()
    ensures SELF_DESTRUCT.Sound()
    ensures var env, w, txs := SELF_DESTRUCT, BEFORE, [BlockTx(0, CALL)];
            && BlockOk(env, w, txs, 8_000_000) && MadeIn(env, w, txs) == 0
            && WorldAfter(env, w, txs).Wealth() == w.Wealth() - 21_000
  {
    CallBurns(SELF_DESTRUCT, BEFORE, CALL);
    OneInBlock(SELF_DESTRUCT, BEFORE, BlockTx(0, CALL), 8_000_000);
    BlockFeesCancel(SELF_DESTRUCT, BEFORE, [BlockTx(0, CALL)]);
  }

  // ----- logs -----

  /** The logs recorded so far, by transaction hash, and how many there are. */
  datatype Journal = Journal(logs: map<nat, seq<Log>>, size: nat)
  {
    function Of(hash: nat): seq<Log> {
      if hash in logs then logs[hash] else []
    }

    function Add(place: Place, txHash: nat, txIndex: nat, payload: seq<nat>): Journal {
      Journal(logs[txHash := Of(txHash) + [Log(place, txHash, txIndex, size, payload)]], size + 1)
    }
  }

  /** The logs of one transaction, numbered on from `start`. */
  function Labelled(payloads: seq<seq<nat>>, place: Place, txHash: nat, txIndex: nat, start: nat): seq<Log> {
    seq(|payloads|, k requires 0 <= k < |payloads| => Log(place, txHash, txIndex, start + k, payloads[k]))
  }

  /** Records the logs of one transaction. */
  method AddLogs(journal: Journal, place: Place, txHash: nat, txIndex: nat, payloads: seq<seq<nat>>)
    returns (journal': Journal)
    ensures journal'.size == journal.size + |payloads|
    ensures journal'.Of(txHash) == journal.Of(txHash) + Labelled(payloads, place, txHash, txIndex, journal.size)
    ensures forall h :: h != txHash ==> journal'.Of(h) == journal.Of(h)
  {
    journal' := journal;
    for k := 0 to |payloads|
      invariant journal'.size == journal.size + k
      invariant journal'.Of(txHash) ==
                  journal.Of(txHash) + Labelled(payloads, place, txHash, txIndex, journal.size)[..k]
      invariant forall h :: h != txHash ==> journal'.Of(h) == journal.Of(h)
    {
      journal' := journal'.Add(place, txHash, txIndex, payloads[k]);
    }
  }

  /** How many logs the transactions of a block leave. */
  function EmittedIn(env: Env, w: World, txs: seq<BlockTx>): nat
    requires env.Sound()
  {
    if txs == [] then 0
    else
      var n := |txs| - 1;
      var before := WorldAfter(env, w, txs[..n]);
      EmittedIn(env, w, txs[..n])
      + if Affordable(env, before, txs[n].msg) then |Ran(env, before, txs[n].msg).logs| else 0
  }

  ghost predicate Distinct(txs: seq<BlockTx>) {
    forall i, j :: 0 <= i < j < |txs| ==> txs[i].hash != txs[j].hash
  }

  // ----- receipts -----

  /** The address of the contract a transaction creates, if it creates one. */
  function Created(env: Env, tx: BlockTx): Option<Address> {
    if tx.msg.to.None? then Some(env.create(tx.msg.from, tx.msg.nonce)) else None
  }

  /** The receipt of a transaction applied to `w` after `usedGas` was used in its block. */
  function ReceiptOf(env: Env, w: World, tx: BlockTx, usedGas: nat, logs: seq<Log>): Receipt
    requires env.Sound() && Affordable(env, w, tx.msg)
  {
    var used := Used(env, w, tx.msg);
    Receipt(tx.hash, Created(env, tx), used, usedGas + used, Ran(env, w, tx.msg).error != NoError, logs)
  }

  /**
   The receipt of a transaction applied to `w` reports how the machine ended, what was
   charged, and what was created: it is marked reverted exactly if the machine ended
   with an error, and names a contract exactly if the transaction is sent to nobody.
   */
  ghost predicate ReportedAt(env: Env, w: World, tx: BlockTx, usedGas: nat, r: Receipt)
    requires env.Sound() && Affordable(env, w, tx.msg)
  {
    && r.txHash == tx.hash && r.gasUsed == Used(env, w, tx.msg) && r.cumulative == usedGas + r.gasUsed
    && r.contract == (if tx.msg.to.None? then Some(env.create(tx.msg.from, tx.msg.nonce)) else None)
    && (r.reverted <==> Ran(env, w, tx.msg).error != NoError)
  }

  /** The logs of receipt `i` are those the machine left, in order, numbered on from all before them in the block. */
  ghost predicate LoggedAt(env: Env, w: World, tx: BlockTx, place: Place, receipts: seq<Receipt>, i: nat)
    requires env.Sound() && Affordable(env, w, tx.msg) && i < |receipts|
  {
    var logs, left := receipts[i].logs, Ran(env, w, tx.msg).logs;
    && |logs| == |left|
    && forall k :: 0 <= k < |logs| ==> logs[k] == Log(place, tx.hash, i, LogCount(receipts[..i]) + k, left[k])
  }

  /** Receipt `j` is that of transaction `j`; its logs are exactly that transaction's, unless hashes repeat. */
  ghost predicate BookedAt(env: Env, w0: World, txs: seq<BlockTx>, place: Place, receipts: seq<Receipt>, j: nat)
    requires env.Sound() && j < |txs| && j < |receipts|
  {
    var before := WorldAfter(env, w0, txs[..j]);
    && Affordable(env, before, txs[j].msg)
    && receipts[j] == ReceiptOf(env, before, txs[j], UsedIn(env, w0, txs[..j]), receipts[j].logs)
    && (Distinct(txs) ==>
          receipts[j].logs ==
            Labelled(Ran(env, before, txs[j].msg).logs, place, txs[j].hash, j, EmittedIn(env, w0, txs[..j])))
  }

  /** State, logs and receipts after the first `i` transactions. */
  ghost predicate Booked(env: Env, w0: World, txs: seq<BlockTx>, place: Place, i: nat, w: World, journal: Journal,
                         receipts: seq<Receipt>)
    requires env.Sound()
  {
    && i <= |txs| && |receipts| == i && PrefixSums(receipts) && GasSum(receipts) == UsedIn(env, w0, txs[..i])
    && w == WorldAfter(env, w0, txs[..i]) && journal.size == EmittedIn(env, w0, txs[..i])
    && (forall j :: 0 <= j < i ==> BookedAt(env, w0, txs, place, receipts, j))
    && (Distinct(txs) ==> forall j :: i <= j < |txs| ==> journal.Of(txs[j].hash) == [])
  }

  lemma BookedMore(env: Env, w0: World, txs: seq<BlockTx>, place: Place, i: nat, w: World, journal: Journal,
                   receipts: seq<Receipt>, journal': Journal, r: Receipt)
    requires env.Sound() && Booked(env, w0, txs, place, i, w, journal, receipts)
    requires i < |txs| && Affordable(env, w, txs[i].msg)
    requires r == ReceiptOf(env, w, txs[i], GasSum(receipts), journal'.Of(txs[i].hash))
    requires Recorded(env, w, txs[i], place, i, journal, journal')
    ensures Booked(env, w0, txs, place, i + 1, Finalised(env, w, txs[i].msg), journal', receipts + [r])
    ensures GasSum(receipts + [r]) == GasSum(receipts) + r.gasUsed
  {
    assert txs[..i + 1][..i] == txs[..i];
    PrefixSumsMore(receipts, r);
    var rs := receipts + [r];
    forall j | 0 <= j < i + 1 ensures BookedAt(env, w0, txs, place, rs, j) {
      if j < i {
        assert BookedAt(env, w0, txs, place, receipts, j) && rs[j] == receipts[j];
      } else if Distinct(txs) {
        assert r.logs == Labelled(Ran(env, w, txs[i].msg).logs, place, txs[i].hash, i, journal.size);
      }
    }
  }

  /** The logs of transaction `i` have been recorded. */
  ghost predicate Recorded(env: Env, w: World, tx: BlockTx, place: Place, i: nat, journal: Journal, journal': Journal)
    requires Affordable(env, w, tx.msg)
  {
    var payloads := Ran(env, w, tx.msg).logs;
    && journal'.size == journal.size + |payloads|
    && journal'.Of(tx.hash) == journal.Of(tx.hash) + Labelled(payloads, place, tx.hash, i, journal.size)
    && (forall h :: h != tx.hash ==> journal'.Of(h) == journal.Of(h))
  }

  // ----- calls counted for their creators -----

  /** The creator for whom a message counts in the state it left, if it calls an ordinary contract. */
  function CallOf(env: Env, w: World, m: Message): Option<Address> {
    if |m.data| > 0 && m.to.Some? && m.to.value in w.code && !Mortgage.IsSystemContract(m.to.value)
    then Some(env.creatorOf(w, m.to.value)) else None
  }

  /** How many transactions of a block call contracts of creator `c`, each asked of the state it left. */
  function CallsIn(env: Env, w: World, txs: seq<BlockTx>, c: Address): nat
    requires env.Sound()
  {
    if txs == [] then 0
    else
      var n := |txs| - 1;
      CallsIn(env, w, txs[..n], c) + if CallOf(env, WorldAfter(env, w, txs), txs[n].msg) == Some(c) then 1 else 0
  }

  /** The counter has an entry for exactly the creators that were called, and it is the number of calls. */
  ghost predicate Tallied(env: Env, w: World, txs: seq<BlockTx>, counter: map<Address, nat>, c: Address)
    requires env.Sound()
  {
    (if c in counter then counter[c] else 0) == CallsIn(env, w, txs, c) && (c in counter ==> counter[c] > 0)
  }

  ghost predicate AllTallied(env: Env, w: World, txs: seq<BlockTx>, counter: map<Address, nat>)
    requires env.Sound()
  {
    forall c :: Tallied(env, w, txs, counter, c)
  }

  /** In the state it left, transaction `i` called a contract of `c` that is not a system contract. */
  ghost predicate CallsFor(env: Env, w: World, txs: seq<BlockTx>, c: Address, i: nat)
    requires env.Sound() && i < |txs|
  {
    var left, m := WorldAfter(env, w, txs[..i + 1]), txs[i].msg;
    && m.data != [] && m.to.Some? && m.to.value in left.code && env.creatorOf(left, m.to.value) == c
    && m.to.value / 256 != 0x10_000000_000000_000000_000000_000000_000000
  }

  ghost function CallersFor(env: Env, w: World, txs: seq<BlockTx>, c: Address): set<nat>
    requires env.Sound()
  {
    set i: nat | i < |txs| && CallsFor(env, w, txs, c, i)
  }

  lemma {:induction false} CallsAreCounted(env: Env, w: World, txs: seq<BlockTx>, c: Address)
    requires env.Sound()
    ensures CallsIn(env, w, txs, c) == |CallersFor(env, w, txs, c)|
    decreases |txs|
  {
    if txs != [] {
      var n := |txs| - 1;
      CallsAreCounted(env, w, txs[..n], c);
      CallersMore(env, w, txs, c);
      LastCalls(env, w, txs, c);
    }
  }

  lemma CallersMore(env: Env, w: World, txs: seq<BlockTx>, c: Address)
    requires env.Sound() && txs != []
    ensures var n := |txs| - 1;
            CallersFor(env, w, txs, c) ==
              CallersFor(env, w, txs[..n], c) + if CallsFor(env, w, txs, c, n) then {n} else {}
  {
    var n := |txs| - 1;
    forall i: nat | i < n ensures CallsFor(env, w, txs[..n], c, i) <==> CallsFor(env, w, txs, c, i) {
      assert txs[..n][..i + 1] == txs[..i + 1];
    }
  }

  lemma LastCalls(env: Env, w: World, txs: seq<BlockTx>, c: Address)
    requires env.Sound() && txs != []
    ensures CallsFor(env, w, txs, c, |txs| - 1) <==>
              CallOf(env, WorldAfter(env, w, txs), txs[|txs| - 1].msg) == Some(c)
  {
    assert txs[..|txs| - 1 + 1] == txs;
  }

  /** The counter has an entry for exactly the creators called, and it counts the transactions that called. */
  ghost predicate CountsCalls(env: Env, w: World, txs: seq<BlockTx>, counter: map<Address, nat>)
    requires env.Sound()
  {
    forall c :: if CallersFor(env, w, txs, c) == {} then c !in counter
                else c in counter && counter[c] == |CallersFor(env, w, txs, c)|
  }

  lemma TalliedCounts(env: Env, w: World, txs: seq<BlockTx>, counter: map<Address, nat>)
    requires env.Sound() && AllTallied(env, w, txs, counter)
    ensures CountsCalls(env, w, txs, counter)
  {
    forall c ensures if CallersFor(env, w, txs, c) == {} then c !in counter
                     else c in counter && counter[c] == |CallersFor(env, w, txs, c)|
    {
      assert Tallied(env, w, txs, counter, c);
      CallsAreCounted(env, w, txs, c);
    }
  }

  /** Counts one transaction for the creator of the contract it calls. */
  method ProcessTx(env: Env, counter: map<Address, nat>, w: World, tx: BlockTx, ghost w0: World,
                   ghost txs: seq<BlockTx>)
    returns (counter': map<Address, nat>)
    requires env.Sound() && AllTallied(env, w0, txs, counter) && w == WorldAfter(env, w0, txs + [tx])
    ensures AllTallied(env, w0, txs + [tx], counter')
  {
    counter' := counter;
    var call := CallOf(env, w, tx.msg);
    if call.Some? {
      var c := call.value;
      counter' := counter[c := (if c in counter then counter[c] else 0) + 1];
    }
    assert (txs + [tx])[..|txs|] == txs;
    forall c ensures Tallied(env, w0, txs + [tx], counter', c) {
      assert Tallied(env, w0, txs, counter, c);
    }
  }

  // ----- processing -----

  /** Applies one transaction of a block to the state and the pool, and ends it. */
  method ApplyTransaction(env: Env, gp: GasPool, world: World, tx: BlockTx, place: Place, txIndex: nat, usedGas: nat,
                          journal: Journal)
    returns (receipt: Option<Receipt>, world': World, journal': Journal)
    requires env.Sound() && tx.msg.gas <= MAX_UINT64 && gp.gas <= MAX_UINT64
    modifies gp
    ensures receipt.Some? <==> Accepts(env, world, tx.msg, old(gp.gas))
    ensures receipt.Some? ==>
              && Affordable(env, world, tx.msg) && world' == Finalised(env, world, tx.msg)
              && Recorded(env, world, tx, place, txIndex, journal, journal')
              && receipt.value == ReceiptOf(env, world, tx, usedGas, journal'.Of(tx.hash))
              && gp.gas + receipt.value.gasUsed == old(gp.gas)
    ensures receipt.Some? ==> Affordable(env, world, tx.msg) && ReportedAt(env, world, tx, usedGas, receipt.value)
  {
    var st := new StateTransition(env, tx.msg, world, gp);
    ghost var given, buyer, bought;
    var r;
    r, given, buyer, bought := st.TransitionDb();
    world', journal' := st.world, journal;
    if r.Failed? {
      return None, world', journal';
    }
    world' := Finalise(st.world, Dirty(env, world, tx.msg), st.outcome.destroyed, env.deleteEmpty);
    journal' := AddLogs(journal, place, tx.hash, txIndex, st.outcome.logs);
    var logs := journal'.Of(tx.hash);
    receipt := Some(Receipt(tx.hash, Created(env, tx), r.usedGas, usedGas + r.usedGas, r.reverted, logs));
  }

  /** A transaction is accepted after those before it exactly if the block is fine up to it. */
  lemma AcceptedIsOk(env: Env, w0: World, txs: seq<BlockTx>, place: Place, i: nat, w: World, journal: Journal,
                     receipts: seq<Receipt>, gasLimit: nat, pool: nat)
    requires env.Sound() && Booked(env, w0, txs, place, i, w, journal, receipts) && i < |txs|
    requires GasSum(receipts) + pool == gasLimit
    ensures Accepts(env, w, txs[i].msg, pool) <==> TxOk(env, w0, txs, gasLimit, i)
  {
  }

  /** Applies one transaction and books its receipt. */
  method Book(env: Env, gp: GasPool, w: World, txs: seq<BlockTx>, place: Place, i: nat, usedGas: nat, journal: Journal,
              receipts: seq<Receipt>, ghost w0: World, ghost gasLimit: nat)
    returns (ok: bool, w': World, journal': Journal, receipts': seq<Receipt>, usedGas': nat)
    requires env.Sound() && Booked(env, w0, txs, place, i, w, journal, receipts)
    requires i < |txs| && txs[i].msg.gas <= MAX_UINT64
    requires usedGas == GasSum(receipts) && usedGas + gp.gas == gasLimit <= MAX_UINT64 && Fits(receipts)
    modifies gp
    ensures ok <==> TxOk(env, w0, txs, gasLimit, i)
    ensures ok ==> Booked(env, w0, txs, place, i + 1, w', journal', receipts')
    ensures ok ==> usedGas' == GasSum(receipts') && usedGas' + gp.gas == gasLimit && Fits(receipts')
  {
    var receipt;
    receipt, w', journal' := ApplyTransaction(env, gp, w, txs[i], place, i, usedGas, journal);
    ok, receipts', usedGas' := receipt.Some?, receipts, usedGas;
    AcceptedIsOk(env, w0, txs, place, i, w, journal, receipts, gasLimit, old(gp.gas));
    if ok {
      var r := receipt.value;
      BookedMore(env, w0, txs, place, i, w, journal, receipts, journal', r);
      receipts', usedGas' := receipts + [r], usedGas + r.gasUsed;
    }
  }

  datatype Processed = Processed(receipts: seq<Receipt>, usedGas: nat, gasLeft: nat, counter: map<Address, nat>,
                                 world: World)

  /** State, logs, receipts and counter after the first `i` transactions. */
  ghost predicate BookedAndCounted(env: Env, w0: World, txs: seq<BlockTx>, place: Place, i: nat, w: World,
                                   journal: Journal, receipts: seq<Receipt>, counter: map<Address, nat>)
    requires env.Sound() && i <= |txs|
  {
    Booked(env, w0, txs, place, i, w, journal, receipts) && AllTallied(env, w0, txs[..i], counter)
  }

  /** Counts transaction `i` of a block, in the state it left. */
  method CountNext(env: Env, counter: map<Address, nat>, w: World, txs: seq<BlockTx>, i: nat, ghost w0: World)
    returns (counter': map<Address, nat>)
    requires env.Sound() && i < |txs|
    requires AllTallied(env, w0, txs[..i], counter) && w == WorldAfter(env, w0, txs[..i + 1])
    ensures AllTallied(env, w0, txs[..i + 1], counter')
  {
    assert txs[..i] + [txs[i]] == txs[..i + 1];
    counter' := ProcessTx(env, counter, w, txs[i], w0, txs[..i]);
  }

  /** One round of the processing loop. */
  method BookAndCount(env: Env, gp: GasPool, w: World, txs: seq<BlockTx>, place: Place, i: nat, usedGas: nat,
                      journal: Journal, receipts: seq<Receipt>, counter: map<Address, nat>, ghost w0: World,
                      ghost gasLimit: nat)
    returns (ok: bool, w': World, journal': Journal, receipts': seq<Receipt>, usedGas': nat,
             counter': map<Address, nat>)
    requires env.Sound() && i < |txs| && txs[i].msg.gas <= MAX_UINT64
    requires BookedAndCounted(env, w0, txs, place, i, w, journal, receipts, counter)
    requires usedGas == GasSum(receipts) && usedGas + gp.gas == gasLimit <= MAX_UINT64 && Fits(receipts)
    modifies gp
    ensures ok <==> TxOk(env, w0, txs, gasLimit, i)
    ensures ok ==> BookedAndCounted(env, w0, txs, place, i + 1, w', journal', receipts', counter')
    ensures ok ==> usedGas' == GasSum(receipts') && usedGas' + gp.gas == gasLimit && Fits(receipts')
  {
    ok, w', journal', receipts', usedGas' :=
      Book(env, gp, w, txs, place, i, usedGas, journal, receipts, w0, gasLimit);
    counter' := counter;
    if ok {
      counter' := CountNext(env, counter, w', txs, i, w0);
    }
  }

  /** The loop over the transactions of a block; it ends at the first that is not accepted. */
  method ProcessTxs(env: Env, place: Place, gp: GasPool, txs: seq<BlockTx>, world: World)
    returns (ok: bool, receipts: seq<Receipt>, usedGas: nat, counter: map<Address, nat>, w: World,
             ghost journal: Journal)
    requires env.Sound() && gp.gas <= MAX_UINT64 && forall i :: 0 <= i < |txs| ==> txs[i].msg.gas <= MAX_UINT64
    modifies gp
    ensures ok <==> BlockOk(env, world, txs, old(gp.gas))
    ensures ok ==> Booked(env, world, txs, place, |txs|, w, journal, receipts) && AllTallied(env, world, txs, counter)
    ensures ok ==> usedGas == GasSum(receipts) && usedGas + gp.gas == old(gp.gas) && Fits(receipts)
  {
    var recorded := Journal(map[], 0);
    ok, receipts, usedGas, counter, w, journal := true, [], 0, map[], world, recorded;
    ghost var gasLimit := gp.gas;
    assert txs[..0] == [];
    for i := 0 to |txs|
      invariant BookedAndCounted(env, world, txs, place, i, w, recorded, receipts, counter)
      invariant usedGas == GasSum(receipts) && usedGas + gp.gas == gasLimit
      invariant OkUpTo(env, world, txs, gasLimit, i) && Fits(receipts)
    {
      ok, w, recorded, receipts, usedGas, counter :=
        BookAndCount(env, gp, w, txs, place, i, usedGas, recorded, receipts, counter, world, gasLimit);
      if !ok {
        return;
      }
    }
    assert txs[..|txs|] == txs;
    ok, journal := true, recorded;
  }

  /**
   Processes a block, accepting it exactly if every transaction is.  Of an
   accepted block, each receipt reports how the machine ended on its transaction in
   the state those before it left, the gas used and the gas left in the pool make up
   the gas limit, the receipts' cumulative gas are prefix sums, the receipts follow
   from their consensus encoding, and the wealth of all accounts changes only by what
   the machine and the block reward changed and by fees put on accounts then deleted.
   */
  method Process(env: Env, place: Place, gasLimit: nat, txs: seq<BlockTx>, world: World, finalize: World -> World)
    returns (r: Option<Processed>)
    requires env.Sound() && gasLimit <= MAX_UINT64 && forall i :: 0 <= i < |txs| ==> txs[i].msg.gas <= MAX_UINT64
    ensures r.Some? <==> BlockOk(env, world, txs, gasLimit)
    ensures r.Some? ==>
              && |r.value.receipts| == |txs| && PrefixSums(r.value.receipts) && Fits(r.value.receipts)
              && (forall i :: 0 <= i < |txs| ==> Reported(env, world, txs, place, r.value.receipts, i))
              && (Distinct(txs) ==> Complete(env, place, txs, r.value.receipts))
              && r.value.usedGas == GasSum(r.value.receipts) == UsedIn(env, world, txs)
              && r.value.usedGas + r.value.gasLeft == gasLimit
              && AllTallied(env, world, txs, r.value.counter) && CountsCalls(env, world, txs, r.value.counter)
    ensures r.Some? ==>
              var executed := WorldAfter(env, world, txs);
              && r.value.world == finalize(executed)
              && r.value.world.Wealth() ==
                   world.Wealth() + MadeIn(env, world, txs) - BurntIn(env, world, txs)
                   + (finalize(executed).Wealth() - executed.Wealth())
              && (BurntIn(env, world, txs) == 0 <==> AllSpare(env, world, txs))
  {
    var gp := new GasPool();
    gp.AddGas(gasLimit);
    var ok, receipts, usedGas, counter, w;
    ghost var journal;
    ok, receipts, usedGas, counter, w, journal := ProcessTxs(env, place, gp, txs, world);
    if !ok {
      return None;
    }
    assert txs[..|txs|] == txs;
    BlockFeesCancel(env, world, txs);
    BookedAreReported(env, world, txs, place, receipts);
    TalliedCounts(env, world, txs, counter);
    if Distinct(txs) {
      BookedIsComplete(env, world, txs, place, receipts);
    }
    return Some(Processed(receipts, usedGas, gp.gas, counter, finalize(w)));
  }

  // ----- receipts read back -----

  /** What the consensus encoding of a receipt carries. */
  function OnWire(r: Receipt): Receipt {
    Receipt(0, None, 0, r.cumulative, r.reverted,
            seq(|r.logs|, k requires 0 <= k < |r.logs| => Log(Place(0, 0), 0, 0, 0, r.logs[k].payload)))
  }

  function AllOnWire(rs: seq<Receipt>): seq<Receipt> {
    seq(|rs|, i requires 0 <= i < |rs| => OnWire(rs[i]))
  }

  ghost predicate Fits(rs: seq<Receipt>) {
    forall i :: 0 <= i < |rs| ==> rs[i].cumulative <= MAX_UINT64
  }

  /** Subtraction on 64-bit words. */
  function Minus(a: nat, b: nat): nat
    requires a <= MAX_UINT64 && b <= MAX_UINT64
  {
    if a >= b then a - b else a + MAX_UINT64 + 1 - b
  }

  /** What a transaction used according to the cumulative gas of its receipt and the one before. */
  function OwnGas(rs: seq<Receipt>, j: nat): nat
    requires j < |rs| && Fits(rs)
  {
    if j == 0 then rs[0].cumulative else Minus(rs[j].cumulative, rs[j - 1].cumulative)
  }

  function LogCount(rs: seq<Receipt>): nat {
    if rs == [] then 0 else LogCount(rs[..|rs| - 1]) + |rs[|rs| - 1].logs|
  }

  function Payloads(logs: seq<Log>): seq<seq<nat>> {
    seq(|logs|, k requires 0 <= k < |logs| => logs[k].payload)
  }

  /** Receipt `j` of `rs` with its derived fields filled in. */
  ghost predicate Filled(env: Env, place: Place, txs: seq<BlockTx>, rs: seq<Receipt>, r: Receipt, j: nat)
    requires j < |rs| && |txs| == |rs| && Fits(rs)
  {
    && r.txHash == txs[j].hash && r.gasUsed == OwnGas(rs, j)
    && r.contract == (if txs[j].msg.to.None? then Created(env, txs[j]) else rs[j].contract)
    && r.cumulative == rs[j].cumulative && r.reverted == rs[j].reverted
    && r.logs == Labelled(Payloads(rs[j].logs), place, txs[j].hash, j, LogCount(rs[..j]))
  }

  /** The receipts are what filling in makes of their consensus encoding. */
  ghost predicate Complete(env: Env, place: Place, txs: seq<BlockTx>, rs: seq<Receipt>)
    requires |txs| == |rs| && Fits(rs)
  {
    forall j :: 0 <= j < |rs| ==> Filled(env, place, txs, AllOnWire(rs), rs[j], j)
  }

  /** From the receipts of a processed block, each transaction's own gas is recovered. */
  lemma OwnGasRecovered(rs: seq<Receipt>, j: nat)
    requires PrefixSums(rs) && j < |rs| && Fits(rs)
    ensures OwnGas(rs, j) == rs[j].gasUsed
  {
    assert rs[j].cumulative == GasSum(rs[..j + 1]);
    assert rs[..j + 1][..j] == rs[..j];
    if j > 0 {
      assert rs[j - 1].cumulative == GasSum(rs[..j - 1 + 1]);
    }
  }

  lemma {:induction false} LogsBefore(env: Env, w0: World, txs: seq<BlockTx>, place: Place, rs: seq<Receipt>, j: nat)
    requires env.Sound() && Distinct(txs) && |rs| == |txs| && j <= |rs|
    requires forall i :: 0 <= i < |rs| ==> BookedAt(env, w0, txs, place, rs, i)
    ensures LogCount(rs[..j]) == EmittedIn(env, w0, txs[..j])
  {
    if j > 0 {
      LogsBefore(env, w0, txs, place, rs, j - 1);
      assert rs[..j][..j - 1] == rs[..j - 1];
      assert txs[..j][..j - 1] == txs[..j - 1];
      assert BookedAt(env, w0, txs, place, rs, j - 1);
    }
  }

  /** The encoding keeps the number of logs. */
  lemma {:induction false} LogsOnWire(rs: seq<Receipt>, j: nat)
    requires j <= |rs|
    ensures LogCount(AllOnWire(rs)[..j]) == LogCount(rs[..j])
  {
    if j > 0 {
      LogsOnWire(rs, j - 1);
      assert AllOnWire(rs)[..j][..j - 1] == AllOnWire(rs)[..j - 1] && rs[..j][..j - 1] == rs[..j - 1];
    }
  }

  /** Receipt `i` of a block reports on transaction `i`, in the state those before it left. */
  ghost predicate Reported(env: Env, w0: World, txs: seq<BlockTx>, place: Place, receipts: seq<Receipt>, i: nat)
    requires env.Sound() && i < |txs| && i < |receipts|
  {
    var before := WorldAfter(env, w0, txs[..i]);
    && Affordable(env, before, txs[i].msg)
    && ReportedAt(env, before, txs[i], GasSum(receipts[..i]), receipts[i])
    && (Distinct(txs) ==> LoggedAt(env, before, txs[i], place, receipts, i))
  }

  lemma BookedAreReported(env: Env, w0: World, txs: seq<BlockTx>, place: Place, rs: seq<Receipt>)
    requires env.Sound() && |rs| == |txs| && PrefixSums(rs)
    requires forall i :: 0 <= i < |rs| ==> BookedAt(env, w0, txs, place, rs, i)
    ensures forall i :: 0 <= i < |rs| ==> Reported(env, w0, txs, place, rs, i)
  {
    forall i | 0 <= i < |rs| ensures Reported(env, w0, txs, place, rs, i) {
      assert BookedAt(env, w0, txs, place, rs, i);
      assert rs[..i + 1][..i] == rs[..i];
      if Distinct(txs) {
        LogsBefore(env, w0, txs, place, rs, i);
      }
    }
  }

  /** The receipts of a processed block are complete. */
  lemma BookedIsComplete(env: Env, w0: World, txs: seq<BlockTx>, place: Place, rs: seq<Receipt>)
    requires env.Sound() && Distinct(txs) && |rs| == |txs| && Fits(rs) && PrefixSums(rs)
    requires forall i :: 0 <= i < |rs| ==> BookedAt(env, w0, txs, place, rs, i)
    ensures Complete(env, place, txs, rs)
  {
    forall j | 0 <= j < |rs| ensures Filled(env, place, txs, AllOnWire(rs), rs[j], j) {
      assert BookedAt(env, w0, txs, place, rs, j);
      LogsBefore(env, w0, txs, place, rs, j);
      LogsOnWire(rs, j);
      OwnGasRecovered(rs, j);
      var payloads := Ran(env, WorldAfter(env, w0, txs[..j]), txs[j].msg).logs;
      assert Payloads(AllOnWire(rs)[j].logs) == payloads;
    }
  }

  /** Filling in the consensus encoding of complete receipts gives them back. */
  lemma ReceiptsRecovered(env: Env, place: Place, txs: seq<BlockTx>, rs: seq<Receipt>, out: seq<Receipt>)
    requires |txs| == |rs| == |out| && Fits(rs) && Complete(env, place, txs, rs)
    requires forall j :: 0 <= j < |rs| ==> Filled(env, place, txs, AllOnWire(rs), out[j], j)
    ensures out == rs
  {
    forall j | 0 <= j < |rs| ensures out[j] == rs[j] {
      assert Filled(env, place, txs, AllOnWire(rs), out[j], j) && Filled(env, place, txs, AllOnWire(rs), rs[j], j);
    }
  }

  /** Labels the logs of one receipt, numbering them on from `start`. */
  method LabelLogs(logs: seq<Log>, place: Place, txHash: nat, txIndex: nat, start: nat)
    returns (logs': seq<Log>, next: nat)
    ensures logs' == Labelled(Payloads(logs), place, txHash, txIndex, start) && next == start + |logs|
  {
    logs', next := logs, start;
    for k := 0 to |logs|
      invariant |logs'| == |logs| && next == start + k
      invariant forall l :: 0 <= l < |logs| ==>
                  logs'[l] == if l < k then Log(place, txHash, txIndex, start + l, logs[l].payload) else logs[l]
    {
      logs' := logs'[k := Log(place, txHash, txIndex, next, logs'[k].payload)];
      next := next + 1;
    }
  }

  /** One receipt with its derived fields filled in; `before` is the cumulative gas of the one before. */
  method FillIn(env: Env, place: Place, tx: BlockTx, receipt: Receipt, before: nat, j: nat, logIndex: nat)
    returns (r: Receipt, logIndex': nat)
    requires receipt.cumulative <= MAX_UINT64 && before <= MAX_UINT64
    ensures r == Receipt(tx.hash, if tx.msg.to.None? then Created(env, tx) else receipt.contract,
                         Minus(receipt.cumulative, before), receipt.cumulative, receipt.reverted,
                         Labelled(Payloads(receipt.logs), place, tx.hash, j, logIndex))
    ensures logIndex' == logIndex + |receipt.logs|
  {
    var contract := if tx.msg.to.None? then Some(env.create(tx.msg.from, tx.msg.nonce)) else receipt.contract;
    var own := Minus(receipt.cumulative, before);
    var logs;
    logs, logIndex' := LabelLogs(receipt.logs, place, tx.hash, j, logIndex);
    r := Receipt(tx.hash, contract, own, receipt.cumulative, receipt.reverted, logs);
  }

  lemma FilledByParts(env: Env, place: Place, txs: seq<BlockTx>, rs: seq<Receipt>, r: Receipt, j: nat, before: nat,
                      start: nat)
    requires j < |rs| && |txs| == |rs| && Fits(rs)
    requires before == (if j > 0 then rs[j - 1].cumulative else 0) && start == LogCount(rs[..j])
    requires before <= MAX_UINT64 && rs[j].cumulative <= MAX_UINT64
    requires r == Receipt(txs[j].hash, if txs[j].msg.to.None? then Created(env, txs[j]) else rs[j].contract,
                          Minus(rs[j].cumulative, before), rs[j].cumulative, rs[j].reverted,
                          Labelled(Payloads(rs[j].logs), place, txs[j].hash, j, start))
    ensures Filled(env, place, txs, rs, r, j) && LogCount(rs[..j + 1]) == start + |rs[j].logs|
  {
    assert rs[..j + 1][..j] == rs[..j];
  }

  /** One round: fills in receipt `j` alone. */
  method SetReceipt(env: Env, place: Place, txs: seq<BlockTx>, receipts: array<Receipt>, j: nat, logIndex: nat,
                    ghost rs: seq<Receipt>)
    returns (logIndex': nat)
    requires j < |rs| == |txs| == receipts.Length && Fits(rs) && receipts[j] == rs[j]
    requires (j > 0 ==> receipts[j - 1].cumulative == rs[j - 1].cumulative) && logIndex == LogCount(rs[..j])
    modifies receipts
    ensures Filled(env, place, txs, rs, receipts[j], j) && receipts[j].cumulative == rs[j].cumulative
    ensures forall i :: 0 <= i < receipts.Length && i != j ==> receipts[i] == old(receipts[i])
    ensures logIndex' == LogCount(rs[..j + 1])
  {
    var before := if j > 0 then receipts[j - 1].cumulative else 0;
    var r;
    r, logIndex' := FillIn(env, place, txs[j], receipts[j], before, j, logIndex);
    FilledByParts(env, place, txs, rs, r, j, before, logIndex);
    receipts[j] := r;
  }

  /** Fills in, in place, what the encoded receipts do not carry. */
  method SetReceiptsData(env: Env, place: Place, txs: seq<BlockTx>, receipts: array<Receipt>) returns (ok: bool)
    requires Fits(receipts[..])
    modifies receipts
    ensures ok <==> |txs| == receipts.Length
    ensures !ok ==> receipts[..] == old(receipts[..])
    ensures ok ==> forall j :: 0 <= j < receipts.Length ==>
                     Filled(env, place, txs, old(receipts[..]), receipts[j], j)
  {
    if |txs| != receipts.Length {
      return false;
    }
    ghost var rs := receipts[..];
    var logIndex := 0;
    for j := 0 to receipts.Length
      invariant forall i :: 0 <= i < j ==> Filled(env, place, txs, rs, receipts[i], i)
      invariant forall i :: j <= i < receipts.Length ==> receipts[i] == rs[i]
      invariant j > 0 ==> receipts[j - 1].cumulative == rs[j - 1].cumulative
      invariant logIndex == LogCount(rs[..j])
    {
      logIndex := SetReceipt(env, place, txs, receipts, j, logIndex, rs);
    }
    return true;
  }
}
