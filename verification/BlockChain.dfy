/**
 `BlockChain`: writing blocks under the Algorand fork choice, and the
 reorganisation that moves the number index and the transaction lookup table to
 another branch.
 */
module BlockChains {
  import opened Blocks
  import opened HeaderChains
  import opened Headers
  import opened Transactions

  // ----- reorganisation -----

  /** Index entry `n` after the blocks of `chain`, from number `top` down, were inserted. */
  ghost predicate InsertedAt(canon: map<nat, Hash>, canon': map<nat, Hash>, chain: seq<Header>, top: nat, n: nat) {
    if n <= top && top - n < |chain| then n in canon' && canon'[n] == chain[top - n].Hash()
    else (n in canon' <==> n in canon) && (n in canon && n in canon' ==> canon'[n] == canon[n])
  }

  /** Lookup of `tx` after the blocks of `chain` were inserted. */
  ghost predicate WrittenFor(lookup: map<nat, Hash>, lookup': map<nat, Hash>, chain: seq<Header>, tx: nat) {
    Find(lookup', tx) == OrElse(HolderIn(chain, tx), Find(lookup, tx))
  }

  /** `WriteTxLookupEntries` */
  method WriteTxLookupEntries(lookup: map<nat, Hash>, b: Header) returns (lookup': map<nat, Hash>)
    ensures forall tx :: WrittenFor(lookup, lookup', [b], tx)
  {
    lookup' := lookup;
    for i := 0 to |b.body|
      invariant forall tx :: Find(lookup', tx) == if tx in b.body[..i] then Some(b.Hash()) else Find(lookup, tx)
    {
      assert b.body[..i + 1] == b.body[..i] + [b.body[i]];
      lookup' := lookup'[b.body[i] := b.Hash()];
    }
    assert b.body[..|b.body|] == b.body;
    forall tx ensures WrittenFor(lookup, lookup', [b], tx) {
      OneBlock(b, tx);
    }
  }

  /** Walks from `from` down to number `n`. */
  method WalkTo(blocks: set<Header>, genesis: Header, from: Header, n: nat) returns (chain: seq<Header>, at: Header)
    requires Closed(blocks, genesis) && from in blocks && n <= from.number
    ensures IsBranch(chain, from, at) && at in blocks && at.number == n
    ensures n == from.number ==> chain == []
  {
    chain, at := [], from;
    while at.number != n
      invariant IsBranch(chain, from, at) && at in blocks && n <= at.number && (n == from.number ==> chain == [])
      decreases at.number
    {
      assert Rooted(blocks, genesis, at);
      BranchMore(chain, from, at);
      chain := chain + [at];
      at := at.parent.header;
    }
  }

  /** Where both branches have blocks, they part right above their common end. */
  ghost predicate PartAtOnce(oldChain: seq<Header>, newChain: seq<Header>) {
    oldChain != [] && newChain != [] ==> oldChain[|oldChain| - 1] != newChain[|newChain| - 1]
  }

  ghost predicate Brothers(a: Header, b: Header) {
    a != b && a.number == b.number && a.parent == b.parent
  }

  /** The two branches down to the nearest common ancestor, which the search always reaches. */
  method FindCommon(blocks: set<Header>, genesis: Header, oldBlock: Header, newBlock: Header)
    returns (oldChain: seq<Header>, newChain: seq<Header>, common: Header)
    requires Closed(blocks, genesis) && oldBlock in blocks && newBlock in blocks
    ensures IsBranch(oldChain, oldBlock, common) && IsBranch(newChain, newBlock, common) && common in blocks
    ensures PartAtOnce(oldChain, newChain)
    ensures Brothers(oldBlock, newBlock) ==> oldChain == [oldBlock] && newChain == [newBlock]
  {
    var o, n := oldBlock, newBlock;
    oldChain, newChain := [], [];
    if oldBlock.number > newBlock.number {
      oldChain, o := WalkTo(blocks, genesis, oldBlock, newBlock.number);
    } else {
      newChain, n := WalkTo(blocks, genesis, newBlock, oldBlock.number);
    }
    while o.Hash() != n.Hash()
      invariant IsBranch(oldChain, oldBlock, o) && IsBranch(newChain, newBlock, n)
      invariant o in blocks && n in blocks && o.number == n.number && PartAtOnce(oldChain, newChain)
      invariant Brothers(oldBlock, newBlock) ==>
                  || (oldChain == [] && newChain == [])
                  || (oldChain == [oldBlock] && newChain == [newBlock] && o == n)
      decreases o.number
    {
      assert Rooted(blocks, genesis, o) && Rooted(blocks, genesis, n);
      BranchMore(oldChain, oldBlock, o);
      BranchMore(newChain, newBlock, n);
      oldChain, newChain := oldChain + [o], newChain + [n];
      o, n := o.parent.header, n.parent.header;
    }
    common := o;
  }

  /** Inserts a branch in ascending order, rewriting the index and the lookup table. */
  method InsertChain(canon: map<nat, Hash>, lookup: map<nat, Hash>, chain: seq<Header>, ghost top: nat)
    returns (canon': map<nat, Hash>, lookup': map<nat, Hash>)
    requires |chain| <= top && forall i :: 0 <= i < |chain| ==> chain[i].number == top - i
    ensures forall n: nat :: InsertedAt(canon, canon', chain, top, n)
    ensures forall tx :: WrittenFor(lookup, lookup', chain, tx)
  {
    canon', lookup' := canon, lookup;
    var i: nat := |chain|;
    while i > 0
      invariant i <= |chain|
      invariant forall n: nat ::
                  if n + i <= top && top - n < |chain| then n in canon' && canon'[n] == chain[top - n].Hash()
                  else (n in canon' <==> n in canon) && (n in canon && n in canon' ==> canon'[n] == canon[n])
      invariant var part := chain[i..]; forall tx :: WrittenFor(lookup, lookup', part, tx)
    {
      i := i - 1;
      var b := chain[i];
      canon' := canon'[b.number := b.Hash()];
      ghost var before := lookup';
      lookup' := WriteTxLookupEntries(lookup', b);
      WrittenMore(lookup, before, lookup', chain, i);
    }
    assert chain[0..] == chain;
  }

  lemma WrittenMore(lookup: map<nat, Hash>, before: map<nat, Hash>, after: map<nat, Hash>, chain: seq<Header>, i: nat)
    requires i < |chain|
    requires var part := chain[i + 1..]; forall tx :: WrittenFor(lookup, before, part, tx)
    requires forall tx :: WrittenFor(before, after, [chain[i]], tx)
    ensures var part := chain[i..]; forall tx :: WrittenFor(lookup, after, part, tx)
  {
    var part, rest := chain[i..], chain[i + 1..];
    assert part[1..] == rest && part[0] == chain[i];
    forall tx ensures WrittenFor(lookup, after, part, tx) {
      OneBlock(chain[i], tx);
      assert WrittenFor(lookup, before, rest, tx) && WrittenFor(before, after, [chain[i]], tx);
    }
  }

  /** The transactions of a branch. */
  function TxsOf(chain: seq<Header>): (txs: set<nat>)
    ensures forall tx :: tx in txs <==> HolderIn(chain, tx).Some?
  {
    if chain == [] then {} else (set tx | tx in chain[0].body) + TxsOf(chain[1..])
  }

  /** Deletes the entries of transactions the switch dropped. */
  method DeleteTxLookupEntries(lookup: map<nat, Hash>, txs: set<nat>) returns (lookup': map<nat, Hash>)
    ensures forall tx :: Find(lookup', tx) == if tx in txs then None else Find(lookup, tx)
  {
    lookup' := lookup;
    var todo := txs;
    while todo != {}
      invariant todo <= txs
      invariant forall tx :: Find(lookup', tx) == if tx in txs && tx !in todo then None else Find(lookup, tx)
    {
      var tx :| tx in todo;
      lookup' := lookup' - {tx};
      todo := todo - {tx};
    }
  }

  /** No transaction that only the old branch holds above the common ancestor is also held at or below it. */
  ghost predicate NothingLost(oldChain: seq<Header>, newChain: seq<Header>, common: Header) {
    forall tx :: HolderIn(oldChain, tx).Some? && HolderIn(newChain, tx).None? ==> HolderOf(common.Hash(), tx).None?
  }

  /**
   Moves the index and the lookup table from one head to another.  The index is
   right up to the new head; what lay above it is left behind, so it is exact if
   and only if the new head is not lower.  A lookup table that was exact still is if
   and only if no dropped transaction has an earlier copy below the fork.
   */
  method Reorg(blocks: set<Header>, genesis: Header, canon: map<nat, Hash>, lookup: map<nat, Hash>, oldBlock: Header,
               newBlock: Header)
    returns (canon': map<nat, Hash>, lookup': map<nat, Hash>,
             ghost oldChain: seq<Header>, ghost newChain: seq<Header>, ghost common: Header)
    requires Closed(blocks, genesis) && oldBlock in blocks && newBlock in blocks
    requires Linked(canon, blocks, genesis, oldBlock)
    ensures IsBranch(oldChain, oldBlock, common) && IsBranch(newChain, newBlock, common) && common in blocks
    ensures PartAtOnce(oldChain, newChain)
    ensures Brothers(oldBlock, newBlock) ==> oldChain == [oldBlock] && newChain == [newBlock]
    ensures Switched(lookup, lookup', oldBlock, newBlock, oldChain, newChain, common)
    ensures Reaches(canon', blocks, genesis, newBlock)
    ensures forall n: nat :: n > newBlock.number ==> LeftBehind(canon, canon', n)
    ensures Linked(canon', blocks, genesis, newBlock) <==> newBlock.number >= oldBlock.number
  {
    var olds, news, fork := FindCommon(blocks, genesis, oldBlock, newBlock);
    forall i | 0 <= i < |news| ensures news[i].number == newBlock.number - i {
      BranchStored(blocks, genesis, news, newBlock, fork, i);
    }
    BranchBottom(blocks, genesis, news, newBlock, fork);
    canon', lookup' := InsertChain(canon, lookup, news, newBlock.number);
    ghost var written := lookup';
    lookup' := DeleteTxLookupEntries(lookup', TxsOf(olds) - TxsOf(news));
    forall tx ensures FoundAfter(lookup, lookup', olds, news, tx) {
      assert WrittenFor(lookup, written, news, tx);
    }
    if LookupExact(lookup, oldBlock) {
      LookupSwitched(lookup, written, lookup', olds, news, oldBlock, newBlock, fork);
    }
    forall n: nat | n > newBlock.number ensures LeftBehind(canon, canon', n) {
      assert InsertedAt(canon, canon', news, newBlock.number, n);
    }
    IndexSwitched(blocks, genesis, canon, canon', olds, news, oldBlock, newBlock, fork);
    oldChain, newChain, common := olds, news, fork;
  }

  /** The entry at `n` is as it was. */
  ghost predicate LeftBehind(canon: map<nat, Hash>, canon': map<nat, Hash>, n: nat) {
    (n in canon' <==> n in canon) && (n in canon && n in canon' ==> canon'[n] == canon[n])
  }

  /** Each transaction of the new branch is found there, and one that only the old branch holds is not found at all. */
  ghost predicate FoundAfter(lookup: map<nat, Hash>, lookup': map<nat, Hash>, oldChain: seq<Header>,
                             newChain: seq<Header>, tx: nat) {
    Find(lookup', tx) ==
      if HolderIn(newChain, tx).None? && HolderIn(oldChain, tx).Some? then None
      else OrElse(HolderIn(newChain, tx), Find(lookup, tx))
  }

  /** The lookup table after a switch between two branches; if it was exact, it is if and only if nothing is lost. */
  ghost predicate Switched(lookup: map<nat, Hash>, lookup': map<nat, Hash>, oldBlock: Header, newBlock: Header,
                           oldChain: seq<Header>, newChain: seq<Header>, common: Header) {
    && (forall tx :: FoundAfter(lookup, lookup', oldChain, newChain, tx))
    && (LookupExact(lookup, oldBlock) ==>
          (LookupExact(lookup', newBlock) <==> NothingLost(oldChain, newChain, common)))
  }

  lemma LookupSwitched(lookup: map<nat, Hash>, written: map<nat, Hash>, lookup': map<nat, Hash>,
                       oldChain: seq<Header>, newChain: seq<Header>, oldBlock: Header, newBlock: Header, common: Header)
    requires LookupExact(lookup, oldBlock)
    requires IsBranch(oldChain, oldBlock, common) && IsBranch(newChain, newBlock, common)
    requires forall tx :: WrittenFor(lookup, written, newChain, tx)
    requires forall tx :: Find(lookup', tx) ==
                            if tx in TxsOf(oldChain) - TxsOf(newChain) then None else Find(written, tx)
    ensures LookupExact(lookup', newBlock) <==> NothingLost(oldChain, newChain, common)
  {
    forall tx
      ensures Find(lookup', tx) == HolderOf(newBlock.Hash(), tx) <==>
              (HolderIn(oldChain, tx).Some? && HolderIn(newChain, tx).None? ==> HolderOf(common.Hash(), tx).None?)
    {
      BranchHolder(oldChain, oldBlock, common, tx);
      BranchHolder(newChain, newBlock, common, tx);
      assert WrittenFor(lookup, written, newChain, tx);
    }
  }

  /** A concrete fork: two blocks on top of `common`, one empty, one repeating the transaction of `common`. */
  const ROOT := Header(ZeroHash, 0, 1, [])
  const COMMON := Header(ROOT.Hash(), 1, 1, [7])
  const REPEATING := Header(COMMON.Hash(), 2, 1, [7])
  const EMPTY := Header(COMMON.Hash(), 2, 1, [])

  lemma ForkIsStored()
    ensures Closed({ROOT, COMMON, REPEATING, EMPTY}, ROOT)
    ensures Linked(map[0 := ROOT.Hash(), 1 := COMMON.Hash(), 2 := REPEATING.Hash()],
                   {ROOT, COMMON, REPEATING, EMPTY}, ROOT, REPEATING)
    ensures LookupExact(map[7 := REPEATING.Hash()], REPEATING)
  {
    forall tx ensures Find(map[7 := REPEATING.Hash()], tx) == HolderOf(REPEATING.Hash(), tx) {
      assert HolderOf(COMMON.Hash(), tx) == if tx == 7 then Some(COMMON.Hash()) else HolderOf(ROOT.Hash(), tx);
      assert HolderOf(ROOT.Hash(), tx) == HolderOf(ZeroHash, tx) == None;
    }
  }

  /** A transaction held twice on one chain: dropping the block with the later copy loses the entry of the earlier. */
  method RepeatIsLost() returns (lookup': map<nat, Hash>)
    ensures HolderOf(EMPTY.Hash(), 7) == Some(COMMON.Hash()) && 7 !in lookup'
  {
    ForkIsStored();
    ghost var oldChain, newChain, common;
    var canon';
    canon', lookup', oldChain, newChain, common :=
      Reorg({ROOT, COMMON, REPEATING, EMPTY}, ROOT, map[0 := ROOT.Hash(), 1 := COMMON.Hash(), 2 := REPEATING.Hash()],
            map[7 := REPEATING.Hash()], REPEATING, EMPTY);
    OneBlock(REPEATING, 7);
    OneBlock(EMPTY, 7);
    assert FoundAfter(map[7 := REPEATING.Hash()], lookup', oldChain, newChain, 7);
    assert HolderOf(EMPTY.Hash(), 7) == HolderOf(COMMON.Hash(), 7);
  }

  /** Switching from a block at height 2 to one at height 1 leaves the index with an entry above the head. */
  method LowerHeadLeavesEntry() returns (canon': map<nat, Hash>)
    ensures 2 in canon' && canon'[2] == REPEATING.Hash()
  {
    ForkIsStored();
    ghost var oldChain, newChain, common;
    var lookup';
    canon', lookup', oldChain, newChain, common :=
      Reorg({ROOT, COMMON, REPEATING, EMPTY}, ROOT, map[0 := ROOT.Hash(), 1 := COMMON.Hash(), 2 := REPEATING.Hash()],
            map[7 := REPEATING.Hash()], REPEATING, COMMON);
    assert LeftBehind(map[0 := ROOT.Hash(), 1 := COMMON.Hash(), 2 := REPEATING.Hash()], canon', 2);
  }

  /** In a store of blocks that never repeat a transaction of their chain, nothing is lost. */
  lemma FreshLosesNothing(blocks: set<Header>, genesis: Header, oldChain: seq<Header>, newChain: seq<Header>,
                          oldBlock: Header, common: Header)
    requires Closed(blocks, genesis) && oldBlock in blocks && common in blocks && forall b :: FreshIn(blocks, b)
    requires IsBranch(oldChain, oldBlock, common)
    ensures NothingLost(oldChain, newChain, common)
  {
    forall tx | HolderIn(oldChain, tx).Some? ensures HolderOf(common.Hash(), tx).None? {
      BranchIsFresh(blocks, genesis, oldChain, oldBlock, common, tx);
    }
  }

  lemma EntrySwitched(blocks: set<Header>, genesis: Header, canon: map<nat, Hash>, canon': map<nat, Hash>,
                      newChain: seq<Header>, oldBlock: Header, newBlock: Header, common: Header, n: nat)
    requires Closed(blocks, genesis) && newBlock in blocks && common in blocks && n <= newBlock.number
    requires Linked(canon, blocks, genesis, oldBlock) && common.number in canon && canon[common.number] == common.Hash()
    requires IsBranch(newChain, newBlock, common)
    requires forall n: nat :: InsertedAt(canon, canon', newChain, newBlock.number, n)
    ensures EntryOk(canon', blocks, n)
  {
    BranchBottom(blocks, genesis, newChain, newBlock, common);
    assert InsertedAt(canon, canon', newChain, newBlock.number, n);
    assert n > 0 ==> InsertedAt(canon, canon', newChain, newBlock.number, n - 1);
    assert IndexedAt(canon, blocks, oldBlock.number, n) && IndexedAt(canon, blocks, oldBlock.number, common.number);
    if n > common.number {
      var i := newBlock.number - n;
      BranchStored(blocks, genesis, newChain, newBlock, common, i);
      assert i + 1 < |newChain| ==> newChain[i].parent == newChain[i + 1].Hash();
    }
  }

  lemma IndexSwitched(blocks: set<Header>, genesis: Header, canon: map<nat, Hash>, canon': map<nat, Hash>,
                      oldChain: seq<Header>, newChain: seq<Header>, oldBlock: Header, newBlock: Header, common: Header)
    requires Closed(blocks, genesis) && oldBlock in blocks && newBlock in blocks && common in blocks
    requires Linked(canon, blocks, genesis, oldBlock)
    requires IsBranch(oldChain, oldBlock, common) && IsBranch(newChain, newBlock, common)
    requires forall n: nat :: InsertedAt(canon, canon', newChain, newBlock.number, n)
    ensures Reaches(canon', blocks, genesis, newBlock)
    ensures Linked(canon', blocks, genesis, newBlock) <==> newBlock.number >= oldBlock.number
  {
    BranchBottom(blocks, genesis, oldChain, oldBlock, common);
    BranchBottom(blocks, genesis, newChain, newBlock, common);
    IndexIsAncestry(canon, blocks, genesis, oldBlock, common.number);
    forall n: nat | n <= newBlock.number ensures EntryOk(canon', blocks, n) {
      EntrySwitched(blocks, genesis, canon, canon', newChain, oldBlock, newBlock, common, n);
    }
    assert InsertedAt(canon, canon', newChain, newBlock.number, newBlock.number);
    assert EntryOk(canon', blocks, 0) && Rooted(blocks, genesis, canon'[0].header);
    ExactIffNothingAbove(canon', blocks, genesis, newBlock);
    forall n: nat ensures n > newBlock.number ==> (n in canon' <==> n <= oldBlock.number) {
      assert InsertedAt(canon, canon', newChain, newBlock.number, n) && IndexedAt(canon, blocks, oldBlock.number, n);
    }
    assert newBlock.number < oldBlock.number ==> oldBlock.number in canon';
  }

  // ----- the chain -----

  ghost predicate Highest(blocks: set<Header>, head: Header) {
    forall b :: b in blocks ==> b.number <= head.number
  }

  ghost predicate AllFresh(blocks: set<Header>) {
    forall b :: FreshIn(blocks, b)
  }

  class BlockChain {
    const genesis: Header
    const oracle: Oracle
    var blocks: set<Header>
    var canon: map<nat, Hash>
    var lookup: map<nat, Hash>
    var current: Candidate

    /**
     The number index is the ancestor chain of the current block and nothing more,
     and no written block is higher than the current one.  The lookup table maps
     exactly that chain's transactions to their blocks, if no written block repeats
     a transaction of its own chain.
     */
    ghost predicate Valid()
      reads this
    {
      && Closed(blocks, genesis) && current.header in blocks && oracle.Injective()
      && Linked(canon, blocks, genesis, current.header) && Highest(blocks, current.header)
      && (AllFresh(blocks) ==> LookupExact(lookup, current.header))
    }

    constructor (genesis: Header, credential: nat, oracle: Oracle)
      requires genesis.number == 0 && genesis.parent == ZeroHash && genesis.body == [] && oracle.Injective()
      ensures Valid() && this.genesis == genesis && current == Candidate(genesis, credential) && this.oracle == oracle
      ensures LookupExact(lookup, genesis)
    {
      this.genesis, this.oracle := genesis, oracle;
      blocks, current := {genesis}, Candidate(genesis, credential);
      canon, lookup := map[0 := genesis.Hash()], map[];
      new;
      assert forall h :: Rooted(blocks, genesis, h);
      forall tx ensures Find(lookup, tx) == HolderOf(genesis.Hash(), tx) {
        assert HolderOf(ZeroHash, tx) == None;
      }
    }

    /** The header a block's credential is weighed in: the canonical one below its height. */
    function WeighedIn(b: Header): Header
      requires 0 < b.number && b.number - 1 in canon && canon[b.number - 1].HashOf?
      reads this
    {
      canon[b.number - 1].header
    }

    /**
     Writes a block.  It becomes the head if it is higher than the head or, at the
     same height, its credential and then its hash is less.  A lookup table that was
     exact still is if and only if the switch, along the two branches down to
     `common`, loses nothing.
     */
    method WriteBlock(block: Candidate)
      returns (status: WriteStatus, ghost oldChain: seq<Header>, ghost newChain: seq<Header>, ghost common: Header)
      requires Valid()
      modifies this
      ensures Valid()
      ensures status.UnknownAncestor? <==>
                block.header.number == 0 || !Stored(old(blocks), block.header.parent, block.header.number - 1)
      ensures status.UnknownAncestor? ==> unchanged(this)
      ensures !status.UnknownAncestor? ==> blocks == old(blocks) + {block.header}
      ensures status.Canonical? ==> current == block
      ensures status.Side? ==> current == old(current) && canon == old(canon) && lookup == old(lookup)
      ensures current.header.number >= old(current).header.number
      ensures !status.UnknownAncestor? ==>
                if block.header.number > old(current).header.number then status.Canonical?
                else
                  && block.header.number - 1 in old(canon) && old(canon)[block.header.number - 1].HashOf?
                  && (status.Canonical? <==>
                        oracle.Preferred(old(canon)[block.header.number - 1].header, block, old(current)))
                  && (status.Canonical? <==>
                        && block.header.number == old(current).header.number
                        && oracle.Wins(old(canon)[block.header.number - 1].header, block, old(current)))
      ensures status.Canonical? ==>
                && IsBranch(oldChain, old(current).header, common) && IsBranch(newChain, block.header, common)
                && (LookupExact(old(lookup), old(current).header) ==>
                      (LookupExact(lookup, block.header) <==> NothingLost(oldChain, newChain, common)))
    {
      oldChain, newChain, common := [], [], block.header;
      var b := block.header;
      if b.number == 0 || !Stored(blocks, b.parent, b.number - 1) {
        status := UnknownAncestor;
        return;
      }
      ClosedMore(blocks, genesis, b);
      LinkedMore(canon, blocks, blocks + {b}, genesis, current.header);
      FreshBefore(blocks, b);
      blocks := blocks + {b};
      assert b.number <= current.header.number ==> IndexedAt(canon, blocks, current.header.number, b.number - 1);
      var reorg := b.number > current.header.number;
      if b.number == current.header.number {
        reorg := oracle.Replaces(WeighedIn(b), block, current);
      }
      if !reorg {
        status := Side;
        return;
      }
      oldChain, newChain, common := Switch(block);
      status := Canonical;
    }

    /** Moves index, lookup table and head to a block that is not lower than the head. */
    method Switch(block: Candidate)
      returns (ghost oldChain: seq<Header>, ghost newChain: seq<Header>, ghost common: Header)
      requires Closed(blocks, genesis) && current.header in blocks && block.header in blocks && block.header.number > 0
      requires Linked(canon, blocks, genesis, current.header) && block.header.number >= current.header.number
      modifies this`canon, this`lookup, this`current
      ensures current == block && Linked(canon, blocks, genesis, block.header)
      ensures IsBranch(oldChain, old(current).header, common) && IsBranch(newChain, block.header, common)
      ensures LookupExact(old(lookup), old(current).header) ==>
                (LookupExact(lookup, block.header) <==> NothingLost(oldChain, newChain, common))
      ensures AllFresh(blocks) && LookupExact(old(lookup), old(current).header) ==> LookupExact(lookup, block.header)
    {
      ghost var was, h, b := lookup, current.header, block.header;
      if block.header.parent == current.header.Hash() {
        oldChain, newChain, common := [], [b], h;
        Extend(block);
        if LookupExact(was, h) {
          WrittenOnTop(was, lookup, h, b);
        }
        return;
      }
      canon, lookup, oldChain, newChain, common :=
        Reorg(blocks, genesis, canon, lookup, current.header, block.header);
      ghost var mid := lookup;
      BranchBottom(blocks, genesis, oldChain, h, common);
      BranchBottom(blocks, genesis, newChain, b, common);
      Extend(block);
      if LookupExact(was, h) {
        WrittenAgain(was, mid, lookup, h, b, oldChain, newChain, common);
      }
      if AllFresh(blocks) {
        FreshLosesNothing(blocks, genesis, oldChain, newChain, h, common);
      }
    }

    /** Writes the lookup entries of a block and makes it the head. */
    method Extend(block: Candidate)
      requires Closed(blocks, genesis) && block.header in blocks && block.header.number > 0
      requires || Linked(canon, blocks, genesis, block.header)
               || (&& block.header.parent == current.header.Hash() && current.header in blocks
                   && Linked(canon, blocks, genesis, current.header))
      modifies this`canon, this`lookup, this`current
      ensures current == block && Linked(canon, blocks, genesis, block.header)
      ensures forall tx :: WrittenFor(old(lookup), lookup, [block.header], tx)
    {
      lookup := WriteTxLookupEntries(lookup, block.header);
      Extended(blocks, genesis, canon, current.header, block.header);
      canon := canon[block.header.number := block.header.Hash()];
      current := block;
    }

    /** Any sequence of block writes. */
    method WriteAll(bs: seq<Candidate>)
      requires Valid()
      modifies this
      ensures Valid() && blocks == Written(old(blocks), HeadersOf(bs))
      ensures current.header.number >= old(current).header.number
    {
      var hs := HeadersOf(bs);
      assert hs[..0] == [];
      for i := 0 to |bs|
        invariant Valid() && blocks == Written(old(blocks), hs[..i])
        invariant current.header.number >= old(current).header.number
      {
        assert hs[..i + 1][..i] == hs[..i];
        ghost var oldChain, newChain, common;
        var status;
        status, oldChain, newChain, common := WriteBlock(bs[i]);
      }
      assert hs[..|bs|] == hs;
    }

    /** Children of a canonical block, written in any order: the head is what the fork choice folds to. */
    method WriteSiblings(p: Header, bs: seq<Candidate>)
      requires Valid() && p.number in canon && canon[p.number] == p.Hash() && Siblings(p, bs)
      modifies this
      ensures Valid() && current == oracle.HeadAfter(p, old(current), bs)
    {
      assert bs[..0] == [];
      assert IndexedAt(canon, blocks, current.header.number, p.number);
      for i := 0 to |bs|
        invariant Valid() && p in blocks && p.number in canon && canon[p.number] == p.Hash()
        invariant current == oracle.HeadAfter(p, old(current), bs[..i])
      {
        assert bs[..i + 1][..i] == bs[..i];
        ghost var oldChain, newChain, common;
        var status;
        status, oldChain, newChain, common := WriteBlock(bs[i]);
        assert IndexedAt(canon, blocks, current.header.number, bs[i].header.number);
      }
      assert bs[..|bs|] == bs;
    }
  }

  /** If all blocks are fresh with one more, they were before. */
  lemma FreshBefore(blocks: set<Header>, b: Header)
    ensures AllFresh(blocks + {b}) ==> AllFresh(blocks)
  {
    var blocks' := blocks + {b};
    if AllFresh(blocks') {
      forall x ensures FreshIn(blocks, x) {
        assert FreshIn(blocks', x);
      }
    }
  }

  /** Inserting the head, on top of the old one or where the index already has it. */
  lemma Extended(blocks: set<Header>, genesis: Header, canon: map<nat, Hash>, current: Header, block: Header)
    requires Closed(blocks, genesis) && block in blocks && block.number > 0
    requires || Linked(canon, blocks, genesis, block)
             || (block.parent == current.Hash() && current in blocks && Linked(canon, blocks, genesis, current))
    ensures Linked(canon[block.number := block.Hash()], blocks, genesis, block)
  {
    var canon' := canon[block.number := block.Hash()];
    if Linked(canon, blocks, genesis, block) {
      assert canon' == canon;
    } else {
      assert Rooted(blocks, genesis, block);
      forall n: nat ensures IndexedAt(canon', blocks, block.number, n) {
        assert IndexedAt(canon, blocks, current.number, n);
      }
    }
  }

  /** Writing the entries of a block on top of the old head keeps the table exact. */
  lemma WrittenOnTop(lookup: map<nat, Hash>, lookup': map<nat, Hash>, current: Header, block: Header)
    requires LookupExact(lookup, current) && block.parent == current.Hash()
    requires forall tx :: WrittenFor(lookup, lookup', [block], tx)
    ensures LookupExact(lookup', block)
  {
    forall tx ensures Find(lookup', tx) == HolderOf(block.Hash(), tx) {
      OneBlock(block, tx);
      assert WrittenFor(lookup, lookup', [block], tx);
    }
  }

  /** Writing the entries of the new head once more after a switch changes nothing. */
  lemma WrittenAgain(lookup: map<nat, Hash>, mid: map<nat, Hash>, lookup': map<nat, Hash>, oldBlock: Header,
                     block: Header, oldChain: seq<Header>, newChain: seq<Header>, common: Header)
    requires IsBranch(oldChain, oldBlock, common) && IsBranch(newChain, block, common)
    requires LookupExact(lookup, oldBlock) && Switched(lookup, mid, oldBlock, block, oldChain, newChain, common)
    requires newChain == [] ==> oldChain == []
    requires forall tx :: WrittenFor(mid, lookup', [block], tx)
    ensures LookupExact(lookup', block) <==> NothingLost(oldChain, newChain, common)
  {
    forall tx ensures Find(lookup', tx) == Find(mid, tx) {
      OneBlock(block, tx);
      assert WrittenFor(mid, lookup', [block], tx) && FoundAfter(lookup, mid, oldChain, newChain, tx);
    }
  }
}
