/**
 The values behind the block chain: which transactions a chain holds and where,
 branches between two blocks, and the Algorand fork choice.  A block is its
 header; the body lists the hashes of its transactions.
 */
module Blocks {
  import opened Headers
  import opened Transactions

  // ----- transactions along a chain -----

  /** The block of the chain ending in `hash` that holds `tx`, the latest if there are several. */
  function HolderOf(hash: Hash, tx: nat): Option<Hash> {
    if hash.ZeroHash? then None
    else if tx in hash.header.body then Some(hash)
    else HolderOf(hash.header.parent, tx)
  }

  /** No transaction of the block is already in the chain it extends. */
  ghost predicate FreshBody(b: Header) {
    forall tx :: tx in b.body ==> HolderOf(b.parent, tx).None?
  }

  ghost predicate FreshIn(blocks: set<Header>, b: Header) {
    b in blocks ==> FreshBody(b)
  }

  function Find(lookup: map<nat, Hash>, tx: nat): Option<Hash> {
    if tx in lookup then Some(lookup[tx]) else None
  }

  /** The table maps exactly the transactions of the chain ending in `head`, each to its block. */
  ghost predicate LookupExact(lookup: map<nat, Hash>, head: Header) {
    forall tx :: Find(lookup, tx) == HolderOf(head.Hash(), tx)
  }

  // ----- branches -----

  /** `chain` goes from `top` down parent links to just above `bottom`. */
  ghost predicate IsBranch(chain: seq<Header>, top: Header, bottom: Header) {
    if chain == [] then top == bottom
    else
      && chain[0] == top && chain[|chain| - 1].parent == bottom.Hash()
      && forall i, j :: 0 <= i && j == i + 1 && j < |chain| ==> chain[i].parent == chain[j].Hash()
  }

  lemma BranchMore(chain: seq<Header>, top: Header, bottom: Header)
    requires IsBranch(chain, top, bottom) && bottom.parent.HashOf?
    ensures IsBranch(chain + [bottom], top, bottom.parent.header)
  {
  }

  function HolderIn(chain: seq<Header>, tx: nat): Option<Hash> {
    if chain == [] then None
    else if tx in chain[0].body then Some(chain[0].Hash())
    else HolderIn(chain[1..], tx)
  }

  lemma OneBlock(b: Header, tx: nat)
    ensures HolderIn([b], tx) == if tx in b.body then Some(b.Hash()) else None
  {
    assert [b][1..] == [];
  }

  function OrElse(a: Option<Hash>, b: Option<Hash>): Option<Hash> {
    if a.Some? then a else b
  }

  /** Looking a transaction up from the top of a branch is looking it up in the branch and then below it. */
  lemma {:induction false} BranchHolder(chain: seq<Header>, top: Header, bottom: Header, tx: nat)
    requires IsBranch(chain, top, bottom)
    ensures HolderOf(top.Hash(), tx) == OrElse(HolderIn(chain, tx), HolderOf(bottom.Hash(), tx))
    decreases |chain|
  {
    if |chain| == 1 {
      assert chain[1..] == [];
    } else if |chain| > 1 {
      assert chain[0].parent == chain[1].Hash();
      BranchHolder(chain[1..], chain[1], bottom, tx);
    }
  }

  /** Blocks of a branch in a closed store are stored and numbered down from the top. */
  lemma {:induction false} BranchStored(blocks: set<Header>, genesis: Header, chain: seq<Header>, top: Header,
                                        bottom: Header, i: nat)
    requires Closed(blocks, genesis) && IsBranch(chain, top, bottom) && top in blocks && bottom in blocks && i < |chain|
    ensures chain[i] in blocks && chain[i] != genesis && chain[i].number == top.number - i
    ensures bottom.number == top.number - |chain|
    decreases i, |chain|
  {
    BranchBottom(blocks, genesis, chain, top, bottom);
    assert i + 1 < |chain| ==> chain[i].parent == chain[i + 1].Hash();
    if i > 0 {
      BranchStored(blocks, genesis, chain, top, bottom, i - 1);
      assert Rooted(blocks, genesis, chain[i - 1]) && chain[i - 1].parent == chain[i].Hash();
    }
  }

  lemma {:induction false} BranchBottom(blocks: set<Header>, genesis: Header, chain: seq<Header>, top: Header,
                                        bottom: Header)
    requires Closed(blocks, genesis) && IsBranch(chain, top, bottom) && top in blocks && bottom in blocks
    ensures bottom.number == top.number - |chain|
    ensures Ancestor(top.Hash(), |chain|) == bottom.Hash()
    decreases |chain|
  {
    if |chain| > 0 {
      assert Rooted(blocks, genesis, top);
      assert |chain| > 1 ==> chain[0].parent == chain[1].Hash();
      if |chain| > 1 {
        BranchBottom(blocks, genesis, chain[1..], chain[1], bottom);
      }
    }
  }

  /**
   A transaction of a fresh branch is not in the chain below it.
   */
  lemma {:induction false} BranchIsFresh(blocks: set<Header>, genesis: Header, chain: seq<Header>, top: Header,
                                         bottom: Header, tx: nat)
    requires Closed(blocks, genesis) && IsBranch(chain, top, bottom) && top in blocks && bottom in blocks
    requires forall b :: FreshIn(blocks, b)
    requires HolderIn(chain, tx).Some?
    ensures HolderOf(bottom.Hash(), tx).None?
    decreases |chain|
  {
    assert Rooted(blocks, genesis, top) && FreshIn(blocks, top);
    if |chain| == 1 {
      assert chain[1..] == [];
    } else {
      assert chain[0].parent == chain[1].Hash();
      BranchStored(blocks, genesis, chain, top, bottom, 1);
      BranchHolder(chain[1..], chain[1], bottom, tx);
      if tx !in chain[0].body {
        BranchIsFresh(blocks, genesis, chain[1..], chain[1], bottom, tx);
      }
    }
  }

  // ----- fork choice -----

  /** A block as it is written: the leader's credential comes with it but is not part of its hash. */
  datatype Candidate = Candidate(header: Header, credential: nat)

  function HeadersOf(bs: seq<Candidate>): seq<Header> {
    seq(|bs|, i requires 0 <= i < |bs| => bs[i].header)
  }

  /**
   What the fork choice asks of code outside this model: the bytes of a hash, the
   sortition weight of a credential in the state of a given header, and the least
   hash drawn with a credential of a given weight.
   */
  datatype Oracle = Oracle(hashKey: Hash -> nat, weight: (Header, nat) -> nat, draw: (nat, nat) -> nat)
  {
    ghost predicate Injective() {
      forall a, b :: hashKey(a) == hashKey(b) ==> a == b
    }

    /** `LessThanByProofInt` */
    function Compare(a: Candidate, b: Candidate, wa: nat, wb: nat): int {
      if wa == 0 then 1
      else if wb == 0 then -1
      else draw(a.credential, wa) - draw(b.credential, wb)
    }

    function WeightOf(p: Header, b: Candidate): nat { weight(p, b.credential) }

    function DrawOf(p: Header, b: Candidate): nat { draw(b.credential, WeightOf(p, b)) }

    function KeyOf(b: Candidate): nat { hashKey(b.header.Hash()) }

    /** Whether a block of the head's height replaces it; weights are taken in the canonical parent `p`. */
    predicate Replaces(p: Header, b: Candidate, head: Candidate) {
      var cmp := Compare(b, head, WeightOf(p, b), WeightOf(p, head));
      cmp < 0 || (cmp == 0 && KeyOf(b) < KeyOf(head))
    }

    /** The same said outright: only a block with weight wins, on the lesser draw and then the lesser hash. */
    ghost predicate Wins(p: Header, b: Candidate, head: Candidate) {
      var wb, wh := weight(p, b.credential), weight(p, head.credential);
      && wb > 0
      && (|| wh == 0
          || draw(b.credential, wb) < draw(head.credential, wh)
          || (&& draw(b.credential, wb) == draw(head.credential, wh)
              && hashKey(HashOf(b.header)) < hashKey(HashOf(head.header))))
    }

    predicate Preferred(p: Header, b: Candidate, head: Candidate) {
      b.header.number > head.header.number || (b.header.number == head.header.number && Replaces(p, b, head))
    }

    /** `b` is `x`, or beats it: it has weight, and `x` has none or a greater draw or, at one draw, no lesser hash. */
    predicate Beats(p: Header, b: Candidate, x: Candidate) {
      || b == x
      || (&& WeightOf(p, b) != 0
          && (|| WeightOf(p, x) == 0
              || DrawOf(p, b) < DrawOf(p, x)
              || (DrawOf(p, b) == DrawOf(p, x) && KeyOf(b) <= KeyOf(x))))
    }

    /** The head after writing siblings in the given order, starting from `head`. */
    function HeadAfter(p: Header, head: Candidate, bs: seq<Candidate>): Candidate {
      if bs == [] then head
      else
        var h := HeadAfter(p, head, bs[..|bs| - 1]);
        var b := bs[|bs| - 1];
        if Preferred(p, b, h) then b else h
    }
  }

  ghost predicate IsChild(p: Header, b: Candidate) {
    b.header.parent == p.Hash() && b.header.number == p.number + 1
  }

  ghost predicate Siblings(p: Header, bs: seq<Candidate>) {
    forall i :: 0 <= i < |bs| ==> IsChild(p, bs[i])
  }

  ghost predicate SomeWeight(o: Oracle, p: Header, bs: seq<Candidate>) {
    exists i :: 0 <= i < |bs| && o.WeightOf(p, bs[i]) != 0
  }

  ghost predicate BeatsAll(o: Oracle, p: Header, h: Candidate, bs: seq<Candidate>) {
    forall i :: 0 <= i < |bs| ==> o.Beats(p, h, bs[i])
  }

  /** `h` is the best of `bs`: it has weight and beats all, or none has weight and it is the first. */
  ghost predicate IsBest(o: Oracle, p: Header, h: Candidate, bs: seq<Candidate>) {
    if SomeWeight(o, p, bs) then o.WeightOf(p, h) != 0 && BeatsAll(o, p, h, bs)
    else |bs| > 0 && h == bs[0]
  }

  lemma OneMore(o: Oracle, p: Header, h: Candidate, rest: seq<Candidate>, b: Candidate)
    requires IsBest(o, p, h, rest) && h.header.number == b.header.number && rest != []
    ensures IsBest(o, p, if o.Preferred(p, b, h) then b else h, rest + [b])
  {
    var bs, x := rest + [b], if o.Preferred(p, b, h) then b else h;
    assert bs[|rest|] == b && forall i :: 0 <= i < |rest| ==> bs[i] == rest[i];
    if SomeWeight(o, p, bs) {
      assert o.WeightOf(p, b) != 0 || SomeWeight(o, p, rest);
      forall i | 0 <= i < |bs| ensures o.Beats(p, x, bs[i]) {
        if i < |rest| {
          assert SomeWeight(o, p, rest) ==> o.Beats(p, h, rest[i]);
          assert o.WeightOf(p, rest[i]) != 0 ==> SomeWeight(o, p, rest);
        }
      }
    } else {
      assert o.WeightOf(p, bs[|rest|]) == 0;
    }
  }

  /** The head after writing siblings, the first of which was the head before, is the best of them. */
  lemma {:induction false} HeadIsBest(o: Oracle, p: Header, bs: seq<Candidate>)
    requires Siblings(p, bs) && bs != []
    ensures o.HeadAfter(p, bs[0], bs[1..]) in bs && IsBest(o, p, o.HeadAfter(p, bs[0], bs[1..]), bs)
    decreases |bs|
  {
    var n := |bs| - 1;
    if n > 0 {
      var rest, b := bs[..n], bs[n];
      assert bs == rest + [b] && bs[1..][..n - 1] == rest[1..] && bs[1..][n - 1] == b;
      HeadIsBest(o, p, rest);
      OneMore(o, p, o.HeadAfter(p, bs[0], rest[1..]), rest, b);
    }
  }

  /** Siblings written on their parent: the first of them becomes the head at once. */
  lemma {:induction false} FromParent(o: Oracle, p: Candidate, bs: seq<Candidate>)
    requires Siblings(p.header, bs) && bs != []
    ensures o.HeadAfter(p.header, p, bs) == o.HeadAfter(p.header, bs[0], bs[1..])
    decreases |bs|
  {
    var n := |bs| - 1;
    if n == 0 {
      assert bs[..0] == [];
    } else {
      FromParent(o, p, bs[..n]);
      assert bs[..n][1..] == bs[1..][..n - 1] && bs[1..][n - 1] == bs[n];
    }
  }

  lemma BestIsUnique(o: Oracle, p: Header, b: Candidate, c: Candidate)
    requires o.Injective() && o.Beats(p, b, c) && o.Beats(p, c, b)
    ensures b.header == c.header
  {
  }

  /** The same siblings in any two orders, whichever is the head already: the same head, if one of them has weight. */
  lemma OrderDoesNotMatter(o: Oracle, p: Header, bs: seq<Candidate>, cs: seq<Candidate>)
    requires o.Injective() && Siblings(p, bs) && Siblings(p, cs)
    requires forall b :: b in bs <==> b in cs
    requires SomeWeight(o, p, bs)
    ensures bs != [] && cs != []
    ensures o.HeadAfter(p, bs[0], bs[1..]).header == o.HeadAfter(p, cs[0], cs[1..]).header
  {
    var i :| 0 <= i < |bs| && o.WeightOf(p, bs[i]) != 0;
    assert bs[i] in cs;
    HeadIsBest(o, p, bs);
    HeadIsBest(o, p, cs);
    var x, y := o.HeadAfter(p, bs[0], bs[1..]), o.HeadAfter(p, cs[0], cs[1..]);
    assert x in cs && y in bs;
    BestIsUnique(o, p, x, y);
  }

  /** If none has weight, the first one written stays. */
  lemma FirstStays(o: Oracle, p: Header, bs: seq<Candidate>)
    requires Siblings(p, bs) && bs != [] && !SomeWeight(o, p, bs)
    ensures o.HeadAfter(p, bs[0], bs[1..]) == bs[0]
  {
    HeadIsBest(o, p, bs);
  }

  ghost predicate Weightless(o: Oracle, p: Header, blocks: set<Candidate>) {
    forall b :: b in blocks ==> o.WeightOf(p, b) == 0
  }

  ghost predicate ChildrenOf(p: Header, blocks: set<Candidate>) {
    forall b :: b in blocks ==> IsChild(p, b)
  }

  /** The blocks do not all have one hash. */
  ghost predicate Differ(blocks: set<Candidate>) {
    exists b, c :: b in blocks && c in blocks && b.header != c.header
  }

  /** Two different siblings, none with weight: the order decides. */
  lemma OrderMatters(o: Oracle, p: Header, blocks: set<Candidate>) returns (bs: seq<Candidate>, cs: seq<Candidate>)
    requires ChildrenOf(p, blocks) && Differ(blocks) && Weightless(o, p, blocks)
    ensures OrdersDiffer(o, p, blocks, bs, cs)
  {
    var b, c :| b in blocks && c in blocks && b.header != c.header;
    var rest := SomeOrder(blocks);
    bs, cs := [b] + rest, [c] + rest;
    assert Orders(bs, blocks) && Orders(cs, blocks);
    OrderedSiblings(o, p, blocks, bs);
    OrderedSiblings(o, p, blocks, cs);
    FirstStays(o, p, bs);
    FirstStays(o, p, cs);
  }

  lemma OrderedSiblings(o: Oracle, p: Header, blocks: set<Candidate>, bs: seq<Candidate>)
    requires ChildrenOf(p, blocks) && Orders(bs, blocks)
    ensures Siblings(p, bs) && (SomeWeight(o, p, bs) <==> !Weightless(o, p, blocks))
  {
    forall i | 0 <= i < |bs| ensures bs[i] in blocks {
      assert bs[i] in bs;
    }
    if !Weightless(o, p, blocks) {
      var b :| b in blocks && o.WeightOf(p, b) != 0;
      assert b in bs;
    }
  }

  /** Otherwise it does not. */
  lemma OrderIsFree(o: Oracle, p: Header, blocks: set<Candidate>, bs: seq<Candidate>, cs: seq<Candidate>)
    requires o.Injective() && ChildrenOf(p, blocks) && Orders(bs, blocks) && Orders(cs, blocks) && bs != [] && cs != []
    requires !Differ(blocks) || !Weightless(o, p, blocks)
    ensures o.HeadAfter(p, bs[0], bs[1..]).header == o.HeadAfter(p, cs[0], cs[1..]).header
  {
    OrderedSiblings(o, p, blocks, bs);
    OrderedSiblings(o, p, blocks, cs);
    if !Weightless(o, p, blocks) {
      OrderDoesNotMatter(o, p, bs, cs);
    } else {
      HeadIsBest(o, p, bs);
      HeadIsBest(o, p, cs);
    }
  }

  ghost predicate OrdersDiffer(o: Oracle, p: Header, blocks: set<Candidate>, bs: seq<Candidate>, cs: seq<Candidate>) {
    && Orders(bs, blocks) && Orders(cs, blocks) && bs != [] && cs != []
    && o.HeadAfter(p, bs[0], bs[1..]).header != o.HeadAfter(p, cs[0], cs[1..]).header
  }

  /**
   The order in which siblings are written decides on the head exactly when they
   are not all one block and none of them has weight.
   */
  lemma OrderMattersIff(o: Oracle, p: Header, blocks: set<Candidate>)
    requires o.Injective() && ChildrenOf(p, blocks)
    ensures (exists bs, cs :: OrdersDiffer(o, p, blocks, bs, cs)) <==> Differ(blocks) && Weightless(o, p, blocks)
  {
    if Differ(blocks) && Weightless(o, p, blocks) {
      var bs, cs := OrderMatters(o, p, blocks);
    } else {
      forall bs, cs ensures !OrdersDiffer(o, p, blocks, bs, cs) {
        if Orders(bs, blocks) && Orders(cs, blocks) && bs != [] && cs != [] {
          OrderIsFree(o, p, blocks, bs, cs);
        }
      }
    }
  }

  /** `bs` writes exactly the blocks of a set, some perhaps more than once. */
  ghost predicate Orders(bs: seq<Candidate>, blocks: set<Candidate>) {
    forall b :: b in bs <==> b in blocks
  }

  lemma {:induction false} SomeOrder(blocks: set<Candidate>) returns (bs: seq<Candidate>)
    ensures Orders(bs, blocks)
    decreases |blocks|
  {
    if blocks == {} {
      bs := [];
    } else {
      var b :| b in blocks;
      bs := SomeOrder(blocks - {b});
      bs := bs + [b];
    }
  }
}
