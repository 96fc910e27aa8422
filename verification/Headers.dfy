/**
 Headers, their hashes, and ancestry.  A hash is the header it was taken of, so
 equal hashes have equal headers and following a parent hash never leads back.
 */
module Headers {
  datatype Hash = ZeroHash | HashOf(header: Header)

  /** `body` stands for everything else a header commits to. */
  datatype Header = Header(parent: Hash, number: nat, difficulty: nat, body: seq<nat>)
  {
    function Hash(): Hash { HashOf(this) }
  }

  /** The hash reached by following `k` parent links; past the genesis block there is only the zero hash. */
  function Ancestor(hash: Hash, k: nat): Hash {
    if k == 0 || hash.ZeroHash? then hash else Ancestor(hash.header.parent, k - 1)
  }

  /** The difficulties along a header's ancestors, its own included. */
  function TotalDifficulty(hash: Hash): nat {
    if hash.ZeroHash? then 0 else hash.header.difficulty + TotalDifficulty(hash.header.parent)
  }

  lemma {:induction false} AncestorTwice(hash: Hash, j: nat, k: nat)
    ensures Ancestor(Ancestor(hash, j), k) == Ancestor(hash, j + k)
  {
    if j > 0 && hash.HashOf? {
      AncestorTwice(hash.header.parent, j - 1, k);
    } else if hash.ZeroHash? {
      NoAncestor(j);
      NoAncestor(k);
      NoAncestor(j + k);
    }
  }

  lemma NoAncestor(k: nat)
    ensures Ancestor(ZeroHash, k) == ZeroHash
  {
  }

  // ----- a parent-closed store of headers -----

  /** Every stored header but the genesis has its parent stored, one number below. */
  ghost predicate Rooted(headers: set<Header>, genesis: Header, h: Header) {
    h in headers && h != genesis ==> h.number > 0 && Stored(headers, h.parent, h.number - 1)
  }

  predicate Stored(headers: set<Header>, hash: Hash, number: nat) {
    hash.HashOf? && hash.header in headers && hash.header.number == number
  }

  ghost predicate Closed(headers: set<Header>, genesis: Header) {
    && genesis in headers && genesis.number == 0 && genesis.parent == ZeroHash
    && forall h :: Rooted(headers, genesis, h)
  }

  /** The `k`-th ancestor of a stored header is stored, `k` numbers below. */
  lemma {:induction false} AncestorStored(headers: set<Header>, genesis: Header, hash: Hash, number: nat, k: nat)
    requires Closed(headers, genesis) && Stored(headers, hash, number) && k <= number
    ensures Stored(headers, Ancestor(hash, k), number - k)
  {
    if k > 0 {
      assert Rooted(headers, genesis, hash.header);
      AncestorStored(headers, genesis, hash.header.parent, number - 1, k - 1);
    }
  }

  lemma ClosedMore(headers: set<Header>, genesis: Header, h: Header)
    requires Closed(headers, genesis) && h.number > 0 && Stored(headers, h.parent, h.number - 1)
    ensures Closed(headers + {h}, genesis)
  {
    var headers' := headers + {h};
    forall x ensures Rooted(headers', genesis, x) {
      assert Rooted(headers, genesis, x);
    }
  }

  /** What is stored after writing headers one by one: each one whose parent is stored by then. */
  function Written(headers: set<Header>, hs: seq<Header>): set<Header> {
    if hs == [] then headers
    else
      var n := |hs| - 1;
      var before := Written(headers, hs[..n]);
      if hs[n].number > 0 && Stored(before, hs[n].parent, hs[n].number - 1) then before + {hs[n]} else before
  }

  // ----- the canonical number index -----

  /** Index entry `i`: present up to height `top`, a stored header of that number whose parent is the entry below. */
  ghost predicate IndexedAt(canon: map<nat, Hash>, headers: set<Header>, top: nat, i: nat) {
    && (i in canon <==> i <= top)
    && (i in canon ==> Stored(headers, canon[i], i))
    && (i in canon && i > 0 ==> i - 1 in canon && canon[i].header.parent == canon[i - 1])
  }

  /** The index holds one parent-linked chain from the genesis block to `head` and nothing above it. */
  ghost predicate Linked(canon: map<nat, Hash>, headers: set<Header>, genesis: Header, head: Header) {
    && (forall i: nat :: IndexedAt(canon, headers, head.number, i))
    && head.number in canon && canon[head.number] == head.Hash()
    && 0 in canon && canon[0] == genesis.Hash()
  }

  /** So each entry is the head's ancestor at its height. */
  lemma {:induction false} IndexIsAncestry(canon: map<nat, Hash>, headers: set<Header>, genesis: Header, head: Header,
                                           i: nat)
    requires Linked(canon, headers, genesis, head) && i <= head.number
    ensures i in canon && canon[i] == Ancestor(head.Hash(), head.number - i)
    decreases head.number - i
  {
    IndexDescends(canon, headers, genesis, head, head.number, head.number - i);
  }

  /** From a canonical header, parent links stay in the index. */
  lemma {:induction false} IndexDescends(canon: map<nat, Hash>, headers: set<Header>, genesis: Header, head: Header,
                                         i: nat, k: nat)
    requires Linked(canon, headers, genesis, head) && k <= i && i in canon
    ensures i - k in canon && canon[i - k] == Ancestor(canon[i], k)
    decreases k
  {
    assert IndexedAt(canon, headers, head.number, i);
    if k > 0 {
      IndexDescends(canon, headers, genesis, head, i - 1, k - 1);
    }
  }

  ghost predicate EntryOk(canon: map<nat, Hash>, headers: set<Header>, i: nat) {
    i in canon && Stored(headers, canon[i], i) && (i > 0 ==> i - 1 in canon && canon[i].header.parent == canon[i - 1])
  }

  /** The index is right up to `head`; nothing is said about what is above. */
  ghost predicate Reaches(canon: map<nat, Hash>, headers: set<Header>, genesis: Header, head: Header) {
    && (forall i: nat :: i <= head.number ==> EntryOk(canon, headers, i))
    && head.number in canon && canon[head.number] == head.Hash()
    && 0 in canon && canon[0] == genesis.Hash()
  }

  /** So each entry up to the head is its ancestor. */
  lemma {:induction false} ReachesDescends(canon: map<nat, Hash>, headers: set<Header>, genesis: Header, head: Header,
                                           i: nat, k: nat)
    requires Reaches(canon, headers, genesis, head) && k <= i <= head.number && i in canon
    ensures i - k in canon && canon[i - k] == Ancestor(canon[i], k)
    decreases k
  {
    assert EntryOk(canon, headers, i);
    if k > 0 {
      ReachesDescends(canon, headers, genesis, head, i - 1, k - 1);
    }
  }

  /** An index that is right up to the head is exact if and only if it has nothing above it. */
  lemma ExactIffNothingAbove(canon: map<nat, Hash>, headers: set<Header>, genesis: Header, head: Header)
    requires Reaches(canon, headers, genesis, head)
    ensures Linked(canon, headers, genesis, head) <==> forall i: nat :: i in canon ==> i <= head.number
  {
    if forall i: nat :: i in canon ==> i <= head.number {
      forall i: nat ensures IndexedAt(canon, headers, head.number, i) {
        assert i <= head.number ==> EntryOk(canon, headers, i);
      }
    } else {
      var i: nat :| i in canon && i > head.number;
      assert !IndexedAt(canon, headers, head.number, i);
    }
  }
}
