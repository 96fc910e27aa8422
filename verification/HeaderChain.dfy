/**
 `HeaderChain`: writing headers with total-difficulty fork choice.
 */
module HeaderChains {
  import opened Headers

  datatype WriteStatus = UnknownAncestor | Canonical | Side

  /** Every written header has its total difficulty recorded. */
  ghost predicate TdAt(headers: set<Header>, tds: map<Hash, nat>, hash: Hash) {
    && (hash in tds <==> hash.HashOf? && hash.header in headers)
    && (hash in tds ==> tds[hash] == TotalDifficulty(hash))
  }

  ghost predicate TdsOk(headers: set<Header>, tds: map<Hash, nat>) {
    forall hash :: TdAt(headers, tds, hash)
  }

  /** No written header outweighs the current one. */
  ghost predicate Outweighs(headers: set<Header>, head: Header, h: Header) {
    h in headers ==> TotalDifficulty(h.Hash()) <= TotalDifficulty(head.Hash())
  }

  ghost predicate Heaviest(headers: set<Header>, head: Header) {
    forall h :: Outweighs(headers, head, h)
  }

  class HeaderChain {
    const genesis: Header
    var headers: set<Header>
    var tds: map<Hash, nat>
    var canon: map<nat, Hash>
    var current: Header

    ghost predicate Valid()
      reads this
    {
      && Closed(headers, genesis) && current in headers
      && Linked(canon, headers, genesis, current)
      && TdsOk(headers, tds) && Heaviest(headers, current)
    }

    constructor (genesis: Header)
      requires genesis.number == 0 && genesis.parent == ZeroHash
      ensures Valid() && this.genesis == genesis && headers == {genesis} && current == genesis
    {
      this.genesis := genesis;
      headers, current := {genesis}, genesis;
      tds := map[genesis.Hash() := genesis.difficulty];
      canon := map[0 := genesis.Hash()];
      new;
      assert forall h :: Rooted(headers, genesis, h);
      forall hash ensures TdAt(headers, tds, hash) {
        assert TotalDifficulty(ZeroHash) == 0;
      }
      assert forall h :: Outweighs(headers, current, h);
    }

    /** Writes a header; the coin decides between equal total difficulties. */
    method WriteHeader(header: Header, coin: bool) returns (status: WriteStatus)
      requires Valid()
      modifies this
      ensures Valid()
      ensures status.UnknownAncestor? <==> header.number == 0 || !Stored(old(headers), header.parent, header.number - 1)
      ensures status.UnknownAncestor? ==> unchanged(this)
      ensures !status.UnknownAncestor? ==> headers == old(headers) + {header}
      ensures status.Side? ==> current == old(current) && canon == old(canon)
      ensures status.Canonical? ==> current == header
      ensures !status.UnknownAncestor? ==>
                var mine, best := TotalDifficulty(header.Hash()), TotalDifficulty(old(current).Hash());
                status.Canonical? <==> mine > best || (mine == best && coin)
    {
      if header.number == 0 || !Stored(headers, header.parent, header.number - 1) {
        return UnknownAncestor;
      }
      assert TdAt(headers, tds, header.parent) && TdAt(headers, tds, current.Hash());
      var externTd := header.difficulty + tds[header.parent];
      var localTd := tds[current.Hash()];
      ClosedMore(headers, genesis, header);
      TdsMore(headers, tds, header);
      HeaviestMore(headers, current, header);
      tds := tds[header.Hash() := externTd];
      headers := headers + {header};
      LinkedMore(canon, old(headers), headers, genesis, current);
      if externTd > localTd || (externTd == localTd && coin) {
        canon := Reroute(canon, headers, genesis, current, header);
        current := header;
        status := Canonical;
      } else {
        status := Side;
      }
    }

    /** Any sequence of header writes, with any coins. */
    method WriteAll(hs: seq<Header>, coins: seq<bool>)
      requires Valid() && |coins| == |hs|
      modifies this
      ensures Valid() && headers == Written(old(headers), hs) && old(headers) <= headers
      ensures TotalDifficulty(current.Hash()) >= TotalDifficulty(old(current).Hash())
    {
      assert hs[..0] == [];
      for i := 0 to |hs|
        invariant Valid() && headers == Written(old(headers), hs[..i]) && old(headers) <= headers
      {
        assert hs[..i + 1][..i] == hs[..i];
        var status := WriteHeader(hs[i], coins[i]);
      }
      assert hs[..|hs|] == hs;
      assert Outweighs(headers, current, old(current));
    }
  }

  lemma TdsMore(headers: set<Header>, tds: map<Hash, nat>, h: Header)
    requires TdsOk(headers, tds) && h.parent in tds
    ensures TdsOk(headers + {h}, tds[h.Hash() := h.difficulty + tds[h.parent]])
  {
    var headers', tds' := headers + {h}, tds[h.Hash() := h.difficulty + tds[h.parent]];
    assert TdAt(headers, tds, h.parent);
    forall hash ensures TdAt(headers', tds', hash) {
      assert TdAt(headers, tds, hash);
    }
  }

  lemma HeaviestMore(headers: set<Header>, head: Header, h: Header)
    requires Heaviest(headers, head)
    ensures TotalDifficulty(h.Hash()) <= TotalDifficulty(head.Hash()) ==> Heaviest(headers + {h}, head)
    ensures head in headers && TotalDifficulty(h.Hash()) >= TotalDifficulty(head.Hash()) ==> Heaviest(headers + {h}, h)
  {
    var headers' := headers + {h};
    forall x ensures TotalDifficulty(h.Hash()) <= TotalDifficulty(head.Hash()) ==> Outweighs(headers', head, x) {
      assert Outweighs(headers, head, x);
    }
    forall x ensures TotalDifficulty(h.Hash()) >= TotalDifficulty(head.Hash()) ==> Outweighs(headers', h, x) {
      assert Outweighs(headers, head, x);
    }
  }

  lemma LinkedMore(canon: map<nat, Hash>, headers: set<Header>, headers': set<Header>, genesis: Header, head: Header)
    requires Linked(canon, headers, genesis, head) && headers <= headers'
    ensures Linked(canon, headers', genesis, head)
  {
    forall i ensures IndexedAt(canon, headers', head.number, i) {
      assert IndexedAt(canon, headers, head.number, i);
    }
  }

  // ----- switching the canonical chain -----

  /** `c` is the part of an index of height `top` that is not above `number`. */
  ghost predicate KeptAt(canon: map<nat, Hash>, c: map<nat, Hash>, top: nat, number: nat, i: nat) {
    && (i in c <==> i <= top && i <= number)
    && (i in c ==> i in canon && c[i] == canon[i])
  }

  /** Deletes the index entries above a number, up to the first gap. */
  method DeleteAbove(canon: map<nat, Hash>, number: nat, ghost headers: set<Header>, ghost top: nat)
    returns (c: map<nat, Hash>)
    requires forall i: nat :: IndexedAt(canon, headers, top, i)
    ensures forall i: nat :: KeptAt(canon, c, top, number, i)
  {
    c := canon;
    var i := number + 1;
    assert forall j: nat :: IndexedAt(canon, headers, top, j) ==> (j in c <==> j <= top);
    while i in c
      invariant number < i && (i <= number + 1 || i <= top + 1)
      invariant forall j: nat :: j in c <==> j <= top && (j <= number || i <= j)
      invariant forall j: nat :: j in c ==> j in canon && c[j] == canon[j]
      decreases top + 1 - i
    {
      c := c - {i};
      i := i + 1;
    }
  }

  /**
   The overwritten part of the index: from number `hn` up to `header`, entries
   link up to the header, and the lowest of them has parent `hh`.
   */
  ghost predicate Overwritten(c: map<nat, Hash>, headers: set<Header>, header: Header, hh: Hash, hn: nat, i: nat) {
    hn < i < header.number ==>
      && i in c && Stored(headers, c[i], i)
      && (i == hn + 1 ==> c[i].header.parent == hh)
      && (i > hn + 1 ==> i - 1 in c && c[i].header.parent == c[i - 1])
  }

  ghost predicate Untouched(c1: map<nat, Hash>, c: map<nat, Hash>, header: Header, hn: nat, i: nat) {
    && (i <= hn ==> (i in c <==> i in c1) && (i in c && i in c1 ==> c[i] == c1[i]))
    && (i > header.number ==> i !in c)
  }

  ghost predicate Walking(c1: map<nat, Hash>, c: map<nat, Hash>, headers: set<Header>, header: Header, hh: Hash,
                          hn: nat) {
    && hn < header.number && Stored(headers, hh, hn)
    && (forall i: nat :: Overwritten(c, headers, header, hh, hn, i))
    && (forall i: nat :: Untouched(c1, c, header, hn, i))
    && (if hn == header.number - 1 then header.parent == hh
        else header.number - 1 in c && header.parent == c[header.number - 1])
  }

  lemma WalkOn(c1: map<nat, Hash>, c: map<nat, Hash>, headers: set<Header>, header: Header, hh: Hash, hn: nat)
    requires Walking(c1, c, headers, header, hh, hn) && hn > 0 && Stored(headers, hh.header.parent, hn - 1)
    ensures Walking(c1, c[hn := hh], headers, header, hh.header.parent, hn - 1)
  {
    var c', hh', hn' := c[hn := hh], hh.header.parent, hn - 1;
    forall i: nat ensures Overwritten(c', headers, header, hh', hn', i) {
      assert Overwritten(c, headers, header, hh, hn, i);
    }
    forall i: nat ensures Untouched(c1, c', header, hn', i) {
      assert Untouched(c1, c, header, hn, i);
    }
  }

  lemma WalkEnds(canon: map<nat, Hash>, c1: map<nat, Hash>, c: map<nat, Hash>, headers: set<Header>, genesis: Header,
                 head: Header, header: Header, hh: Hash, hn: nat)
    requires Linked(canon, headers, genesis, head) && header in headers
    requires forall i: nat :: KeptAt(canon, c1, head.number, header.number, i)
    requires Walking(c1, c, headers, header, hh, hn) && hn in c && c[hn] == hh
    ensures Linked(c[header.number := header.Hash()], headers, genesis, header)
  {
    var c' := c[header.number := header.Hash()];
    assert KeptAt(canon, c1, head.number, header.number, hn) && Untouched(c1, c, header, hn, hn);
    assert KeptAt(canon, c1, head.number, header.number, 0) && Untouched(c1, c, header, hn, 0);
    forall i: nat ensures IndexedAt(c', headers, header.number, i) {
      assert IndexedAt(canon, headers, head.number, i) && Overwritten(c, headers, header, hh, hn, i);
      assert KeptAt(canon, c1, head.number, header.number, i) && Untouched(c1, c, header, hn, i);
      if i > 0 {
        assert KeptAt(canon, c1, head.number, header.number, i - 1) && Untouched(c1, c, header, hn, i - 1);
      }
    }
  }

  /** Makes the index the ancestor chain of a new head whose parent is stored. */
  method Reroute(canon: map<nat, Hash>, headers: set<Header>, genesis: Header, ghost head: Header, header: Header)
    returns (c: map<nat, Hash>)
    requires Closed(headers, genesis) && header in headers && header.number > 0
    requires Linked(canon, headers, genesis, head)
    ensures Linked(c, headers, genesis, header)
  {
    c := DeleteAbove(canon, header.number, headers, head.number);
    ghost var c1 := c;
    var hh: Hash, hn: nat := header.parent, header.number - 1;
    assert Rooted(headers, genesis, header);
    assert forall i: nat :: KeptAt(canon, c1, head.number, header.number, i) ==> Untouched(c1, c, header, hn, i);
    while !(hn in c && c[hn] == hh)
      invariant Walking(c1, c, headers, header, hh, hn)
      decreases hn
    {
      assert KeptAt(canon, c1, head.number, header.number, 0) && Untouched(c1, c, header, hn, 0);
      assert Rooted(headers, genesis, hh.header);
      WalkOn(c1, c, headers, header, hh, hn);
      c := c[hn := hh];
      hh, hn := hh.header.parent, hn - 1;
    }
    WalkEnds(canon, c1, c, headers, genesis, head, header, hh, hn);
    c := c[header.number := header.Hash()];
  }
}
