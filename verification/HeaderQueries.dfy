/**
 `GetAncestor` and the loop that answers a `GetBlockHeaders` message with it.
 The loop reads the chain several times without holding the lock in between, so
 each read may see another state of it.
 */
module HeaderQueries {
  import opened Headers
  import opened Transactions

  const UINT64: nat := 0x1_0000_0000_0000_0000
  const MAX_HEADER_FETCH: nat := 192
  const SOFT_RESPONSE_LIMIT: nat := 2 * 1024 * 1024
  const EST_HEADER_RLP_SIZE: nat := 500
  const MAX_NON_CANONICAL: nat := 100

  /** What a reader of the chain sees at one moment. */
  datatype ChainView = ChainView(genesis: Header, headers: set<Header>, canon: map<nat, Hash>, head: Header)
  {
    /**
     Entries of the number index are stored headers of that number.  This holds at
     every moment, also while a reorganisation is being written.
     */
    ghost predicate Readable() {
      && Closed(headers, genesis) && (forall n: nat :: n in canon ==> Stored(headers, canon[n], n))
      && forall h :: h in headers ==> h.number < UINT64
    }

    /** Between writes the index is also one parent-linked chain up to the head. */
    ghost predicate Valid() {
      Readable() && Linked(canon, headers, genesis, head)
    }

    /** `ReadCanonicalHash`: the zero hash stands for an absent entry. */
    function Read(number: nat): Hash {
      if number in canon then canon[number] else ZeroHash
    }

    predicate IsCanonical(hash: Hash, number: nat) {
      Read(number) == hash
    }
  }

  /** How many parent links lead to a canonical header, if fewer than `ancestor` do. */
  function Hops(v: ChainView, hash: Hash, number: nat, ancestor: nat): nat {
    if ancestor == 0 || number == 0 || hash.ZeroHash? || v.IsCanonical(hash, number) then 0
    else 1 + Hops(v, hash.header.parent, number - 1, ancestor - 1)
  }

  /** The ancestor exists, the header is stored, and few enough steps lead to the canonical chain. */
  ghost predicate Found(v: ChainView, hash: Hash, number: nat, ancestor: nat, maxNonCanonical: nat) {
    && ancestor <= number && (ancestor == 0 || Stored(v.headers, hash, number))
    && (ancestor == 1 || Hops(v, hash, number, ancestor) <= maxNonCanonical)
  }

  /** Where the search arrives: by parent links, or by the index from the first canonical header on. */
  function Reached(v: ChainView, hash: Hash, number: nat, ancestor: nat): Hash
    requires ancestor <= number
  {
    if ancestor <= 1 || Hops(v, hash, number, ancestor) == ancestor then Ancestor(hash, ancestor)
    else v.Read(number - ancestor)
  }

  /** The search ends with a hash. */
  ghost predicate Arrives(v: ChainView, hash: Hash, number: nat, ancestor: nat, maxNonCanonical: nat) {
    Found(v, hash, number, ancestor, maxNonCanonical) && Reached(v, hash, number, ancestor).HashOf?
  }

  lemma {:induction false} HopsLead(v: ChainView, hash: Hash, number: nat, ancestor: nat)
    requires v.Valid() && ancestor <= number && (ancestor == 0 || Stored(v.headers, hash, number))
    ensures Hops(v, hash, number, ancestor) < ancestor ==> v.Read(number - ancestor) == Ancestor(hash, ancestor)
  {
    if ancestor > 0 {
      if v.IsCanonical(hash, number) {
        IndexDescends(v.canon, v.headers, v.genesis, v.head, number, ancestor);
      } else {
        assert Rooted(v.headers, v.genesis, hash.header);
        HopsLead(v, hash.header.parent, number - 1, ancestor - 1);
      }
    }
  }

  /** Between writes the search arrives at the true ancestor whenever it finds anything. */
  lemma ReachedIsAncestor(v: ChainView, hash: Hash, number: nat, ancestor: nat, maxNonCanonical: nat)
    requires v.Valid() && Found(v, hash, number, ancestor, maxNonCanonical) && hash.HashOf?
    ensures Reached(v, hash, number, ancestor) == Ancestor(hash, ancestor)
    ensures Arrives(v, hash, number, ancestor, maxNonCanonical)
  {
    HopsLead(v, hash, number, ancestor);
    HopsBound(v, hash, number, ancestor);
    if ancestor > 0 {
      AncestorStored(v.headers, v.genesis, hash, number, ancestor);
    }
  }

  lemma {:induction false} HopsBound(v: ChainView, hash: Hash, number: nat, ancestor: nat)
    ensures Hops(v, hash, number, ancestor) <= ancestor
  {
    if !(ancestor == 0 || number == 0 || hash.ZeroHash? || v.IsCanonical(hash, number)) {
      HopsBound(v, hash.header.parent, number - 1, ancestor - 1);
    }
  }

  /** The ancestor `j` parents away is on the index. */
  ghost predicate OnIndex(v: ChainView, hash: Hash, number: nat, j: nat)
    requires j <= number
  {
    v.Read(number - j) == Ancestor(hash, j)
  }

  /** Going from parent to parent, the first header on the index is `k` away, or none is before the ancestor. */
  ghost predicate Climbed(v: ChainView, hash: Hash, number: nat, ancestor: nat, k: int)
    requires ancestor <= number
  {
    && 0 <= k <= ancestor && (k < ancestor ==> OnIndex(v, hash, number, k))
    && forall j :: 0 <= j < k ==> !OnIndex(v, hash, number, j)
  }

  lemma {:induction false} HopsClimb(v: ChainView, hash: Hash, number: nat, ancestor: nat)
    requires Closed(v.headers, v.genesis) && ancestor <= number && (ancestor == 0 || Stored(v.headers, hash, number))
    ensures Climbed(v, hash, number, ancestor, Hops(v, hash, number, ancestor))
  {
    if ancestor > 0 && !v.IsCanonical(hash, number) {
      assert Rooted(v.headers, v.genesis, hash.header);
      var parent := hash.header.parent;
      HopsClimb(v, parent, number - 1, ancestor - 1);
      var k := Hops(v, parent, number - 1, ancestor - 1);
      assert k < ancestor - 1 ==> OnIndex(v, parent, number - 1, k);
      forall j | 0 <= j < k + 1 ensures !OnIndex(v, hash, number, j) {
        assert j > 0 ==> !OnIndex(v, parent, number - 1, j - 1);
      }
    }
  }

  /** No header on the index is within so many parents, nor is the ancestor. */
  ghost predicate TooFar(v: ChainView, hash: Hash, number: nat, ancestor: nat, maxNonCanonical: nat)
    requires ancestor <= number
  {
    maxNonCanonical < ancestor && forall j :: 0 <= j <= maxNonCanonical ==> !OnIndex(v, hash, number, j)
  }

  /**
   The `ancestor`-th ancestor of the header with the given hash and number.  It
   is found unless there is none, the header is not stored there, or more
   individual steps than allowed lead to the canonical chain.  While a
   reorganisation is half written, the jump along the index can also miss the
   ancestor.  The zero hash, which no header has, matches the absent entries of the
   index: from there, and only from there, two or more steps back answer a
   canonical hash for it.
   */
  method GetAncestor(v: ChainView, hash: Hash, number: nat, ancestor: nat, maxNonCanonical: nat)
    returns (h: Hash, n: nat, left: nat)
    requires v.Readable()
    ensures hash.HashOf? ==> (h.HashOf? <==> Arrives(v, hash, number, ancestor, maxNonCanonical))
    ensures hash.HashOf? && h.HashOf? ==>
              && h == Reached(v, hash, number, ancestor) && n == number - ancestor
              && (ancestor > 0 ==> Stored(v.headers, h, n))
    ensures hash.HashOf? && h.HashOf? && ancestor != 1 ==> left == maxNonCanonical - Hops(v, hash, number, ancestor)
    ensures hash.HashOf? && h.HashOf? && ancestor == 1 ==> left == maxNonCanonical
    ensures hash.ZeroHash? ==>
              (h.HashOf? <==> 2 <= ancestor <= number && number !in v.canon && number - ancestor in v.canon)
    ensures hash.ZeroHash? && h.HashOf? ==> n == number - ancestor && v.IsCanonical(h, n) && left == maxNonCanonical
    // between writes
    ensures v.Valid() && hash.HashOf? ==> (h.HashOf? <==> Found(v, hash, number, ancestor, maxNonCanonical))
    ensures v.Valid() && hash.HashOf? && h.HashOf? ==> h == Ancestor(hash, ancestor)
    ensures v.Valid() && hash.HashOf? && h.ZeroHash? ==> n == 0
    // the budget
    ensures hash.HashOf? && h.HashOf? && ancestor > 1 ==>
              ancestor <= number && Climbed(v, hash, number, ancestor, maxNonCanonical - left)
    ensures v.Valid() && hash.HashOf? && h.ZeroHash? ==>
              ancestor > number || !Stored(v.headers, hash, number)
              || (ancestor > 1 && TooFar(v, hash, number, ancestor, maxNonCanonical))
  {
    if ancestor <= number && Stored(v.headers, hash, number) {
      HopsClimb(v, hash, number, ancestor);
    }
    if v.Valid() && hash.HashOf? && Found(v, hash, number, ancestor, maxNonCanonical) {
      ReachedIsAncestor(v, hash, number, ancestor, maxNonCanonical);
    }
    left := maxNonCanonical;
    if ancestor > number {
      return ZeroHash, 0, left;
    }
    if ancestor == 1 {
      if Stored(v.headers, hash, number) {
        AncestorStored(v.headers, v.genesis, hash, number, 1);
        return hash.header.parent, number - 1, left;
      }
      return ZeroHash, 0, left;
    }
    var a: nat := ancestor;
    h, n := hash, number;
    while a != 0
      invariant a <= ancestor && n == number - (ancestor - a) && left == maxNonCanonical - (ancestor - a)
      invariant Ancestor(h, a) == Ancestor(hash, ancestor) && (h.ZeroHash? <==> hash.ZeroHash?)
      invariant Hops(v, hash, number, ancestor) == ancestor - a + Hops(v, h, n, a)
      invariant Stored(v.headers, h, n) <==> Stored(v.headers, hash, number)
      invariant a < ancestor ==> Stored(v.headers, hash, number)
    {
      if v.IsCanonical(h, n) {
        n := n - a;
        return v.Read(n), n, left;
      }
      if left == 0 {
        return ZeroHash, 0, left;
      }
      left := left - 1;
      if !Stored(v.headers, h, n) {
        return ZeroHash, 0, left;
      }
      assert Rooted(v.headers, v.genesis, h.header);
      h, n, a := h.header.parent, n - 1, a - 1;
    }
  }

  datatype Origin = ByHash(hash: Hash) | ByNumber(number: nat)

  datatype Query = Query(origin: Origin, amount: nat, skip: nat, reverse: bool)
  {
    /** The fields fit their wire types, and a hash query names a hash. */
    ghost predicate WellFormed() {
      amount < UINT64 && skip < UINT64 && (if origin.ByHash? then origin.hash.HashOf? else origin.number < UINT64)
    }

    /** `int(query.Amount)` */
    function Limit(): int {
      if amount < UINT64 / 2 then amount else amount - UINT64
    }
  }

  /** `b` is what a query asks for after `a`. */
  ghost predicate Follows(q: Query, a: Header, b: Header) {
    if q.origin.ByHash? && q.reverse then
      b.Hash() == Ancestor(a.Hash(), q.skip + 1) && b.number + q.skip + 1 == a.number
    else if q.origin.ByHash? then
      a.Hash() == Ancestor(b.Hash(), q.skip + 1) && a.number + q.skip + 1 == b.number
    else if q.reverse then
      b.number + (q.skip + 1) % UINT64 == a.number
    else
      b.number == (a.number + q.skip + 1) % UINT64
  }

  /** The headers of an answer follow each other as the query asks. */
  ghost predicate Answers(q: Query, hs: seq<Header>) {
    && (|hs| > 0 ==> if q.origin.ByHash? then hs[0].Hash() == q.origin.hash else hs[0].number == q.origin.number)
    && (forall i, j :: 0 <= i && j == i + 1 && j < |hs| ==> Follows(q, hs[i], hs[j]))
  }

  /** Where the loop stands: the next header to look up, and the step budget left. */
  datatype Cursor = Cursor(hash: Hash, number: nat, left: nat)

  /** The header at the cursor is there. */
  predicate Present(v: ChainView, q: Query, c: Cursor, first: bool) {
    if q.origin.ByHash? then
      c.hash.HashOf? && c.hash.header in v.headers && (first || c.hash.header.number == c.number)
    else c.number in v.canon && v.canon[c.number].HashOf?
  }

  function HeaderAt(v: ChainView, q: Query, c: Cursor, first: bool): Header
    requires Present(v, q, c, first)
  {
    if q.origin.ByHash? then c.hash.header else v.canon[c.number].header
  }

  /** The query leads nowhere from `h`: over an end of the chain, off the branch, or beyond the step budget. */
  ghost predicate Dead(v1: ChainView, v2: ChainView, q: Query, h: Header, left: nat) {
    var step := (q.skip + 1) % UINT64;
    if q.origin.ByHash? && q.reverse then
      step == 0 || !Arrives(v1, h.Hash(), h.number, step, left)
    else if q.origin.ByHash? then
      var next := h.number + q.skip + 1;
      !(&& next < UINT64 && next in v1.canon
        && Found(v2, v1.canon[next], next, step, left) && Reached(v2, v1.canon[next], next, step) == h.Hash())
    else q.reverse && h.number < step
  }

  /** Where a query that leads on from `h` goes, and what is then left of the budget. */
  function Moved(v1: ChainView, v2: ChainView, q: Query, h: Header, left: nat): Cursor {
    var step := (q.skip + 1) % UINT64;
    if q.origin.ByHash? && q.reverse then
      if step > h.number then Cursor(ZeroHash, 0, left)
      else Cursor(Reached(v1, h.Hash(), h.number, step), h.number - step,
                  Spend(left, step, Hops(v1, h.Hash(), h.number, step)))
    else if q.origin.ByHash? then
      var next := h.number + q.skip + 1;
      Cursor(v1.Read(next), next, Spend(left, step, Hops(v2, v1.Read(next), next, step)))
    else if q.reverse then
      Cursor(ZeroHash, if h.number >= step then h.number - step else 0, left)
    else
      Cursor(ZeroHash, (h.number + q.skip + 1) % UINT64, left)
  }

  /** A parent is read directly, without looking at the canonical chain. */
  function Spend(left: nat, step: nat, hops: nat): nat {
    if step == 1 then left else if hops <= left then left - hops else 0
  }

  function Start(q: Query): Cursor {
    if q.origin.ByHash? then Cursor(q.origin.hash, 0, MAX_NON_CANONICAL)
    else Cursor(ZeroHash, q.origin.number, MAX_NON_CANONICAL)
  }

  /**
   The answer goes on at `c`, as its header number `k`, with `h`: no limit is
   reached, and the header is there at the moment of the look and can be proved.
   */
  ghost predicate GoesOn(v: ChainView, q: Query, provable: Header -> bool, k: nat, c: Cursor, h: Header) {
    && k < q.Limit() && k < MAX_HEADER_FETCH
    && Present(v, q, c, k == 0) && h == HeaderAt(v, q, c, k == 0) && provable(h)
  }

  /** The query led nowhere from header `k - 1`; that header was looked up at moment `3 * (k - 1)`. */
  ghost predicate DeadBefore(views: nat -> ChainView, q: Query, hs: seq<Header>, cs: seq<Cursor>, k: nat)
    requires k <= |hs| && k <= |cs|
  {
    k > 0 && Dead(views(3 * k - 2), views(3 * k - 1), q, hs[k - 1], cs[k - 1].left)
  }

  /**
   Header `k` of the answer is the one that the query led to at cursor `k`, and
   cursor `k + 1` is where it leads on.
   */
  ghost predicate StepAt(views: nat -> ChainView, q: Query, provable: Header -> bool, hs: seq<Header>, cs: seq<Cursor>,
                         k: nat)
    requires k < |hs| && |cs| == |hs| + 1
  {
    && !DeadBefore(views, q, hs, cs, k) && GoesOn(views(3 * k), q, provable, k, cs[k], hs[k])
    && cs[k + 1] == Moved(views(3 * k + 1), views(3 * k + 2), q, hs[k], cs[k].left)
  }

  /** The headers `hs` are what the query led to, along the cursors `cs`. */
  ghost predicate Walked(views: nat -> ChainView, q: Query, provable: Header -> bool, hs: seq<Header>,
                         cs: seq<Cursor>) {
    && |cs| == |hs| + 1 && cs[0] == Start(q)
    && forall k :: 0 <= k < |hs| ==> StepAt(views, q, provable, hs, cs, k)
  }

  /** The query leads to no header after `hs`. */
  ghost predicate Ended(views: nat -> ChainView, q: Query, provable: Header -> bool, hs: seq<Header>, cs: seq<Cursor>)
    requires |cs| == |hs| + 1
  {
    DeadBefore(views, q, hs, cs, |hs|) || forall h :: !GoesOn(views(3 * |hs|), q, provable, |hs|, cs[|hs|], h)
  }

  /** The answer is what the query leads to, and all of it. */
  ghost predicate Exact(views: nat -> ChainView, q: Query, provable: Header -> bool, hs: seq<Header>, cs: seq<Cursor>) {
    Walked(views, q, provable, hs, cs) && Ended(views, q, provable, hs, cs)
  }

  lemma WalkedMore(views: nat -> ChainView, q: Query, provable: Header -> bool, hs: seq<Header>, cs: seq<Cursor>,
                   h: Header, c: Cursor)
    requires Walked(views, q, provable, hs, cs) && !DeadBefore(views, q, hs, cs, |hs|)
    requires GoesOn(views(3 * |hs|), q, provable, |hs|, cs[|hs|], h)
    requires c == Moved(views(3 * |hs| + 1), views(3 * |hs| + 2), q, h, cs[|hs|].left)
    ensures Walked(views, q, provable, hs + [h], cs + [c])
  {
    var hs', cs' := hs + [h], cs + [c];
    forall k | 0 <= k < |hs'| ensures StepAt(views, q, provable, hs', cs', k) {
      assert k < |hs| ==> StepAt(views, q, provable, hs, cs, k);
    }
  }

  /** Two walks of the same query agree as far as both go. */
  lemma {:induction false} SameWalk(views: nat -> ChainView, q: Query, provable: Header -> bool,
                                    a: seq<Header>, ca: seq<Cursor>, b: seq<Header>, cb: seq<Cursor>, k: nat)
    requires Walked(views, q, provable, a, ca) && Walked(views, q, provable, b, cb) && k <= |a| && k <= |b|
    ensures ca[k] == cb[k] && forall i :: 0 <= i < k ==> a[i] == b[i] && ca[i] == cb[i]
  {
    if k > 0 {
      SameWalk(views, q, provable, a, ca, b, cb, k - 1);
      assert StepAt(views, q, provable, a, ca, k - 1) && StepAt(views, q, provable, b, cb, k - 1);
    }
  }

  /** So a walk that has ended is no shorter than any other. */
  lemma NoLonger(views: nat -> ChainView, q: Query, provable: Header -> bool,
                 a: seq<Header>, ca: seq<Cursor>, b: seq<Header>, cb: seq<Cursor>)
    requires Exact(views, q, provable, a, ca) && Walked(views, q, provable, b, cb)
    ensures |b| <= |a|
  {
    var n := if |a| < |b| then |a| else |b|;
    SameWalk(views, q, provable, a, ca, b, cb, n);
    assert n < |b| ==> StepAt(views, q, provable, b, cb, n);
  }

  /** There is only one exact answer. */
  lemma ExactIsUnique(views: nat -> ChainView, q: Query, provable: Header -> bool,
                      a: seq<Header>, ca: seq<Cursor>, b: seq<Header>, cb: seq<Cursor>)
    requires Exact(views, q, provable, a, ca) && Exact(views, q, provable, b, cb)
    ensures a == b
  {
    NoLonger(views, q, provable, a, ca, b, cb);
    NoLonger(views, q, provable, b, cb, a, ca);
    SameWalk(views, q, provable, a, ca, b, cb, |a|);
  }

  // ----- the answer in closed form -----

  /** The number a query asks for as its `k`-th header, starting from `origin`; number queries wrap round. */
  function NumberAt(q: Query, origin: nat, k: nat): int {
    if q.reverse then origin - k * ((q.skip + 1) % UINT64)
    else if q.origin.ByNumber? then (origin + k * (q.skip + 1)) % UINT64
    else origin + k * (q.skip + 1)
  }

  /** The header that the index of `v` has at number `n` is there, and can be proved. */
  ghost predicate Shown(v: ChainView, provable: Header -> bool, n: int) {
    n >= 0 && n in v.canon && v.canon[n].HashOf? && provable(v.canon[n].header)
  }

  /** Header `k` of an answer is the one on the index at the `k`-th number asked for. */
  ghost predicate ShownAt(views: nat -> ChainView, q: Query, provable: Header -> bool, origin: nat, hs: seq<Header>,
                          k: nat)
    requires k < |hs|
  {
    var n := NumberAt(q, origin, k);
    Shown(views(3 * k), provable, n) && hs[k] == views(3 * k).canon[n].header
  }

  /** The answer holds the headers on the index at the numbers asked for, and stops at the first that is not there. */
  ghost predicate Enumerates(views: nat -> ChainView, q: Query, provable: Header -> bool, origin: nat,
                             hs: seq<Header>) {
    && (forall k :: 0 <= k < |hs| ==> ShownAt(views, q, provable, origin, hs, k))
    && (|| |hs| >= q.amount || q.amount >= 0x8000_0000_0000_0000 || |hs| >= 192
        || !Shown(views(3 * |hs|), provable, NumberAt(q, origin, |hs|)))
  }

  /** The number asked for after `n`. */
  function NextNumber(q: Query, n: int): int {
    if q.reverse then n - (q.skip + 1) % UINT64
    else if q.origin.ByNumber? then (n + q.skip + 1) % UINT64
    else n + q.skip + 1
  }

  /** The same number, step by step. */
  function Nth(q: Query, origin: nat, k: nat): int {
    if k == 0 then origin else NextNumber(q, Nth(q, origin, k - 1))
  }

  lemma {:induction false} NthIsNumber(q: Query, origin: nat, k: nat)
    requires q.origin.ByNumber? && !q.reverse ==> origin < UINT64
    ensures Nth(q, origin, k) == NumberAt(q, origin, k)
  {
    if k > 0 {
      NthIsNumber(q, origin, k - 1);
      NumberAfter(q, origin, k - 1, k);
    }
  }

  lemma NumberAfter(q: Query, origin: nat, k: nat, k': nat)
    requires k' == k + 1
    ensures NumberAt(q, origin, k') == NextNumber(q, NumberAt(q, origin, k))
  {
    var step := if q.reverse then (q.skip + 1) % UINT64 else q.skip + 1;
    var far := k * step;
    assert k' * step == far + step;
    if !q.reverse && q.origin.ByNumber? {
      WrapStep(origin + far, step);
    }
  }

  lemma WrapStep(a: nat, step: nat)
    ensures (a % UINT64 + step) % UINT64 == (a + step) % UINT64
  {
    var t, r := a / UINT64, a % UINT64;
    assert a + step == UINT64 * t + (r + step);
  }

  /** From the header on the index at `c.number`, a number query moves on to the next number, if there is one. */
  lemma NumberStep(v: ChainView, v1: ChainView, v2: ChainView, q: Query, provable: Header -> bool, k: nat, c: Cursor,
                   h: Header)
    requires v.Readable() && q.origin.ByNumber? && GoesOn(v, q, provable, k, c, h)
    ensures h.number == c.number && Shown(v, provable, c.number) && h == v.canon[c.number].header
    ensures Dead(v1, v2, q, h, c.left) <==> NextNumber(q, c.number) < 0
    ensures NextNumber(q, c.number) >= 0 ==> Moved(v1, v2, q, h, c.left).number == NextNumber(q, c.number)
  {
  }

  lemma {:induction false} NumbersWalked(views: nat -> ChainView, q: Query, provable: Header -> bool, hs: seq<Header>,
                                         cs: seq<Cursor>, k: nat)
    requires (forall t :: views(t).Readable()) && q.origin.ByNumber?
    requires Walked(views, q, provable, hs, cs) && k < |hs|
    ensures cs[k].number == Nth(q, q.origin.number, k) && GoesOn(views(3 * k), q, provable, k, cs[k], hs[k])
    ensures cs[k + 1] == Moved(views(3 * k + 1), views(3 * k + 2), q, hs[k], cs[k].left)
  {
    assert StepAt(views, q, provable, hs, cs, k);
    if k > 0 {
      NumbersWalked(views, q, provable, hs, cs, k - 1);
      NumberStep(views(3 * (k - 1)), views(3 * k - 2), views(3 * k - 1), q, provable, k - 1, cs[k - 1], hs[k - 1]);
    }
  }

  lemma NumbersShown(views: nat -> ChainView, q: Query, provable: Header -> bool, hs: seq<Header>, cs: seq<Cursor>,
                     k: nat)
    requires (forall t :: views(t).Readable()) && q.WellFormed() && q.origin.ByNumber?
    requires Walked(views, q, provable, hs, cs) && k < |hs|
    ensures ShownAt(views, q, provable, q.origin.number, hs, k)
  {
    NumbersWalked(views, q, provable, hs, cs, k);
    NumberStep(views(3 * k), views(3 * k), views(3 * k), q, provable, k, cs[k], hs[k]);
    NthIsNumber(q, q.origin.number, k);
  }

  /** Where a number query stops, the next number is not there. */
  lemma NumbersEnd(views: nat -> ChainView, q: Query, provable: Header -> bool, hs: seq<Header>, cs: seq<Cursor>)
    requires (forall t :: views(t).Readable()) && q.origin.ByNumber? && Exact(views, q, provable, hs, cs)
    ensures |hs| >= q.Limit() || |hs| >= 192 || !Shown(views(3 * |hs|), provable, Nth(q, q.origin.number, |hs|))
  {
    var n, v := |hs|, views(3 * |hs|);
    if n > 0 {
      NumbersWalked(views, q, provable, hs, cs, n - 1);
      NumberStep(views(3 * n - 3), views(3 * n - 2), views(3 * n - 1), q, provable, n - 1, cs[n - 1], hs[n - 1]);
    }
    if !DeadBefore(views, q, hs, cs, n) && Present(v, q, cs[n], n == 0) {
      assert !GoesOn(v, q, provable, n, cs[n], HeaderAt(v, q, cs[n], n == 0));
    }
  }

  /** A query by number enumerates the index, whatever happens to the chain meanwhile. */
  lemma NumbersEnumerated(views: nat -> ChainView, q: Query, provable: Header -> bool, hs: seq<Header>,
                          cs: seq<Cursor>)
    requires (forall t :: views(t).Readable()) && q.WellFormed() && q.origin.ByNumber?
    requires Exact(views, q, provable, hs, cs)
    ensures Enumerates(views, q, provable, q.origin.number, hs)
  {
    forall k | 0 <= k < |hs| ensures ShownAt(views, q, provable, q.origin.number, hs, k) {
      NumbersShown(views, q, provable, hs, cs, k);
    }
    NumbersEnd(views, q, provable, hs, cs);
    NthIsNumber(q, q.origin.number, |hs|);
  }

  /** The query starts from a header on the index of a chain that does not change. */
  ghost predicate Still(views: nat -> ChainView, q: Query, v: ChainView) {
    && v.Valid() && (forall t :: views(t) == v) && q.origin.ByHash? && q.origin.hash.HashOf? && q.skip + 1 < UINT64
    && v.IsCanonical(q.origin.hash, q.origin.hash.header.number)
  }

  /** From a header on the index, a hash query leads to the index entry a step further, and spends nothing. */
  lemma CanonicalStep(v: ChainView, q: Query, h: Header, left: nat)
    requires v.Valid() && q.origin.ByHash? && q.skip + 1 < UINT64 && v.IsCanonical(h.Hash(), h.number)
    ensures var n := NextNumber(q, h.number);
            if n < 0 || n !in v.canon then Dead(v, v, q, h, left)
            else !Dead(v, v, q, h, left) && Moved(v, v, q, h, left) == Cursor(v.canon[n], n, left)
  {
    var step := q.skip + 1;
    assert step % UINT64 == step && h.number in v.canon && Stored(v.headers, v.canon[h.number], h.number);
    if q.reverse {
      if step <= h.number {
        IndexDescends(v.canon, v.headers, v.genesis, v.head, h.number, step);
        assert Stored(v.headers, v.canon[h.number - step], h.number - step);
      }
    } else if h.number + step in v.canon {
      IndexDescends(v.canon, v.headers, v.genesis, v.head, h.number + step, step);
      assert Stored(v.headers, v.canon[h.number + step], h.number + step);
    }
  }

  /** The cursor is at number `n` of the index, with the whole budget left. */
  ghost predicate AtIndex(v: ChainView, c: Cursor, k: nat, n: int) {
    n >= 0 && n in v.canon && c.hash == v.canon[n] && c.left == MAX_NON_CANONICAL && (k > 0 ==> c.number == n)
  }

  /** There the answer goes on exactly if the header can be proved. */
  lemma AtIndexGoesOn(v: ChainView, q: Query, provable: Header -> bool, k: nat, c: Cursor, n: int, h: Header)
    requires v.Valid() && q.origin.ByHash? && AtIndex(v, c, k, n)
    ensures v.canon[n].HashOf? && v.canon[n].header.number == n
    ensures GoesOn(v, q, provable, k, c, h) <==>
              k < q.Limit() && k < 192 && provable(v.canon[n].header) && h == v.canon[n].header
  {
    assert Stored(v.headers, v.canon[n], n);
  }

  lemma {:induction false} HashesWalked(views: nat -> ChainView, q: Query, provable: Header -> bool, hs: seq<Header>,
                                        cs: seq<Cursor>, v: ChainView, k: nat)
    requires Still(views, q, v) && Walked(views, q, provable, hs, cs) && k <= |hs|
    ensures var n := Nth(q, q.origin.hash.header.number, k);
            if DeadBefore(views, q, hs, cs, k) then n < 0 || n !in v.canon else AtIndex(v, cs[k], k, n)
  {
    if k > 0 {
      assert StepAt(views, q, provable, hs, cs, k - 1);
      HashesWalked(views, q, provable, hs, cs, v, k - 1);
      AtIndexGoesOn(v, q, provable, k - 1, cs[k - 1], Nth(q, q.origin.hash.header.number, k - 1), hs[k - 1]);
      CanonicalStep(v, q, hs[k - 1], MAX_NON_CANONICAL);
    }
  }

  lemma HashesShown(views: nat -> ChainView, q: Query, provable: Header -> bool, hs: seq<Header>, cs: seq<Cursor>,
                    v: ChainView, k: nat)
    requires Still(views, q, v) && Walked(views, q, provable, hs, cs) && k < |hs|
    ensures ShownAt(views, q, provable, q.origin.hash.header.number, hs, k)
  {
    assert StepAt(views, q, provable, hs, cs, k);
    HashesWalked(views, q, provable, hs, cs, v, k);
    AtIndexGoesOn(v, q, provable, k, cs[k], Nth(q, q.origin.hash.header.number, k), hs[k]);
    NthIsNumber(q, q.origin.hash.header.number, k);
  }

  lemma HashesEnd(views: nat -> ChainView, q: Query, provable: Header -> bool, hs: seq<Header>, cs: seq<Cursor>,
                  v: ChainView)
    requires Still(views, q, v) && Exact(views, q, provable, hs, cs)
    ensures |hs| >= q.Limit() || |hs| >= 192 || !Shown(v, provable, Nth(q, q.origin.hash.header.number, |hs|))
  {
    var k := |hs|;
    var n := Nth(q, q.origin.hash.header.number, k);
    HashesWalked(views, q, provable, hs, cs, v, k);
    if !DeadBefore(views, q, hs, cs, k) {
      AtIndexGoesOn(v, q, provable, k, cs[k], n, v.canon[n].header);
      assert !GoesOn(views(3 * k), q, provable, k, cs[k], v.canon[n].header);
    }
  }

  /** So does a query by hash from a header on the index, if the chain does not change meanwhile. */
  lemma HashesEnumerated(views: nat -> ChainView, q: Query, provable: Header -> bool, hs: seq<Header>, cs: seq<Cursor>,
                         v: ChainView)
    requires Still(views, q, v) && Exact(views, q, provable, hs, cs)
    ensures Enumerates(views, q, provable, q.origin.hash.header.number, hs)
  {
    var origin := q.origin.hash.header.number;
    forall k | 0 <= k < |hs| ensures ShownAt(views, q, provable, origin, hs, k) {
      HashesShown(views, q, provable, hs, cs, v, k);
    }
    HashesEnd(views, q, provable, hs, cs, v);
    NthIsNumber(q, origin, |hs|);
  }

  /** `c'` is a cursor to what follows `h`. */
  ghost predicate LeadsOn(q: Query, h: Header, c': Cursor) {
    if q.origin.ByHash? then
      c'.hash.HashOf? && c'.hash.header.number == c'.number && Follows(q, h, c'.hash.header)
    else forall h': Header :: h'.number == c'.number ==> Follows(q, h, h')
  }

  /** The index was one chain whenever an ancestor was looked for on behalf of a hash query. */
  ghost predicate Settled(views: nat -> ChainView, q: Query) {
    forall k: nat :: SettledAt(views, q, k)
  }

  ghost predicate SettledAt(views: nat -> ChainView, q: Query, k: nat) {
    SettledFor(q, views(3 * k + 1), views(3 * k + 2))
  }

  /** The second of the two later moments is the one that counts, unless the query goes back. */
  ghost predicate SettledFor(q: Query, v1: ChainView, v2: ChainView) {
    q.origin.ByHash? ==> if q.reverse then v1.Valid() else v2.Valid()
  }

  ghost predicate NextIs(q: Query, hs: seq<Header>, c: Cursor) {
    if hs == [] then c == Start(q) else LeadsOn(q, hs[|hs| - 1], c)
  }

  /** Retrieves the header at the cursor. */
  method Lookup(v: ChainView, q: Query, c: Cursor, first: bool) returns (r: Option<Header>)
    requires v.Readable()
    ensures r.Some? <==> Present(v, q, c, first)
    ensures r.Some? ==> r.value == HeaderAt(v, q, c, first) && r.value in v.headers
    ensures r.Some? && q.origin.ByHash? ==> r.value.Hash() == c.hash && (first || r.value.number == c.number)
    ensures r.Some? && !q.origin.ByHash? ==> r.value.number == c.number && v.IsCanonical(r.value.Hash(), c.number)
  {
    if q.origin.ByHash? {
      if c.hash.HashOf? && c.hash.header in v.headers && (first || c.hash.header.number == c.number) {
        return Some(c.hash.header);
      }
    } else if c.number in v.canon {
      return Some(v.canon[c.number].header);
    }
    return None;
  }

  /** Hash-based traversal towards the genesis block. */
  method StepBack(v1: ChainView, q: Query, origin: Header, c: Cursor) returns (unknown: bool, c': Cursor)
    requires v1.Readable() && q.WellFormed() && q.origin.ByHash? && q.reverse
    requires c.hash == origin.Hash() && c.number == origin.number < UINT64
    ensures unknown <==> Dead(v1, v1, q, origin, c.left)
    ensures !unknown ==> c' == Moved(v1, v1, q, origin, c.left) && c'.hash.HashOf?
    ensures !unknown && v1.Valid() ==> LeadsOn(q, origin, c')
    ensures !unknown ==> c'.number <= c.number
  {
    c', unknown := c, true;
    var step := (q.skip + 1) % UINT64;
    if step != 0 {
      var h, n, left := GetAncestor(v1, c.hash, c.number, step, c.left);
      c', unknown := Cursor(h, n, left), h.ZeroHash?;
    }
  }

  /** The overflow test: a sum that wrapped round is not greater. */
  lemma NoWrap(current: nat, skip: nat)
    requires current < UINT64 && skip < UINT64
    ensures (current + skip + 1) % UINT64 > current <==> current + skip + 1 < UINT64
    ensures current + skip + 1 < UINT64 ==>
              (current + skip + 1) % UINT64 == current + skip + 1 && (skip + 1) % UINT64 == skip + 1
  {
  }

  /** Hash-based traversal towards the leaf block. */
  method StepForward(v1: ChainView, v2: ChainView, q: Query, origin: Header, c: Cursor)
    returns (unknown: bool, c': Cursor)
    requires v1.Readable() && v2.Readable() && q.WellFormed() && q.origin.ByHash? && !q.reverse
    requires c.hash == origin.Hash() && c.number == origin.number < UINT64
    ensures unknown <==> Dead(v1, v2, q, origin, c.left)
    ensures !unknown ==> c' == Moved(v1, v2, q, origin, c.left) && c'.hash.HashOf?
    ensures !unknown && v2.Valid() ==> LeadsOn(q, origin, c')
    ensures c'.number < UINT64
  {
    c', unknown := c, true;
    var step := (q.skip + 1) % UINT64;
    var current := origin.number;
    var next := (current + q.skip + 1) % UINT64;
    NoWrap(current, q.skip);
    if next > current && next in v1.canon {
      var nextHash := v1.canon[next];
      var h, n, left := GetAncestor(v2, nextHash, next, step, c.left);
      c' := c.(left := left);
      if h == c.hash {
        c', unknown := Cursor(nextHash, next, left), false;
      }
    }
  }

  /** Moves the cursor past `origin`, reading the chain at two later moments. */
  method Advance(v1: ChainView, v2: ChainView, q: Query, origin: Header, c: Cursor) returns (unknown: bool, c': Cursor)
    requires v1.Readable() && v2.Readable() && q.WellFormed()
    requires c.number == origin.number < UINT64
    requires c.hash == if q.origin.ByHash? then origin.Hash() else ZeroHash
    ensures unknown <==> Dead(v1, v2, q, origin, c.left)
    ensures !unknown ==> c' == Moved(v1, v2, q, origin, c.left) && c'.number < UINT64
    ensures !unknown && SettledFor(q, v1, v2) ==> LeadsOn(q, origin, c')
  {
    if q.origin.ByHash? && q.reverse {
      unknown, c' := StepBack(v1, q, origin, c);
      return;
    }
    if q.origin.ByHash? {
      unknown, c' := StepForward(v1, v2, q, origin, c);
      return;
    }
    c', unknown := c, true;
    var step := (q.skip + 1) % UINT64;
    if q.reverse {
      if c.number >= step {
        c', unknown := c.(number := c.number - step), false;
      }
    } else {
      c', unknown := c.(number := (c.number + step) % UINT64), false;
      assert c'.number == (origin.number + q.skip + 1) % UINT64;
    }
  }

  /** Retrieves the next header of the query; the cursor is then at that header. */
  method Fetch(v: ChainView, q: Query, c: Cursor, hs: seq<Header>) returns (found: Option<Header>, c': Cursor)
    requires v.Readable() && q.WellFormed() && c.number < UINT64
    requires !q.origin.ByHash? ==> c.hash == ZeroHash
    ensures found.Some? <==> Present(v, q, c, hs == [])
    ensures found.Some? && Answers(q, hs) && NextIs(q, hs, c) ==> Answers(q, hs + [found.value])
    ensures found.Some? ==>
              && found.value == HeaderAt(v, q, c, hs == [])
              && c'.number == found.value.number < UINT64 && c'.left == c.left
              && c'.hash == if q.origin.ByHash? then found.value.Hash() else ZeroHash
  {
    found := Lookup(v, q, c, hs == []);
    c' := c;
    if found.Some? {
      if Answers(q, hs) && NextIs(q, hs, c) {
        AnswersMore(q, hs, found.value);
      }
      if hs == [] && q.origin.ByHash? {
        c' := c.(number := found.value.number);
      }
    }
  }

  /** The state of the loop: the headers so far are what the query led to, and the cursor is where it leads next. */
  ghost predicate Underway(views: nat -> ChainView, q: Query, provable: Header -> bool, hs: seq<Header>,
                           cs: seq<Cursor>,
                           c: Cursor, unknown: bool) {
    && Walked(views, q, provable, hs, cs) && (unknown <==> DeadBefore(views, q, hs, cs, |hs|))
    && (!unknown ==> c == cs[|hs|] && c.number < UINT64)
    && (Settled(views, q) ==> Answers(q, hs) && (!unknown ==> NextIs(q, hs, c)))
    && (!unknown && !q.origin.ByHash? ==> c.hash == ZeroHash)
  }

  lemma UnderwayMore(views: nat -> ChainView, q: Query, provable: Header -> bool, hs: seq<Header>, cs: seq<Cursor>,
                     c: Cursor, h: Header, c': Cursor, unknown: bool)
    requires Underway(views, q, provable, hs, cs, c, false) && (Settled(views, q) ==> Answers(q, hs + [h]))
    requires GoesOn(views(3 * |hs|), q, provable, |hs|, c, h)
    requires unknown <==> Dead(views(3 * |hs| + 1), views(3 * |hs| + 2), q, h, c.left)
    requires !unknown ==> c'.number < UINT64 && (Settled(views, q) ==> LeadsOn(q, h, c'))
    requires !unknown ==> c' == Moved(views(3 * |hs| + 1), views(3 * |hs| + 2), q, h, c.left)
    ensures Underway(views, q, provable, hs + [h],
                     cs + [Moved(views(3 * |hs| + 1), views(3 * |hs| + 2), q, h, c.left)], c', unknown)
  {
    var next := Moved(views(3 * |hs| + 1), views(3 * |hs| + 2), q, h, c.left);
    WalkedMore(views, q, provable, hs, cs, h, next);
    var hs', cs' := hs + [h], cs + [next];
    assert hs'[|hs|] == h && cs'[|hs|] == c && cs'[|hs| + 1] == next && 3 * |hs'| - 2 == 3 * |hs| + 1;
  }

  /** One round of the loop: retrieves a header and moves on from it. */
  method Gather(views: nat -> ChainView, q: Query, provable: Header -> bool, hs: seq<Header>, c: Cursor,
                ghost cs: seq<Cursor>)
    returns (more: Option<Header>, unknown: bool, c': Cursor, ghost cs': seq<Cursor>)
    requires q.WellFormed() && Underway(views, q, provable, hs, cs, c, false)
    requires views(3 * |hs|).Readable() && views(3 * |hs| + 1).Readable() && views(3 * |hs| + 2).Readable()
    requires |hs| < q.Limit() && |hs| < MAX_HEADER_FETCH
    ensures more.None? ==> Ended(views, q, provable, hs, cs)
    ensures more.Some? ==> Underway(views, q, provable, hs + [more.value], cs', c', unknown)
  {
    unknown, cs' := false, cs;
    more, c' := Fetch(views(3 * |hs|), q, c, hs);
    if more.None? {
      return;
    }
    if !provable(more.value) {
      return None, false, c', cs;
    }
    assert Settled(views, q) ==> SettledAt(views, q, |hs|);
    unknown, c' := Advance(views(3 * |hs| + 1), views(3 * |hs| + 2), q, more.value, c');
    cs' := cs + [Moved(views(3 * |hs| + 1), views(3 * |hs| + 2), q, more.value, c.left)];
    UnderwayMore(views, q, provable, hs, cs, c, more.value, c', unknown);
  }

  /**
   Answers a query.  The answer is exactly what the query leads to at the moments
   of the reads.  If no reorganisation is half written while an ancestor is looked
   for, then, whatever else happens to the chain, two consecutive headers of a hash
   query are `skip + 1` ancestors apart on one branch, in either direction.
   */
  method Answer(views: nat -> ChainView, q: Query, provable: Header -> bool)
    returns (hs: seq<Header>, ghost cs: seq<Cursor>)
    requires (forall t :: views(t).Readable()) && q.WellFormed()
    ensures Settled(views, q) ==> Answers(q, hs)
    ensures |hs| <= 192 && |hs| <= q.amount && (q.amount >= 0x8000_0000_0000_0000 ==> hs == [])
    ensures Exact(views, q, provable, hs, cs)
    ensures q.origin.ByNumber? ==> Enumerates(views, q, provable, q.origin.number, hs)
    ensures forall v :: Still(views, q, v) ==> Enumerates(views, q, provable, q.origin.hash.header.number, hs)
  {
    hs, cs := Collect(views, q, provable);
    if q.origin.ByNumber? {
      NumbersEnumerated(views, q, provable, hs, cs);
    }
    forall v | Still(views, q, v) ensures Enumerates(views, q, provable, q.origin.hash.header.number, hs) {
      HashesEnumerated(views, q, provable, hs, cs, v);
    }
  }

  /** The loop that gathers the headers. */
  method Collect(views: nat -> ChainView, q: Query, provable: Header -> bool)
    returns (hs: seq<Header>, ghost cs: seq<Cursor>)
    requires (forall t :: views(t).Readable()) && q.WellFormed()
    ensures Settled(views, q) ==> Answers(q, hs)
    ensures |hs| <= MAX_HEADER_FETCH && (|hs| <= q.Limit() || hs == [])
    ensures Exact(views, q, provable, hs, cs)
  {
    hs, cs := [], [Start(q)];
    var bytes, unknown := 0, false;
    var c := Start(q);
    while !unknown && |hs| < q.Limit() && bytes < SOFT_RESPONSE_LIMIT && |hs| < MAX_HEADER_FETCH
      invariant Underway(views, q, provable, hs, cs, c, unknown) && bytes == EST_HEADER_RLP_SIZE * |hs|
      invariant |hs| <= MAX_HEADER_FETCH && (|hs| <= q.Limit() || hs == [])
      decreases MAX_HEADER_FETCH - |hs|
    {
      ghost var cs';
      var more;
      more, unknown, c, cs' := Gather(views, q, provable, hs, c, cs);
      if more.None? {
        return;
      }
      hs, cs, bytes := hs + [more.value], cs', bytes + EST_HEADER_RLP_SIZE;
    }
  }

  lemma AnswersMore(q: Query, hs: seq<Header>, h: Header)
    requires Answers(q, hs)
    requires if |hs| == 0 then
               if q.origin.ByHash? then h.Hash() == q.origin.hash else h.number == q.origin.number
             else Follows(q, hs[|hs| - 1], h)
    ensures Answers(q, hs + [h])
  {
  }

  /** On a chain of the genesis block alone, the zero hash two numbers up has that block as its second ancestor. */
  method ZeroHashIsAnswered(genesis: Header) returns (h: Hash, n: nat)
    requires genesis.number == 0 && genesis.parent == ZeroHash
    ensures h == genesis.Hash() && n == 0
  {
    var v := ChainView(genesis, {genesis}, map[0 := genesis.Hash()], genesis);
    var left;
    h, n, left := GetAncestor(v, ZeroHash, 2, 2, MAX_NON_CANONICAL);
  }

  /**
   A reorganisation from the branch of `a` to that of `b` has written the entry of
   number 1 but not yet those above.  From `a3`, two steps back along the index lead
   to `b1`, which is on the other branch.
   */
  method HalfWrittenMisleads(genesis: Header, a1: Header, a2: Header, a3: Header, b1: Header)
    returns (h: Hash, n: nat)
    requires genesis.number == 0 && genesis.parent == ZeroHash && a1 != b1
    requires a1.number == b1.number == 1 && a1.parent == b1.parent == genesis.Hash()
    requires a2.number == 2 && a2.parent == a1.Hash() && a3.number == 3 && a3.parent == a2.Hash()
    ensures h == b1.Hash() && n == 1 && Ancestor(a3.Hash(), 2) == a1.Hash() != h
  {
    var canon := map[0 := genesis.Hash(), 1 := b1.Hash(), 2 := a2.Hash(), 3 := a3.Hash()];
    var v := ChainView(genesis, {genesis, a1, a2, a3, b1}, canon, a3);
    var left;
    h, n, left := GetAncestor(v, a3.Hash(), 3, 2, MAX_NON_CANONICAL);
    assert Ancestor(a2.Hash(), 1) == Ancestor(a1.Hash(), 0) == a1.Hash();
    assert Ancestor(a3.Hash(), 2) == Ancestor(a2.Hash(), 1);
  }
}
