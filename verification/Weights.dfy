/**
 `GetWeight`: a miner's sortition weight is its share of the total weight,
 rounded up or down by its own hash.
 */
module Weights {
  const WORD: nat := 0x1_0000_0000_0000_0000
  /** The 256-bit hash 0x80…0. */
  const HASH_HALF: nat := 0x8000000000000000000000000000000000000000000000000000000000000000

  datatype Miner = Miner(balance: nat, hash: nat)

  /**
   The quotient, rounded up if the hash is above the half, or equal to it and the
   quotient odd; only the low word of the remainder is looked at.
   */
  function Rounded(quotient: nat, remainder: nat, hash: nat): nat {
    var ownWeight := quotient % WORD;
    var delta :=
      if remainder % WORD == 0 then 0
      else if hash < HASH_HALF then 0
      else if hash > HASH_HALF then 1
      else if ownWeight % 2 == 0 then 0
      else 1;
    ownWeight + delta
  }

  function GetWeight(totalWeight: nat, miner: Miner, totalBalance: nat): nat
    requires totalBalance > 0
  {
    Rounded(totalWeight * miner.balance / totalBalance, totalWeight * miner.balance % totalBalance, miner.hash)
  }

  function Balances(miners: seq<Miner>): nat {
    if miners == [] then 0 else Balances(miners[..|miners| - 1]) + miners[|miners| - 1].balance
  }

  function Weights(totalWeight: nat, miners: seq<Miner>, totalBalance: nat): nat
    requires totalBalance > 0
  {
    if miners == [] then 0
    else
      Weights(totalWeight, miners[..|miners| - 1], totalBalance)
      + GetWeight(totalWeight, miners[|miners| - 1], totalBalance)
  }

  lemma Larger(a: nat, b: nat, t: nat)
    requires a <= b
    ensures a * t <= b * t
  {
  }

  /** The quotient of a share `x` of at most `y` whole units of `t`. */
  lemma QuotientBound(x: nat, y: nat, t: nat, q: nat, r: nat)
    requires t > 0 && x <= y * t && x == q * t + r && r < t
    ensures q <= y && (r != 0 ==> q < y)
  {
    if q > y {
      Larger(y + 1, q, t);
    }
  }

  /** A share is rounded up on a hash above the half, or at it on an odd quotient, if its remainder shows. */
  ghost predicate LooksUp(q: int, r: int, hash: nat) {
    var half := 0x8000000000000000000000000000000000000000000000000000000000000000;
    r % 0x1_0000_0000_0000_0000 != 0 && (hash > half || (hash == half && q % 2 == 1))
  }

  lemma RoundedUpOrDown(q: nat, r: nat, hash: nat)
    requires q < WORD
    ensures Rounded(q, r, hash) == q || (Rounded(q, r, hash) == q + 1 && r != 0)
    ensures Rounded(q, r, hash) == q + 1 <==> LooksUp(q, r, hash)
  {
  }

  /** A quotient or the next number, if there is a remainder, is within one of the exact share. */
  lemma WithinOne(x: nat, t: nat, q: nat, r: nat, w: nat)
    requires x == q * t + r && r < t && (w == q || (w == q + 1 && r != 0))
    ensures t * w < x + t && x < t * w + t && (t * w > x <==> w == q + 1)
  {
    assert t * (q + 1) == q * t + t;
  }

  lemma DivMod(x: nat, t: nat)
    requires t > 0
    ensures x == x / t * t + x % t
  {
  }

  /** The same for a share whose quotient and remainder are taken apart. */
  lemma RoundedQuotient(x: nat, y: nat, t: nat, hash: nat)
    requires t > 0 && x <= y * t && y < WORD
    ensures var w := Rounded(x / t, x % t, hash);
            w <= y && t * w < x + t && x < t * w + t && (t * w > x <==> LooksUp(x / t, x % t, hash))
  {
    DivMod(x, t);
    QuotientBound(x, y, t, x / t, x % t);
    RoundedUpOrDown(x / t, x % t, hash);
    WithinOne(x, t, x / t, x % t, Rounded(x / t, x % t, hash));
  }

  /**
   A weight is at most the total, and within one of the exact share, in units of
   the total balance; its own hash says on which side.
   */
  lemma RoundedShare(totalWeight: nat, miner: Miner, totalBalance: nat)
    requires 0 < totalBalance && miner.balance <= totalBalance && totalWeight < WORD
    ensures GetWeight(totalWeight, miner, totalBalance) <= totalWeight
    ensures totalBalance * GetWeight(totalWeight, miner, totalBalance) < totalWeight * miner.balance + totalBalance
    ensures totalWeight * miner.balance < totalBalance * GetWeight(totalWeight, miner, totalBalance) + totalBalance
    ensures var x := totalWeight * miner.balance;
            totalBalance * GetWeight(totalWeight, miner, totalBalance) > x <==>
              LooksUp(x / totalBalance, x % totalBalance, miner.hash)
  {
    Larger(miner.balance, totalBalance, totalWeight);
    RoundedQuotient(totalWeight * miner.balance, totalWeight, totalBalance, miner.hash);
  }

  /** `a` and `b` differ by at most `n` units of `t - 1`. */
  ghost predicate Within(a: int, b: int, n: nat, t: nat) {
    a <= b + n * (t - 1) && b <= a + n * (t - 1)
  }

  lemma OneMoreError(t: nat, w: nat, x: nat, total: nat, a: nat, b: nat, n: nat)
    requires t > 0 && Within(t * w, total * a, n, t)
    requires t * x < total * b + t && total * b < t * x + t
    ensures Within(t * (w + x), total * (a + b), n + 1, t)
  {
    assert t * (w + x) == t * w + t * x;
    assert total * (a + b) == total * a + total * b;
    assert (n + 1) * (t - 1) == n * (t - 1) + (t - 1);
  }

  /** The errors of several roundings add up. */
  lemma {:induction false} ErrorsAddUp(totalWeight: nat, miners: seq<Miner>, totalBalance: nat)
    requires 0 < totalBalance && Balances(miners) <= totalBalance && totalWeight < WORD
    ensures Within(totalBalance * Weights(totalWeight, miners, totalBalance), totalWeight * Balances(miners),
                   |miners|, totalBalance)
    decreases |miners|
  {
    if miners != [] {
      var n := |miners| - 1;
      var rest, miner := miners[..n], miners[n];
      ErrorsAddUp(totalWeight, rest, totalBalance);
      RoundedShare(totalWeight, miner, totalBalance);
      OneMoreError(totalBalance, Weights(totalWeight, rest, totalBalance), GetWeight(totalWeight, miner, totalBalance),
                   totalWeight, Balances(rest), miner.balance, n);
    }
  }

  lemma ErrorIsSmall(t: nat, a: nat, b: nat, n: nat)
    requires t > 0 && n > 0 && Within(t * a, b * t, n, t)
    ensures a < b + n && b < a + n
  {
    assert n * (t - 1) == n * t - n;
    assert (b + n) * t == b * t + n * t && (a + n) * t == a * t + n * t;
    if a >= b + n {
      Larger(b + n, a, t);
    }
    if b >= a + n {
      Larger(a + n, b, t);
    }
  }

  lemma {:induction false} BalanceInTotal(miners: seq<Miner>, i: nat)
    requires i < |miners|
    ensures miners[i].balance <= Balances(miners)
    decreases |miners|
  {
    var n := |miners| - 1;
    if i < n {
      BalanceInTotal(miners[..n], i);
      assert miners[..n][i] == miners[i];
    }
  }

  /**
   For miners whose balances add up to the recorded total, whatever their hashes:
   each weight is at most the total weight, and their sum differs from it by less
   than the number of miners.
   */
  lemma WeightsAddUp(totalWeight: nat, miners: seq<Miner>, totalBalance: nat)
    requires miners != [] && Balances(miners) == totalBalance > 0 && totalWeight < WORD
    ensures forall i :: 0 <= i < |miners| ==> GetWeight(totalWeight, miners[i], totalBalance) <= totalWeight
    ensures Weights(totalWeight, miners, totalBalance) < totalWeight + |miners|
    ensures totalWeight < Weights(totalWeight, miners, totalBalance) + |miners|
  {
    forall i | 0 <= i < |miners| ensures GetWeight(totalWeight, miners[i], totalBalance) <= totalWeight {
      BalanceInTotal(miners, i);
      RoundedShare(totalWeight, miners[i], totalBalance);
    }
    ErrorsAddUp(totalWeight, miners, totalBalance);
    ErrorIsSmall(totalBalance, Weights(totalWeight, miners, totalBalance), totalWeight, |miners|);
  }
}
