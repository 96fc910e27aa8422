/**
 The stake-based call quota: `circleQueue`, a ring of 24 slots of 1200 blocks
 each, and `MortgageWorker`, which admits a contract call only while the calls
 of the window and those pending stay below the creator's quota.
 */
module Mortgage {
  import opened Transactions

  const SLOT_COUNT: nat := 24
  const STEP: nat := 1200
  const MAX_HEIGHT: nat := 28800
  const CALL_PRICE: nat := 2000000

  // ----- the ring -----

  function Sum(s: seq<nat>): nat {
    if s == [] then 0 else Sum(s[..|s| - 1]) + s[|s| - 1]
  }

  function SlotOf(height: nat): nat { height / STEP }

  /** The place `d` steps back around the ring from `pos`, for less than a full turn. */
  function Back(pos: nat, d: nat): nat
    requires pos < SLOT_COUNT && d < SLOT_COUNT
  {
    if d <= pos then pos - d else pos + SLOT_COUNT - d
  }

  /** Whether advancing by `gap` slots from `pos` passes over place `i`. */
  predicate Passed(i: nat, pos: nat, gap: nat) {
    pos < i <= pos + gap || i + SLOT_COUNT <= pos + gap
  }

  datatype Ring = Ring(start: nat, total: nat, slots: seq<nat>, pos: nat)
  {
    /** The ring position matches the height at which the current slot starts. */
    ghost predicate Ok() {
      && |slots| == SLOT_COUNT && total == Sum(slots)
      && start % STEP == 0 && pos == SlotOf(start) % SLOT_COUNT
    }

    /** The value of the ring after `Add(height, count)`. */
    function After(height: nat, count: nat): Ring
      requires |slots| == SLOT_COUNT && pos < SLOT_COUNT
    {
      if height < start then this
      else
        var curPos := (height % MAX_HEIGHT) / STEP;
        var slots' :=
          if height >= start + MAX_HEIGHT then
            seq(SLOT_COUNT, i => if i == curPos then count else 0)
          else if curPos == pos then
            slots[pos := slots[pos] + count]
          else
            var gap := if curPos > pos then curPos - pos else SLOT_COUNT + curPos - pos;
            seq(SLOT_COUNT, i requires 0 <= i < SLOT_COUNT =>
              if i == curPos then count else if Passed(i, pos, gap) then 0 else slots[i]);
        Ring(SlotOf(height) * STEP, Sum(slots'), slots', curPos)
    }
  }

  function EmptyRing(): (q: Ring)
    ensures q.Ok()
  {
    var slots := seq(SLOT_COUNT, i => 0);
    SumOfZeros(slots);
    Ring(0, 0, slots, 0)
  }

  lemma {:induction false} SumOfZeros(s: seq<nat>)
    requires forall i :: 0 <= i < |s| ==> s[i] == 0
    ensures Sum(s) == 0
  {
    if s != [] {
      SumOfZeros(s[..|s| - 1]);
    }
  }

  lemma PositionOfHeight(height: nat)
    ensures (height % MAX_HEIGHT) / STEP == SlotOf(height) % SLOT_COUNT
  {
    var q, r := height / MAX_HEIGHT, height % MAX_HEIGHT;
    assert height == q * 28800 + r;
    assert height / 1200 == q * 24 + r / 1200;
  }

  // ----- the reference: a plain window over the history of calls -----

  datatype Call = Call(height: nat, count: nat)

  /** The newest slot any call has reached. */
  function Newest(calls: seq<Call>): nat {
    if calls == [] then 0
    else
      var n, s := Newest(calls[..|calls| - 1]), SlotOf(calls[|calls| - 1].height);
      if s > n then s else n
  }

  /** The calls counted in slot `lo` or later; a call older than the newest slot of its time is not counted. */
  function CountedFrom(calls: seq<Call>, lo: int): nat {
    if calls == [] then 0
    else
      var before, c := calls[..|calls| - 1], calls[|calls| - 1];
      CountedFrom(before, lo) +
      if SlotOf(c.height) >= Newest(before) && SlotOf(c.height) >= lo then c.count else 0
  }

  function CountedIn(calls: seq<Call>, slot: int): int {
    CountedFrom(calls, slot) - CountedFrom(calls, slot + 1)
  }

  lemma {:induction false} NothingAboveNewest(calls: seq<Call>, lo: int)
    requires lo > Newest(calls)
    ensures CountedFrom(calls, lo) == 0
  {
    if calls != [] {
      NothingAboveNewest(calls[..|calls| - 1], lo);
    }
  }

  function RunRing(calls: seq<Call>): (q: Ring)
    ensures |q.slots| == SLOT_COUNT && q.pos < SLOT_COUNT
  {
    if calls == [] then EmptyRing()
    else
      var q := RunRing(calls[..|calls| - 1]);
      var c := calls[|calls| - 1];
      PositionOfHeight(c.height);
      q.After(c.height, c.count)
  }

  /** Going back around the ring from its position finds what was counted in each slot of the window. */
  ghost predicate Matches(q: Ring, calls: seq<Call>) {
    && q.Ok() && q.start == Newest(calls) * STEP
    && forall d: nat :: d < SLOT_COUNT ==> SlotMatches(q, calls, d)
  }

  ghost predicate SlotMatches(q: Ring, calls: seq<Call>, d: nat)
    requires |q.slots| == SLOT_COUNT && q.pos < SLOT_COUNT && d < SLOT_COUNT
  {
    q.slots[Back(q.pos, d)] == CountedIn(calls, Newest(calls) - d)
  }

  /** Within one turn, the distance around the ring is the distance in slots. */
  lemma SlotsAhead(q: Ring, height: nat)
    requires q.Ok() && q.start <= height
    ensures SlotOf(height) >= SlotOf(q.start)
    ensures height < q.start + MAX_HEIGHT <==> SlotOf(height) - SlotOf(q.start) < SLOT_COUNT
    ensures height < q.start + MAX_HEIGHT ==>
              var curPos := (height % MAX_HEIGHT) / STEP;
              var gap := SlotOf(height) - SlotOf(q.start);
              && curPos < SLOT_COUNT && q.pos == Back(curPos, gap)
              && q.start + gap * STEP == SlotOf(height) * STEP
  {
    PositionOfHeight(height);
    var n, m := SlotOf(q.start), SlotOf(height);
    assert n == 24 * (n / 24) + n % 24 && m == 24 * (m / 24) + m % 24;
  }

  /** What a call adds to the counts. */
  lemma CallAdds(calls: seq<Call>, c: Call, lo: int)
    ensures CountedFrom(calls + [c], lo) ==
            CountedFrom(calls, lo) + if SlotOf(c.height) >= Newest(calls) && SlotOf(c.height) >= lo then c.count else 0
    ensures Newest(calls + [c]) == if SlotOf(c.height) > Newest(calls) then SlotOf(c.height) else Newest(calls)
  {
    assert (calls + [c])[..|calls|] == calls;
  }

  /** What a call that is counted adds to each slot: its count to its own, nothing to the others. */
  lemma CallAddsToSlot(calls: seq<Call>, c: Call, s: int)
    requires SlotOf(c.height) >= Newest(calls)
    ensures CountedIn(calls + [c], s) ==
            (if s > Newest(calls) then 0 else CountedIn(calls, s)) + if s == SlotOf(c.height) then c.count else 0
  {
    CallAdds(calls, c, s);
    CallAdds(calls, c, s + 1);
    if s > Newest(calls) {
      NothingAboveNewest(calls, s);
      NothingAboveNewest(calls, s + 1);
    }
  }

  /** The ways in which `Add` rewrites the slots, seen from the new position. */
  lemma RewrittenSlots(q: Ring, height: nat, count: nat, d: nat)
    requires q.Ok() && q.start <= height && d < SLOT_COUNT
    ensures var q' := q.After(height, count);
            var gap := SlotOf(height) - SlotOf(q.start);
            && |q'.slots| == SLOT_COUNT && q'.pos < SLOT_COUNT
            && q'.slots[Back(q'.pos, d)] ==
                 (if d < gap then 0 else q.slots[Back(q.pos, d - gap)]) + if d == 0 then count else 0
  {
    SlotsAhead(q, height);
    PositionOfHeight(height);
    var q', curPos := q.After(height, count), (height % MAX_HEIGHT) / STEP;
    var gap := SlotOf(height) - SlotOf(q.start);
    assert q'.pos == curPos;
    if gap >= SLOT_COUNT {
      assert d != 0 ==> Back(curPos, d) != curPos;
    } else if gap == 0 {
      assert curPos == q.pos;
      assert d != 0 ==> Back(curPos, d) != curPos;
    } else {
      RewrittenByMove(q, curPos, gap, count, d);
    }
  }

  lemma RewrittenByMove(q: Ring, curPos: nat, gap: nat, count: nat, d: nat)
    requires |q.slots| == SLOT_COUNT && q.pos < SLOT_COUNT && curPos < SLOT_COUNT && d < SLOT_COUNT
    requires 0 < gap < SLOT_COUNT && q.pos == Back(curPos, gap)
    ensures curPos != q.pos && gap == if curPos > q.pos then curPos - q.pos else SLOT_COUNT + curPos - q.pos
    ensures d == 0 ==> Back(curPos, d) == curPos
    ensures 0 < d < gap ==> Back(curPos, d) != curPos && Passed(Back(curPos, d), q.pos, gap)
    ensures gap <= d ==>
              && Back(curPos, d) != curPos && Back(curPos, d) == Back(q.pos, d - gap)
              && !Passed(Back(curPos, d), q.pos, gap)
  {
  }

  lemma SlotsAfter(q: Ring, calls: seq<Call>, c: Call, d: nat)
    requires Matches(q, calls) && q.start <= c.height && d < SLOT_COUNT
    ensures var q' := q.After(c.height, c.count);
            && |q'.slots| == SLOT_COUNT && q'.pos < SLOT_COUNT
            && q'.slots[Back(q'.pos, d)] == CountedIn(calls + [c], SlotOf(c.height) - d)
  {
    SlotsAhead(q, c.height);
    CallAddsToSlot(calls, c, SlotOf(c.height) - d);
    RewrittenSlots(q, c.height, c.count, d);
    var gap := SlotOf(c.height) - SlotOf(q.start);
    assert gap <= d ==> SlotMatches(q, calls, d - gap);
  }

  /** A call from before the current slot is not counted. */
  lemma StaleMatches(q: Ring, calls: seq<Call>, c: Call)
    requires Matches(q, calls) && c.height < q.start
    ensures Matches(q, calls + [c])
  {
    Behind(c.height, Newest(calls));
    CallAdds(calls, c, 0);
    forall d: nat | d < SLOT_COUNT ensures SlotMatches(q, calls + [c], d) {
      assert SlotMatches(q, calls, d);
      StaleAddsNothing(calls, c, Newest(calls) - d);
    }
  }

  lemma Behind(height: nat, newest: nat)
    ensures height < newest * STEP <==> SlotOf(height) < newest
  {
  }

  lemma StaleAddsNothing(calls: seq<Call>, c: Call, s: int)
    requires SlotOf(c.height) < Newest(calls)
    ensures CountedIn(calls + [c], s) == CountedIn(calls, s)
  {
    CallAdds(calls, c, s);
    CallAdds(calls, c, s + 1);
  }

  lemma AfterOk(q: Ring, height: nat, count: nat)
    requires q.Ok() && q.start <= height
    ensures q.After(height, count).Ok() && q.After(height, count).start == SlotOf(height) * STEP
  {
    PositionOfHeight(height);
    SlotsAhead(q, height);
    assert SlotOf(SlotOf(height) * STEP) == SlotOf(height);
  }

  /** One `Add` keeps the ring in step with the window. */
  lemma AddMatches(q: Ring, calls: seq<Call>, c: Call)
    requires Matches(q, calls)
    ensures Matches(q.After(c.height, c.count), calls + [c])
  {
    if c.height < q.start {
      StaleMatches(q, calls, c);
    } else {
      AfterOk(q, c.height, c.count);
      CallAdds(calls, c, 0);
      Behind(c.height, Newest(calls));
      var q', calls' := q.After(c.height, c.count), calls + [c];
      forall d: nat | d < SLOT_COUNT ensures SlotMatches(q', calls', d) {
        SlotsAfter(q, calls, c, d);
      }
    }
  }

  lemma {:induction false} RunMatches(calls: seq<Call>)
    ensures Matches(RunRing(calls), calls)
  {
    if calls == [] {
    } else {
      var before, c := calls[..|calls| - 1], calls[|calls| - 1];
      RunMatches(before);
      AddMatches(RunRing(before), before, c);
      assert before + [c] == calls;
    }
  }

  lemma {:induction false} SumSplits(a: seq<nat>, b: seq<nat>)
    ensures Sum(a + b) == Sum(a) + Sum(b)
  {
    if b == [] {
      assert a + b == a;
    } else {
      var b' := b[..|b| - 1];
      assert (a + b)[..|a + b| - 1] == a + b';
      SumSplits(a, b');
    }
  }

  lemma {:induction false} SumOfSlots(s: seq<nat>, calls: seq<Call>, lo: int)
    requires forall k :: 0 <= k < |s| ==> s[k] == CountedIn(calls, lo + k)
    ensures Sum(s) == CountedFrom(calls, lo) - CountedFrom(calls, lo + |s|)
  {
    if s != [] {
      SumOfSlots(s[..|s| - 1], calls, lo);
    }
  }

  /**
   After any sequence of `Add` calls the ring's total is the number of calls
   counted in the 24 slots that end with the newest one.
   */
  lemma RingIsWindow(calls: seq<Call>)
    ensures RunRing(calls).Ok() && RunRing(calls).start == Newest(calls) * 1200
    ensures RunRing(calls).total == CountedFrom(calls, Newest(calls) - 23)
  {
    RunMatches(calls);
    WindowTotal(RunRing(calls), calls);
  }

  lemma WindowTotal(q: Ring, calls: seq<Call>)
    requires Matches(q, calls)
    ensures q.total == CountedFrom(calls, Newest(calls) - SLOT_COUNT + 1)
  {
    var rotated := Rotated(q, calls);
    SumOfSlots(rotated, calls, Newest(calls) - SLOT_COUNT + 1);
    NothingAboveNewest(calls, Newest(calls) + 1);
  }

  /** The slots from the oldest to the newest. */
  function Turned(slots: seq<nat>, p: nat): (r: seq<nat>)
    requires p <= |slots|
    ensures |r| == |slots|
  {
    slots[p..] + slots[..p]
  }

  lemma TurnedSum(slots: seq<nat>, p: nat)
    requires p <= |slots|
    ensures Sum(Turned(slots, p)) == Sum(slots)
  {
    assert slots == slots[..p] + slots[p..];
    SumCommutes(slots[..p], slots[p..]);
  }

  lemma SumCommutes(a: seq<nat>, b: seq<nat>)
    ensures Sum(a + b) == Sum(b + a)
  {
    SumSplits(a, b);
    SumSplits(b, a);
  }

  lemma Rotated(q: Ring, calls: seq<Call>) returns (r: seq<nat>)
    requires Matches(q, calls)
    ensures |r| == SLOT_COUNT && Sum(r) == q.total
    ensures forall k :: 0 <= k < |r| ==> r[k] == CountedIn(calls, Newest(calls) - SLOT_COUNT + 1 + k)
  {
    r := Turned(q.slots, q.pos + 1);
    TurnedSum(q.slots, q.pos + 1);
    forall k | 0 <= k < |r|
      ensures r[k] == CountedIn(calls, Newest(calls) - SLOT_COUNT + 1 + k)
    {
      RotatedAt(q, calls, k);
    }
  }

  lemma RotatedAt(q: Ring, calls: seq<Call>, k: nat)
    requires Matches(q, calls) && k < SLOT_COUNT
    ensures Turned(q.slots, q.pos + 1)[k] == CountedIn(calls, Newest(calls) - SLOT_COUNT + 1 + k)
  {
    assert SlotMatches(q, calls, SLOT_COUNT - 1 - k);
    assert Turned(q.slots, q.pos + 1)[k] == q.slots[Back(q.pos, SLOT_COUNT - 1 - k)];
  }

  // ----- the ring object -----

  lemma {:induction false} SumUpdate(s: seq<nat>, i: nat, v: nat)
    requires i < |s|
    ensures s[i] <= Sum(s) && Sum(s[i := v]) == Sum(s) - s[i] + v
  {
    var l := |s| - 1;
    if i < l {
      SumUpdate(s[..l], i, v);
      assert s[i := v][..l] == s[..l][i := v];
    } else {
      assert s[i := v][..l] == s[..l];
    }
  }

  lemma MovedRing(q: Ring, height: nat, count: nat, gap: nat, s: seq<nat>)
    requires q.Ok() && q.start <= height < q.start + MAX_HEIGHT && |s| == SLOT_COUNT
    requires 0 < gap == SlotOf(height) - SlotOf(q.start)
    requires forall k :: 0 <= k < SLOT_COUNT ==>
               s[k] == if k == (height % MAX_HEIGHT) / STEP then count
                       else if Passed(k, q.pos, gap) then 0 else q.slots[k]
    ensures q.After(height, count) == Ring(q.start + gap * STEP, Sum(s), s, (height % MAX_HEIGHT) / STEP)
    ensures q.After(height, count).Ok()
  {
    SlotsAhead(q, height);
    PositionOfHeight(height);
    RewrittenByMove(q, (height % MAX_HEIGHT) / STEP, gap, count, 0);
    assert q.After(height, count).slots == s;
  }

  /** A ring that holds nothing but `count` is what is left after more than a full turn. */
  lemma RestartedRing(q: Ring, height: nat, count: nat, s: seq<nat>)
    requires q.Ok() && height >= q.start + MAX_HEIGHT && |s| == SLOT_COUNT
    requires forall k :: 0 <= k < SLOT_COUNT ==> s[k] == if k == (height % MAX_HEIGHT) / STEP then count else 0
    ensures q.After(height, count) == Ring((height / STEP) * STEP, count, s, (height % MAX_HEIGHT) / STEP)
    ensures q.After(height, count).Ok()
  {
    PositionOfHeight(height);
    var pos := (height % MAX_HEIGHT) / STEP;
    var zeros := s[pos := 0];
    SumOfZeros(zeros);
    SumUpdate(zeros, pos, count);
    assert zeros[pos := count] == s;
    assert q.After(height, count).slots == s;
  }

  class CircleQueue {
    var curSlotStartHeight: nat
    var total: nat
    const slots: array<nat>
    var pos: nat

    ghost predicate Valid()
      reads this, slots
    {
      slots.Length == SLOT_COUNT && View().Ok()
    }

    ghost function View(): Ring
      reads this, slots
    {
      Ring(curSlotStartHeight, total, slots[..], pos)
    }

    constructor ()
      ensures Valid() && View() == EmptyRing() && fresh(slots)
    {
      slots := new nat[SLOT_COUNT](i => 0);
      curSlotStartHeight, total, pos := 0, 0, 0;
      new;
      assert slots[..] == EmptyRing().slots;
    }

    method Add(height: nat, count: nat)
      requires Valid()
      modifies this, slots
      ensures Valid()
      ensures View() == old(View()).After(height, count)
    {
      if height < curSlotStartHeight {
        return;
      }
      if height >= curSlotStartHeight + MAX_HEIGHT {
        Restart(height, count);
        return;
      }
      var curPos := (height % MAX_HEIGHT) / STEP;
      SlotsAhead(View(), height);
      PositionOfHeight(height);
      if curPos == pos {
        AddHere(height, count);
        return;
      }
      AddAhead(height, count, curPos);
    }

    /** A later slot within one turn. */
    method AddAhead(height: nat, count: nat, curPos: nat)
      requires Valid() && curSlotStartHeight <= height < curSlotStartHeight + MAX_HEIGHT
      requires curPos == (height % MAX_HEIGHT) / STEP != pos
      modifies this, slots
      ensures Valid()
      ensures View() == old(View()).After(height, count)
    {
      SlotsAhead(View(), height);
      PositionOfHeight(height);
      var gap := (SLOT_COUNT + curPos - pos) % SLOT_COUNT;
      assert gap == SlotOf(height) - SlotOf(curSlotStartHeight);
      MoveTo(curPos, gap, count);
      MovedRing(old(View()), height, count, gap, slots[..]);
    }

    /** Moves `gap` places on, to a slot of its own for `count`. */
    method MoveTo(curPos: nat, gap: nat, count: nat)
      requires slots.Length == SLOT_COUNT && pos < SLOT_COUNT && total == Sum(slots[..])
      requires curPos < SLOT_COUNT && gap < SLOT_COUNT && Passed(curPos, pos, gap)
      modifies this, slots
      ensures curSlotStartHeight == old(curSlotStartHeight) + gap * STEP && pos == curPos
      ensures total == Sum(slots[..])
      ensures forall k :: 0 <= k < SLOT_COUNT ==>
                slots[k] == if k == curPos then count else if Passed(k, old(pos), gap) then 0 else old(slots[k])
    {
      Advance(gap);
      pos := curPos;
      FillSlot(count);
    }

    method FillSlot(count: nat)
      requires slots.Length == SLOT_COUNT && pos < SLOT_COUNT && total == Sum(slots[..]) && slots[pos] == 0
      modifies this`total, slots
      ensures total == Sum(slots[..])
      ensures forall k :: 0 <= k < SLOT_COUNT ==> slots[k] == if k == pos then count else old(slots[k])
    {
      ghost var before := slots[..];
      SumUpdate(before, pos, count);
      slots[pos] := count;
      total := total + count;
      assert slots[..] == before[pos := count];
    }

    method AddHere(height: nat, count: nat)
      requires Valid() && SlotOf(height) == SlotOf(curSlotStartHeight)
      modifies this`total, slots
      ensures Valid()
      ensures View() == old(View()).After(height, count)
    {
      PositionOfHeight(height);
      ghost var before := slots[..];
      SumUpdate(before, pos, slots[pos] + count);
      slots[pos] := slots[pos] + count;
      assert slots[..] == before[pos := before[pos] + count];
      total := total + count;
    }

    /** More than a full turn later nothing of the old window is left. */
    method Restart(height: nat, count: nat)
      requires Valid() && height >= curSlotStartHeight + MAX_HEIGHT
      modifies this, slots
      ensures Valid()
      ensures View() == old(View()).After(height, count)
    {
      ghost var q := View();
      Clear();
      PositionOfHeight(height);
      curSlotStartHeight := (height / STEP) * STEP;
      pos := (height % MAX_HEIGHT) / STEP;
      slots[pos] := count;
      total := count;
      RestartedRing(q, height, count, slots[..]);
    }

    method Clear()
      requires slots.Length == SLOT_COUNT
      modifies slots
      ensures forall k :: 0 <= k < SLOT_COUNT ==> slots[k] == 0
    {
      for i := 0 to SLOT_COUNT
        invariant forall k :: 0 <= k < i ==> slots[k] == 0
      {
        slots[i] := 0;
      }
    }

    /** Clears the slots that fall out of the window, one per step, taking each off the total. */
    method Advance(gap: nat)
      requires slots.Length == SLOT_COUNT && pos < SLOT_COUNT && total == Sum(slots[..]) && gap < SLOT_COUNT
      modifies this`total, this`curSlotStartHeight, slots
      ensures curSlotStartHeight == old(curSlotStartHeight) + gap * STEP
      ensures total == Sum(slots[..])
      ensures forall k :: 0 <= k < SLOT_COUNT ==>
                slots[k] == if Passed(k, pos, gap) then 0 else old(slots[k])
    {
      var i := 1;
      while i <= gap
        invariant 1 <= i <= gap + 1
        invariant curSlotStartHeight == old(curSlotStartHeight) + (i - 1) * STEP
        invariant total == Sum(slots[..])
        invariant forall k :: 0 <= k < SLOT_COUNT ==>
                    slots[k] == if Passed(k, pos, i - 1) then 0 else old(slots[k])
      {
        var index := (i + pos) % SLOT_COUNT;
        ClearSlot(index);
        NextPassed(pos, i);
        curSlotStartHeight := curSlotStartHeight + STEP;
        i := i + 1;
      }
    }

    method ClearSlot(index: nat)
      requires slots.Length == SLOT_COUNT && index < SLOT_COUNT && total == Sum(slots[..])
      modifies this`total, slots
      ensures total == Sum(slots[..])
      ensures forall k :: 0 <= k < SLOT_COUNT ==> slots[k] == if k == index then 0 else old(slots[k])
    {
      ghost var before := slots[..];
      SumUpdate(before, index, 0);
      total := total - slots[index];
      slots[index] := 0;
      assert slots[..] == before[index := 0];
    }
  }

  /** One step further passes exactly one place more. */
  lemma NextPassed(pos: nat, i: nat)
    requires pos < SLOT_COUNT && 1 <= i < SLOT_COUNT
    ensures forall k :: 0 <= k < SLOT_COUNT ==>
              (Passed(k, pos, i) <==> Passed(k, pos, i - 1) || k == (i + pos) % SLOT_COUNT)
  {
    assert (i + pos) % 24 == if i + pos < 24 then i + pos else i + pos - 24;
  }

  // ----- the quota -----

  /** The calls a stake pays for at a gas price, through the two floor divisions of `getQuota`. */
  function Quota(stake: nat, price: nat): nat
    requires price > 0
  {
    stake / price / CALL_PRICE
  }

  /** Staying within the quota is staying within the stake: the nested divisions lose nothing. */
  lemma QuotaIsExact(stake: nat, price: nat, calls: nat)
    requires price > 0
    ensures calls <= Quota(stake, price) <==> calls * price * 2_000_000 <= stake
  {
    var a := stake / price;
    FloorIsExact(a, CALL_PRICE, calls);
    FloorIsExact(stake, price, calls * CALL_PRICE);
    assert calls * CALL_PRICE * price == calls * price * CALL_PRICE;
  }

  lemma FloorIsExact(v: nat, d: nat, k: nat)
    requires d > 0
    ensures k <= v / d <==> k * d <= v
  {
    var q, r := v / d, v % d;
    assert v == q * d + r;
    if k <= q {
      assert k * d <= q * d;
    } else {
      assert (q + 1) * d <= k * d;
    }
  }

  /** So many calls at a gas price are paid for by a stake. */
  ghost predicate WithinStake(stake: nat, price: nat, calls: nat) {
    calls * price * CALL_PRICE <= stake
  }

  /** Addresses whose first 19 bytes are `0x10` followed by zeros. */
  predicate IsSystemContract(a: Address) {
    a / 256 == 0x10_000000_000000_000000_000000_000000_000000
  }

  predicate IsCallOrdinaryContract(st: ChainState, tx: Tx) {
    st.IsCallContract(tx) && !IsSystemContract(tx.to.value)
  }

  /** The stake and gas price behind a cached quota. */
  datatype Basis = Basis(stake: nat, price: nat)

  datatype HeightCounter = HeightCounter(height: nat, counter: map<Address, nat>)

  /** The calls recorded for one creator. */
  function CallsOf(counters: seq<HeightCounter>, creator: Address): seq<Call> {
    if counters == [] then []
    else
      var before, m := CallsOf(counters[..|counters| - 1], creator), counters[|counters| - 1];
      if creator in m.counter then before + [Call(m.height, m.counter[creator])] else before
  }

  /** The ring of creator `c`, if it has one, is in step with its history. */
  ghost predicate EntryOk(entries: map<Address, Ring>, history: map<Address, seq<Call>>, c: Address) {
    (c in entries <==> c in history) && (c in entries ==> Matches(entries[c], history[c]))
  }

  /** The cached quota of `c`, if there is one, is what its basis pays for. */
  ghost predicate QuotaOk(quotas: map<Address, nat>, basis: map<Address, Basis>, c: Address) {
    && (c in quotas <==> c in basis)
    && (c in quotas ==> basis[c].price > 0 && quotas[c] == Quota(basis[c].stake, basis[c].price))
  }

  function CallsIn(entries: map<Address, Ring>, c: Address): nat {
    if c in entries then entries[c].total else 0
  }

  function CountOf(pendings: map<Address, nat>, c: Address): nat {
    if c in pendings then pendings[c] else 0
  }

  function Recorded(history: map<Address, seq<Call>>, c: Address): seq<Call> {
    if c in history then history[c] else []
  }

  /** The calls admitted for `c` since the last update fit into its quota together with those of the window. */
  ghost predicate AdmittedOk(entries: map<Address, Ring>, quotas: map<Address, nat>, pendings: map<Address, nat>,
                             c: Address) {
    c in pendings ==> c in quotas && CallsIn(entries, c) + pendings[c] <= quotas[c]
  }

  ghost predicate EntriesOk(entries: map<Address, Ring>, history: map<Address, seq<Call>>) {
    forall c :: EntryOk(entries, history, c)
  }

  ghost predicate QuotasOk(quotas: map<Address, nat>, basis: map<Address, Basis>) {
    forall c :: QuotaOk(quotas, basis, c)
  }

  ghost predicate AdmissionsOk(entries: map<Address, Ring>, quotas: map<Address, nat>, pendings: map<Address, nat>) {
    forall c :: AdmittedOk(entries, quotas, pendings, c)
  }

  class MortgageWorker {
    var entries: map<Address, Ring>
    var quotas: map<Address, nat>
    var pendings: map<Address, nat>
    /** The creators whose quota was asked for at a gas price of zero: the division stops the program there. */
    var panicked: set<Address>
    /** Every call handed to each entry's ring, and what each cached quota was computed from. */
    ghost var history: map<Address, seq<Call>>
    ghost var basis: map<Address, Basis>

    ghost predicate Valid()
      reads this
    {
      EntriesOk(entries, history) && QuotasOk(quotas, basis) && AdmissionsOk(entries, quotas, pendings)
    }

    constructor ()
      ensures Valid() && entries == map[] && quotas == map[] && pendings == map[] && panicked == {}
    {
      entries, quotas, pendings, history, basis := map[], map[], map[], map[], map[];
      panicked := {};
    }

    /**
     Between two `Updates`, for every creator with admitted calls: the calls of
     the last 24 slots and those admitted since, priced at the gas price of the
     cached quota, stay within the stake that quota was computed from.
     */
    lemma AdmittedWithinStake(c: Address)
      requires Valid() && c in pendings
      ensures c in basis && basis[c].price > 0
      ensures (CallsIn(entries, c) + pendings[c]) * basis[c].price * 2_000_000 <= basis[c].stake
      ensures c in history ==> CallsIn(entries, c) == CountedFrom(history[c], Newest(history[c]) - 23)
    {
      assert QuotaOk(quotas, basis, c) && AdmittedOk(entries, quotas, pendings, c) && EntryOk(entries, history, c);
      QuotaIsExact(basis[c].stake, basis[c].price, CallsIn(entries, c) + pendings[c]);
      if c in entries {
        WindowTotal(entries[c], history[c]);
      }
    }

    method GetEntry(creator: Address) returns (q: Ring)
      requires EntriesOk(entries, history)
      modifies this`entries, this`history
      ensures EntriesOk(entries, history) && creator in entries && q == entries[creator]
      ensures old(AdmissionsOk(entries, quotas, pendings)) ==> AdmissionsOk(entries, quotas, pendings)
      ensures entries == old(entries)[creator := q] && q.total == CallsIn(old(entries), creator)
      ensures Recorded(history, creator) == Recorded(old(history), creator)
      ensures history == old(history)[creator := Recorded(history, creator)]
    {
      if creator !in entries {
        NewEntry(entries, history, quotas, pendings, creator);
        entries := entries[creator := EmptyRing()];
        history := history[creator := []];
      }
      assert EntryOk(entries, history, creator);
      q := entries[creator];
    }

    method GetQuota(st: ChainState, creator: Address, gasPrice: nat) returns (quota: nat)
      requires Valid() && (creator in quotas || gasPrice > 0)
      modifies this`quotas, this`basis
      ensures Valid() && creator in quotas && quota == quotas[creator]
      ensures creator in old(quotas) ==> quotas == old(quotas) && basis == old(basis)
      ensures creator !in old(quotas) ==> quotas == old(quotas)[creator := quota]
      ensures creator !in old(quotas) ==>
                basis == old(basis)[creator := Basis(st.balanceOf(creator) + st.totalReceived(creator), gasPrice)]
    {
      if creator !in quotas {
        var value := st.balanceOf(creator) + st.totalReceived(creator);
        NewQuota(entries, quotas, basis, pendings, creator, Basis(value, gasPrice));
        quotas := quotas[creator := Quota(value, gasPrice)];
        basis := basis[creator := Basis(value, gasPrice)];
      }
      quota := quotas[creator];
    }

    /** A call passes if and only if the quota has room for one call more. */
    method Passable(st: ChainState, tx: Tx, gasPrice: nat) returns (pass: bool, creator: Option<Address>)
      requires Valid()
      modifies this
      ensures Valid() && pendings == old(pendings)
      ensures !IsCallOrdinaryContract(st, tx) ==>
                pass && creator == None && quotas == old(quotas) && basis == old(basis) && panicked == old(panicked)
      ensures IsCallOrdinaryContract(st, tx) ==>
                var c := st.creatorOf(tx.to.value);
                if c in old(quotas) || gasPrice > 0 then
                  && c in quotas && panicked == old(panicked)
                  && (pass <==> HasRoom(c))
                  && creator == (if pass then Some(c) else None)
                else !pass && creator == None && quotas == old(quotas) && panicked == old(panicked) + {c}
      ensures IsCallOrdinaryContract(st, tx) ==>
                var c := st.creatorOf(tx.to.value);
                && (c in old(quotas) ==> quotas == old(quotas) && basis == old(basis))
                && (c !in old(quotas) && gasPrice > 0 ==>
                      basis == old(basis)[c := Basis(st.balanceOf(c) + st.totalReceived(c), gasPrice)])
      ensures (|| tx.data == [] || tx.to.None? || !st.hasCode(tx.to.value)
               || tx.to.value / 256 == 0x10_000000_000000_000000_000000_000000_000000) ==>
                pass && creator == None
      ensures !pass ==> st.creatorOf(tx.to.value) in Full()
      // a quota once used up stays so
      ensures old(Full()) <= Full()
      ensures forall c :: CallsIn(entries, c) == CallsIn(old(entries), c)
    {
      if !IsCallOrdinaryContract(st, tx) {
        return true, None;
      }
      pass := HasCallLeft(st, st.creatorOf(tx.to.value), gasPrice);
      creator := if pass then Some(st.creatorOf(tx.to.value)) else None;
    }

    /** Compares the calls counted for a creator with its quota. */
    method HasCallLeft(st: ChainState, c: Address, gasPrice: nat) returns (pass: bool)
      requires Valid()
      modifies this
      ensures Valid() && pendings == old(pendings)
      ensures if c in old(quotas) || gasPrice > 0
              then c in quotas && panicked == old(panicked) && (pass <==> HasRoom(c))
              else !pass && quotas == old(quotas) && panicked == old(panicked) + {c}
      ensures c in old(quotas) ==> quotas == old(quotas) && basis == old(basis)
      ensures c !in old(quotas) && gasPrice > 0 ==>
                basis == old(basis)[c := Basis(st.balanceOf(c) + st.totalReceived(c), gasPrice)]
      ensures (!pass ==> c in Full()) && old(Full()) <= Full()
      ensures forall x :: CallsIn(entries, x) == CallsIn(old(entries), x)
    {
      var entry := GetEntry(c);
      if c !in quotas && gasPrice == 0 {
        panicked := panicked + {c};
        return false;
      }
      var quota := GetQuota(st, c, gasPrice);
      return quota > entry.total + if c in pendings then pendings[c] else 0;
    }

    /** The creators with no call left: their quota is used up, or finding it out stopped the program. */
    ghost function Full(): set<Address>
      reads this
    {
      panicked + set c | c in quotas && quotas[c] <= CallsIn(entries, c) + CountOf(pendings, c)
    }

    /** The quota of `c` has room for one call more. */
    ghost predicate HasRoom(c: Address)
      reads this
    {
      c in quotas && Counted(c) < quotas[c]
    }

    /** The calls of the window and those admitted since. */
    ghost function Counted(c: Address): nat
      reads this
    {
      CallsIn(entries, c) + CountOf(pendings, c)
    }

    /** Having room is the stake covering one call more. */
    lemma RoomIsStake(c: Address)
      requires Valid() && c in quotas
      ensures c in basis && basis[c].price > 0
      ensures HasRoom(c) <==> (Counted(c) + 1) * basis[c].price * 2_000_000 <= basis[c].stake
    {
      assert QuotaOk(quotas, basis, c);
      QuotaIsExact(basis[c].stake, basis[c].price, Counted(c) + 1);
    }

    /**
     A quota is cached with the gas price of its first use.  At another price, every
     call that can still be admitted before the next `Updates` stays within the
     stake if and only if no call can, or the quota would be no smaller if it were
     worked out anew.
     */
    lemma CachedQuotaIsSafe(c: Address, price: nat)
      requires Valid() && c in quotas && price > 0
      ensures c in basis
      ensures (forall calls :: Counted(c) < calls <= quotas[c] ==> WithinStake(basis[c].stake, price, calls))
         <==> !HasRoom(c) || quotas[c] <= Quota(basis[c].stake, price)
    {
      assert QuotaOk(quotas, basis, c);
      forall calls: nat ensures WithinStake(basis[c].stake, price, calls) <==> calls <= Quota(basis[c].stake, price) {
        QuotaIsExact(basis[c].stake, price, calls);
      }
      if HasRoom(c) {
        assert WithinStake(basis[c].stake, price, quotas[c]) <==> quotas[c] <= Quota(basis[c].stake, price);
      }
    }

    /** Asks for a call again and again, counting it while it passes: exactly the room there is gets used. */
    method AdmitCalls(st: ChainState, tx: Tx, times: nat, price: nat) returns (admitted: nat)
      requires Valid() && IsCallOrdinaryContract(st, tx) && st.creatorOf(tx.to.value) in quotas
      modifies this
      ensures Valid() && quotas == old(quotas) && basis == old(basis)
      ensures var c := st.creatorOf(tx.to.value);
              && Counted(c) == old(Counted(c)) + admitted
              && (admitted == times || (admitted < times && !HasRoom(c)))
              && (old(HasRoom(c)) && !HasRoom(c) ==> Counted(c) == quotas[c])
    {
      ghost var c := st.creatorOf(tx.to.value);
      admitted := 0;
      while admitted < times
        invariant Valid() && quotas == old(quotas) && basis == old(basis) && admitted <= times
        invariant Counted(c) == old(Counted(c)) + admitted && (old(HasRoom(c)) ==> Counted(c) <= quotas[c])
      {
        var pass, creator := Passable(st, tx, price);
        if !pass {
          return;
        }
        AddPending(creator.value);
        admitted := admitted + 1;
      }
    }

    /** Counts a call, whether or not there is room for it; without room the count no longer fits the quota. */
    method AddPending(creator: Address)
      requires Valid()
      modifies this`pendings
      ensures pendings == old(pendings)[creator := CountOf(old(pendings), creator) + 1]
      ensures Valid() <==> old(HasRoom(creator))
      ensures old(Full()) <= Full()
    {
      assert AdmittedOk(entries, quotas, pendings, creator);
      pendings := pendings[creator := (if creator in pendings then pendings[creator] else 0) + 1];
      forall c | c != creator ensures AdmittedOk(entries, quotas, pendings, c) {
        assert AdmittedOk(entries, quotas, old(pendings), c);
      }
      assert AdmittedOk(entries, quotas, pendings, creator) <==> old(HasRoom(creator));
    }

    /** Hands the counted calls of new blocks to the rings and forgets quotas and pending calls. */
    method Updates(counters: seq<HeightCounter>)
      requires Valid()
      modifies this
      ensures Valid() && quotas == map[] && pendings == map[]
      ensures forall c :: Recorded(history, c) == Recorded(old(history), c) + CallsOf(counters, c)
    {
      ghost var h := history;
      for i := 0 to |counters|
        invariant EntriesOk(entries, history)
        invariant var done := counters[..i]; forall c :: RecordedSince(history, h, done, c)
      {
        ghost var before := history;
        Record(counters[i]);
        ghost var done := counters[..i + 1];
        forall c ensures RecordedSince(history, h, done, c) {
          assert RecordedSince(before, h, counters[..i], c) && RecordedBlock(history, before, counters[i], c);
          assert done[..i] == counters[..i];
        }
      }
      forall c ensures Recorded(history, c) == Recorded(h, c) + CallsOf(counters, c) {
        assert RecordedSince(history, h, counters[..|counters|], c);
        assert counters[..|counters|] == counters;
      }
      quotas, pendings, basis := map[], map[], map[];
      assert forall c :: QuotaOk(quotas, basis, c) && AdmittedOk(entries, quotas, pendings, c);
    }

    /** One block's counts, creator by creator in an order that does not matter. */
    method Record(m: HeightCounter)
      requires EntriesOk(entries, history)
      modifies this`entries, this`history
      ensures EntriesOk(entries, history)
      ensures forall c :: RecordedBlock(history, old(history), m, c)
    {
      ghost var h := history;
      var todo := m.counter.Keys;
      while todo != {}
        invariant todo <= m.counter.Keys && EntriesOk(entries, history)
        invariant forall c ::
                    if c in todo then Recorded(history, c) == Recorded(h, c) else RecordedBlock(history, h, m, c)
      {
        var c :| c in todo;
        var entry := GetEntry(c);
        RingAdvances(entries, history, c, Call(m.height, m.counter[c]));
        entries := entries[c := entry.After(m.height, m.counter[c])];
        history := history[c := history[c] + [Call(m.height, m.counter[c])]];
        todo := todo - {c};
      }
    }
  }

  /**
   A stake of 2000000 is worth one call at a gas price of 1 and none at 2.  Its quota
   is cached at the lower price, the price rises, and the call still passes.
   */
  method CachedQuotaCanOverspend() returns (w: MortgageWorker)
    ensures w.Valid() && 1 in w.basis && 1 in w.pendings && w.basis[1].stake == 2000000
    ensures Quota(2000000, 2) == 0 && w.Counted(1) == 1 && !WithinStake(w.basis[1].stake, 2, w.Counted(1))
  {
    w := new MortgageWorker();
    var st := ChainState((a: Address) => 0, (a: Address) => if a == 1 then 2000000 else 0, (a: Address) => 0,
                         (a: Address) => true, (a: Address) => 1, (a: Address) => 1, (a: Address) => 0,
                         (a: Address, tx: Tx) => true);
    var tx := Tx(2, 0, 2, 50000, 0, Some(3), [1], 0, Form(110, false, true));
    assert IsCallOrdinaryContract(st, tx);
    assert Quota(2000000, 1) == 1 && Quota(2000000, 2) == 0;
    var pass, creator := w.Passable(st, tx, 1);
    assert QuotaOk(w.quotas, w.basis, 1);
    pass, creator := w.Passable(st, tx, 2);
    w.AddPending(creator.value);
  }

  ghost predicate RecordedBlock(now: map<Address, seq<Call>>, before: map<Address, seq<Call>>, m: HeightCounter,
                                c: Address) {
    Recorded(now, c) ==
      if c in m.counter then Recorded(before, c) + [Call(m.height, m.counter[c])] else Recorded(before, c)
  }

  ghost predicate RecordedSince(now: map<Address, seq<Call>>, before: map<Address, seq<Call>>,
                                counters: seq<HeightCounter>, c: Address) {
    Recorded(now, c) == Recorded(before, c) + CallsOf(counters, c)
  }

  lemma NewEntry(entries: map<Address, Ring>, history: map<Address, seq<Call>>,
                 quotas: map<Address, nat>, pendings: map<Address, nat>, x: Address)
    requires x !in entries && EntriesOk(entries, history)
    ensures x !in history && EmptyRing().total == 0
    ensures EntriesOk(entries[x := EmptyRing()], history[x := []])
    ensures AdmissionsOk(entries, quotas, pendings) ==> AdmissionsOk(entries[x := EmptyRing()], quotas, pendings)
  {
    var entries', history' := entries[x := EmptyRing()], history[x := []];
    RunMatches([]);
    forall c ensures EntryOk(entries', history', c) {
      assert EntryOk(entries, history, c);
    }
    if AdmissionsOk(entries, quotas, pendings) {
      forall c ensures AdmittedOk(entries', quotas, pendings, c) {
        assert AdmittedOk(entries, quotas, pendings, c);
      }
    }
    assert EntryOk(entries, history, x);
  }

  lemma NewQuota(entries: map<Address, Ring>, quotas: map<Address, nat>, basis: map<Address, Basis>,
                 pendings: map<Address, nat>, x: Address, b: Basis)
    requires x !in quotas && b.price > 0 && QuotasOk(quotas, basis) && AdmissionsOk(entries, quotas, pendings)
    ensures QuotasOk(quotas[x := Quota(b.stake, b.price)], basis[x := b])
    ensures AdmissionsOk(entries, quotas[x := Quota(b.stake, b.price)], pendings)
  {
    var quotas', basis' := quotas[x := Quota(b.stake, b.price)], basis[x := b];
    forall c ensures QuotaOk(quotas', basis', c) {
      assert QuotaOk(quotas, basis, c);
    }
    forall c ensures AdmittedOk(entries, quotas', pendings, c) {
      assert AdmittedOk(entries, quotas, pendings, c);
    }
  }

  lemma RingAdvances(entries: map<Address, Ring>, history: map<Address, seq<Call>>, x: Address, call: Call)
    requires x in entries && EntriesOk(entries, history)
    ensures x in history && |entries[x].slots| == SLOT_COUNT && entries[x].pos < SLOT_COUNT
    ensures EntriesOk(entries[x := entries[x].After(call.height, call.count)], history[x := history[x] + [call]])
  {
    assert EntryOk(entries, history, x);
    AddMatches(entries[x], history[x], call);
    var entries' := entries[x := entries[x].After(call.height, call.count)];
    var history' := history[x := history[x] + [call]];
    forall c ensures EntryOk(entries', history', c) {
      assert EntryOk(entries, history, c);
    }
  }
}
