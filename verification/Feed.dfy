/**
 `event.Feed` as a state machine: every step that one goroutine takes while it
 holds a lock, or by one channel operation, is one step of the machine, and the
 steps of senders, subscribers and unsubscribers interleave freely.
 */
module Feeds {
  type Chan = nat

  datatype Case = RemoveSub | SendTo(ch: Chan)

  // ----- caseList -----

  /** The first index of the case with a channel, or -1. */
  function Find(cs: seq<Case>, ch: Chan): (r: int)
    ensures -1 <= r < |cs|
    ensures if r >= 0 then cs[r] == SendTo(ch) else SendTo(ch) !in cs
  {
    if cs == [] then -1
    else if cs[0] == SendTo(ch) then 0
    else
      var r := Find(cs[1..], ch);
      assert forall i :: 1 <= i < |cs| ==> cs[i] == cs[1..][i - 1];
      if r == -1 then -1 else r + 1
  }

  function Delete(cs: seq<Case>, i: nat): seq<Case>
    requires i < |cs|
  {
    cs[..i] + cs[i + 1..]
  }

  /** Swaps the case at `i` with the last of the first `len`. */
  function Deactivate(cs: seq<Case>, len: nat, i: nat): seq<Case>
    requires i < len <= |cs|
  {
    cs[i := cs[len - 1]][len - 1 := cs[i]]
  }

  method FindCase(cs: array<Case>, len: nat, ch: Chan) returns (r: int)
    requires len <= cs.Length
    ensures r == Find(cs[..len], ch)
  {
    var i := 0;
    while i < len
      invariant i <= len
      invariant var f := Find(cs[i..len], ch); Find(cs[..len], ch) == if f == -1 then -1 else f + i
    {
      assert cs[i..len][1..] == cs[i + 1..len];
      if cs[i] == SendTo(ch) {
        return i;
      }
      i := i + 1;
    }
    return -1;
  }

  method DeactivateCase(cs: array<Case>, len: nat, i: nat)
    requires i < len <= cs.Length
    modifies cs
    ensures cs[..] == Deactivate(old(cs[..]), len, i)
  {
    cs[i], cs[len - 1] := cs[len - 1], cs[i];
  }

  /** Shifts the cases after `i` down by one; only the first `len - 1` remain in use. */
  method DeleteCase(cs: array<Case>, len: nat, i: nat)
    requires i < len <= cs.Length
    modifies cs
    ensures cs[..len - 1] == Delete(old(cs[..len]), i)
    ensures cs[len - 1..] == old(cs[len - 1..])
  {
    ghost var before := cs[..];
    for j := i to len - 1
      invariant forall k :: 0 <= k < cs.Length ==> cs[k] == before[if i <= k < j then k + 1 else k]
    {
      cs[j] := cs[j + 1];
    }
    ShiftDeletes(before, cs[..], len, i);
    assert cs[..len - 1] == cs[..][..len - 1] && cs[len - 1..] == cs[..][len - 1..];
    assert before[..len] == old(cs[..len]) && before[len - 1..] == old(cs[len - 1..]);
  }

  lemma ShiftDeletes(before: seq<Case>, after: seq<Case>, len: nat, i: nat)
    requires i < len <= |before| == |after|
    requires forall k :: 0 <= k < |after| ==> after[k] == before[if i <= k < len - 1 then k + 1 else k]
    ensures after[..len - 1] == Delete(before[..len], i) && after[len - 1..] == before[len - 1..]
  {
  }

  // ----- the machine -----

  /** Where the holder of the send lock is, if there is one. */
  datatype Phase = Idle | Locked | Trying(i: nat) | Selecting

  /**
   `cases[..active]` is the prefix of `sendCases` that `Send` still selects on.
   `removing` are the channels whose removal found the inbox without them and
   now waits for `Send` or the lock.  The rest is what the run is judged by:
   which channels are subscribed, which the current `Send` took on, which were
   taken out since, and what it delivered.
   */
  datatype State = State(
    inbox: seq<Chan>,
    cases: seq<Case>,
    active: nat,
    phase: Phase,
    removing: set<Chan>,
    nsent: nat,
    live: set<Chan>,
    joined: set<Chan>,
    removed: set<Chan>,
    got: multiset<Chan>)
  {
    /** `Send` has collected its cases. */
    predicate InSend() { phase.Trying? || phase.Selecting? }

    function Unserved(): multiset<Case>
      requires active <= |cases|
    {
      multiset(cases[..active])
    }

    function Rest(): multiset<Case>
      requires active <= |cases|
    {
      multiset(cases[active..])
    }
  }

  const Init := State([], [RemoveSub], 1, Idle, {}, 0, {}, {}, {}, multiset{})

  datatype Step =
    | Subscribe(ch: Chan)
    | Unsubscribe(ch: Chan)
    | RemoveIdle(ch: Chan)
    | Lock
    | Collect
    | TrySend(ok: bool)
    | TryDone
    | SelectSend(k: nat)
    | SelectRemove(ch: Chan)

  predicate Enabled(s: State, step: Step) {
    match step
    case Subscribe(ch) => ch !in s.live
    case Unsubscribe(ch) => ch in s.live && ch !in s.removing
    case RemoveIdle(ch) => s.phase.Idle? && ch in s.removing
    case Lock => s.phase.Idle?
    case Collect => s.phase.Locked?
    case TrySend(ok) => s.phase.Trying? && s.phase.i < s.active <= |s.cases|
    case TryDone => s.phase.Trying? && s.phase.i >= s.active
    case SelectSend(k) => s.phase.Selecting? && 1 <= k < s.active <= |s.cases|
    case SelectRemove(ch) => s.phase.Selecting? && ch in s.removing
  }

  function Cases(chs: seq<Chan>): (cs: seq<Case>)
    ensures |cs| == |chs| && forall i :: 0 <= i < |cs| ==> cs[i] == SendTo(chs[i])
  {
    seq(|chs|, i requires 0 <= i < |chs| => SendTo(chs[i]))
  }

  function IndexOf(chs: seq<Chan>, ch: Chan): int {
    Find(Cases(chs), ch)
  }

  /** The effect of a step.  A removal that finds nothing would delete index -1; the state is then left alone. */
  function Apply(s: State, step: Step): State
    requires Enabled(s, step)
  {
    match step
    case Subscribe(ch) =>
      s.(inbox := s.inbox + [ch], live := s.live + {ch})
    case Unsubscribe(ch) =>
      var i := IndexOf(s.inbox, ch);
      if i != -1 then s.(inbox := s.inbox[..i] + s.inbox[i + 1..], live := s.live - {ch})
      else s.(removing := s.removing + {ch})
    case RemoveIdle(ch) =>
      var i := Find(s.cases, ch);
      if i == -1 then s
      else
        s.(cases := Delete(s.cases, i), active := |s.cases| - 1, removing := s.removing - {ch}, live := s.live - {ch})
    case Lock =>
      s.(phase := Locked)
    case Collect =>
      var cases := s.cases + Cases(s.inbox);
      s.(cases := cases, active := |cases|, inbox := [], phase := Trying(1), nsent := 0,
         joined := s.live, removed := {}, got := multiset{})
    case TrySend(ok) =>
      if ok then Served(s, s.phase.i, s.phase) else s.(phase := Trying(s.phase.i + 1))
    case TryDone =>
      if s.active == 1 then s.(phase := Idle, active := |s.cases|) else s.(phase := Selecting)
    case SelectSend(k) =>
      Served(s, k, Trying(1))
    case SelectRemove(ch) =>
      var i := Find(s.cases, ch);
      if i == -1 then s
      else s.(cases := Delete(s.cases, i), active := if i < s.active then s.active - 1 else s.active,
              phase := Trying(1), removing := s.removing - {ch}, live := s.live - {ch}, removed := s.removed + {ch})
  }

  /** The value went to the case at `i`, which leaves the active prefix. */
  function Served(s: State, i: nat, phase: Phase): State
    requires i < s.active <= |s.cases|
  {
    s.(cases := Deactivate(s.cases, s.active, i), active := s.active - 1, nsent := s.nsent + 1, phase := phase,
       got := s.got + if s.cases[i].SendTo? then multiset{s.cases[i].ch} else multiset{})
  }

  /** What holds of each channel, given how often it is unserved, otherwise listed, and in the inbox. */
  ghost predicate ChanOk(s: State, ch: Chan, unserved: nat, rest: nat, boxed: nat) {
    // a live subscription is in exactly one place, any other channel in none
    && unserved + rest + boxed == (if ch in s.live then 1 else 0)
    && (ch in s.removing ==> unserved + rest == 1)
    && (s.InSend() ==>
          // the cases hold what this `Send` took on and was not taken out since
          && (unserved + rest == 1 <==> ch in s.joined && ch !in s.removed)
          // the active prefix holds precisely the unserved channels
          && (unserved + rest == 1 ==> s.got[ch] == rest)
          && s.got[ch] <= (if ch in s.joined then 1 else 0))
  }

  ghost predicate ChanInv(s: State, ch: Chan)
    requires s.active <= |s.cases|
  {
    ChanOk(s, ch, s.Unserved()[SendTo(ch)], s.Rest()[SendTo(ch)], multiset(s.inbox)[ch])
  }

  ghost predicate Inv(s: State) {
    Shape(s) && forall ch :: ChanInv(s, ch)
  }

  ghost predicate Shape(s: State) {
    && 1 <= s.active <= |s.cases| && s.cases[0] == RemoveSub
    && (forall i :: 1 <= i < |s.cases| ==> s.cases[i].SendTo?)
    && (s.InSend() ==> |s.got| == s.nsent)
    && (s.phase.Trying? ==> s.phase.i >= 1)
    && (!s.InSend() ==> s.active == |s.cases|)
    && (s.phase.Selecting? ==> s.active > 1)
  }

  // ----- what the list operations do to the two parts -----

  /** Deactivation takes the case out of the active part. */
  lemma DeactivatedFront(cs: seq<Case>, len: nat, i: nat)
    requires i < len <= |cs|
    ensures multiset(cs[..len]) == multiset(Deactivate(cs, len, i)[..len - 1]) + multiset{cs[i]}
  {
    var cs' := Deactivate(cs, len, i);
    var last := cs[len - 1];
    assert cs[..len] == cs[..len - 1] + [last];
    if i == len - 1 {
      assert cs'[..len - 1] == cs[..len - 1];
    } else {
      assert cs[..len - 1] == cs[..i] + [cs[i]] + cs[i + 1..len - 1];
      assert cs'[..len - 1] == cs[..i] + [last] + cs[i + 1..len - 1];
    }
  }

  /** It joins the part behind. */
  lemma DeactivatedBack(cs: seq<Case>, len: nat, i: nat)
    requires i < len <= |cs|
    ensures multiset(Deactivate(cs, len, i)[len - 1..]) == multiset(cs[len..]) + multiset{cs[i]}
  {
    assert Deactivate(cs, len, i)[len - 1..] == [cs[i]] + cs[len..];
  }

  lemma DeletedInFront(cs: seq<Case>, len: nat, i: nat)
    requires i < len <= |cs|
    ensures var cs' := Delete(cs, i);
            multiset(cs[..len]) == multiset(cs'[..len - 1]) + multiset{cs[i]} && cs'[len - 1..] == cs[len..]
  {
    assert cs[..len] == cs[..i] + [cs[i]] + cs[i + 1..len];
    assert Delete(cs, i)[..len - 1] == cs[..i] + cs[i + 1..len];
  }

  lemma DeletedBehind(cs: seq<Case>, len: nat, i: nat)
    requires len <= i < |cs|
    ensures var cs' := Delete(cs, i);
            cs'[..len] == cs[..len] && multiset(cs[len..]) == multiset(cs'[len..]) + multiset{cs[i]}
  {
    assert cs[len..] == cs[len..i] + [cs[i]] + cs[i + 1..];
    assert Delete(cs, i)[len..] == cs[len..i] + cs[i + 1..];
  }

  lemma DeactivateCounts(cs: seq<Case>, len: nat, i: nat, c: Case)
    requires i < len <= |cs|
    ensures var cs', x := Deactivate(cs, len, i), if c == cs[i] then 1 else 0;
            && multiset(cs'[..len - 1])[c] == multiset(cs[..len])[c] - x
            && multiset(cs'[len - 1..])[c] == multiset(cs[len..])[c] + x
  {
    DeactivatedFront(cs, len, i);
    DeactivatedBack(cs, len, i);
  }

  lemma DeleteCounts(cs: seq<Case>, len: nat, i: nat, c: Case)
    requires i < |cs| && len <= |cs|
    ensures var cs', x, len' := Delete(cs, i), if c == cs[i] then 1 else 0, if i < len then len - 1 else len;
            && multiset(cs'[..len'])[c] == multiset(cs[..len])[c] - (if i < len then x else 0)
            && multiset(cs'[len'..])[c] == multiset(cs[len..])[c] - (if i < len then 0 else x)
  {
    if i < len {
      DeletedInFront(cs, len, i);
    } else {
      DeletedBehind(cs, len, i);
    }
  }

  lemma SplitCounts(cs: seq<Case>, len: nat, c: Case)
    requires len <= |cs|
    ensures multiset(cs)[c] == multiset(cs[..len])[c] + multiset(cs[len..])[c]
  {
    assert cs == cs[..len] + cs[len..];
  }

  lemma UnboxParts(chs: seq<Chan>, i: nat)
    requires i < |chs|
    ensures multiset(chs) == multiset(chs[..i] + chs[i + 1..]) + multiset{chs[i]}
  {
    assert chs == chs[..i] + [chs[i]] + chs[i + 1..];
  }

  lemma {:induction false} CollectParts(chs: seq<Chan>, ch: Chan)
    ensures multiset(Cases(chs))[SendTo(ch)] == multiset(chs)[ch]
    decreases |chs|
  {
    if chs != [] {
      var n := |chs| - 1;
      CollectParts(chs[..n], ch);
      assert Cases(chs) == Cases(chs[..n]) + [SendTo(chs[n])];
      assert chs == chs[..n] + [chs[n]];
    }
  }

  // ----- each step keeps the invariant -----

  lemma SubscribeKeeps(s: State, ch: Chan)
    requires Inv(s) && Enabled(s, Subscribe(ch))
    ensures Inv(Apply(s, Subscribe(ch)))
  {
    var s' := Apply(s, Subscribe(ch));
    forall c ensures ChanInv(s', c) {
      assert ChanInv(s, c);
    }
  }

  lemma UnsubscribeKeeps(s: State, ch: Chan)
    requires Inv(s) && Enabled(s, Unsubscribe(ch))
    ensures Inv(Apply(s, Unsubscribe(ch)))
  {
    var s', i := Apply(s, Unsubscribe(ch)), IndexOf(s.inbox, ch);
    CollectParts(s.inbox, ch);
    if i != -1 {
      UnboxParts(s.inbox, i);
    }
    forall c ensures ChanInv(s', c) {
      assert ChanInv(s, c) && ChanInv(s, ch);
    }
  }

  /** A removal that is under way always finds its channel among the cases. */
  lemma RemovalFinds(s: State, ch: Chan)
    requires Inv(s) && ch in s.removing
    ensures 1 <= Find(s.cases, ch) < |s.cases|
    ensures Find(s.cases, ch) < s.active <==> s.Unserved()[SendTo(ch)] == 1
  {
    assert ChanInv(s, ch);
    SplitCounts(s.cases, s.active, SendTo(ch));
    var i := Find(s.cases, ch);
    assert SendTo(ch) in multiset(s.cases);
    if i < s.active {
      assert s.cases[..s.active][i] == SendTo(ch);
    } else {
      assert s.cases[s.active..][i - s.active] == SendTo(ch);
    }
  }

  lemma RemoveKeepsChan(s: State, step: Step, c: Chan)
    requires (step.RemoveIdle? || step.SelectRemove?) && Shape(s) && ChanInv(s, c) && Enabled(s, step)
    requires Shape(Apply(s, step)) && 1 <= Find(s.cases, step.ch)
    ensures ChanInv(Apply(s, step), c)
  {
    var s', x := Apply(s, step), if c == step.ch then 1 else 0;
    RemovedCounts(s, step, c, x);
    RemovedIsOk(s, s', step, c, x, s.Unserved()[SendTo(c)], s.Rest()[SendTo(c)], multiset(s.inbox)[c],
                s'.Unserved()[SendTo(c)], s'.Rest()[SendTo(c)]);
  }

  /** A removal takes the channel's case out of the part that it is in. */
  lemma RemovedCounts(s: State, step: Step, c: Chan, x: nat)
    requires (step.RemoveIdle? || step.SelectRemove?) && Shape(s) && Enabled(s, step)
    requires Shape(Apply(s, step)) && 1 <= Find(s.cases, step.ch) && x == if c == step.ch then 1 else 0
    ensures var s', i := Apply(s, step), Find(s.cases, step.ch);
            && s'.Unserved()[SendTo(c)] == s.Unserved()[SendTo(c)] - (if i < s.active then x else 0)
            && s'.Rest()[SendTo(c)] == s.Rest()[SendTo(c)] - (if i < s.active then 0 else x)
  {
    DeleteCounts(s.cases, s.active, Find(s.cases, step.ch), SendTo(c));
  }

  lemma RemovedIsOk(s: State, s': State, step: Step, c: Chan, x: nat, unserved: nat, rest: nat, boxed: nat,
                    unserved': nat, rest': nat)
    requires (step.RemoveIdle? || step.SelectRemove?) && Enabled(s, step) && s' == Apply(s, step)
    requires Find(s.cases, step.ch) != -1 && x == (if c == step.ch then 1 else 0)
    requires ChanOk(s, c, unserved, rest, boxed)
    requires (unserved' == unserved - x && rest' == rest) || (unserved' == unserved && rest' == rest - x)
    ensures ChanOk(s', c, unserved', rest', boxed)
  {
  }

  lemma RemoveKeeps(s: State, step: Step)
    requires (step.RemoveIdle? || step.SelectRemove?) && Inv(s) && Enabled(s, step)
    ensures Inv(Apply(s, step))
  {
    RemovalFinds(s, step.ch);
    forall c ensures ChanInv(Apply(s, step), c) {
      RemoveKeepsChan(s, step, c);
    }
  }

  lemma CollectKeeps(s: State)
    requires Inv(s) && Enabled(s, Collect)
    ensures Inv(Apply(s, Collect))
  {
    var s' := Apply(s, Collect);
    assert s'.cases[..s'.active] == s.cases + Cases(s.inbox) && s.cases[..s.active] == s.cases;
    forall c ensures ChanInv(s', c) {
      assert ChanInv(s, c);
      CollectParts(s.inbox, c);
    }
  }

  lemma ServedKeepsChan(s: State, i: nat, phase: Phase, c: Chan)
    requires Shape(s) && ChanInv(s, c) && s.InSend() && 1 <= i < s.active && phase.Trying? && phase.i >= 1
    ensures ChanInv(Served(s, i, phase), c)
  {
    DeactivateCounts(s.cases, s.active, i, SendTo(c));
  }

  lemma ServedKeeps(s: State, i: nat, phase: Phase)
    requires Inv(s) && s.InSend() && 1 <= i < s.active && phase.Trying? && phase.i >= 1
    ensures Inv(Served(s, i, phase))
  {
    forall c ensures ChanInv(Served(s, i, phase), c) {
      ServedKeepsChan(s, i, phase, c);
    }
  }

  lemma EndKeeps(s: State)
    requires Inv(s) && Enabled(s, TryDone) && s.active == 1
    ensures Inv(Apply(s, TryDone))
  {
    var s' := Apply(s, TryDone);
    assert s.cases[..s'.active] == s.cases[..s.active] + s.cases[s.active..];
    assert s.cases[s'.active..] == [];
    forall c ensures ChanInv(s', c) {
      assert ChanInv(s, c);
    }
  }

  lemma OtherKeeps(s: State, step: Step)
    requires Inv(s) && Enabled(s, step)
    requires step.Lock? || (step.TryDone? && s.active != 1) || (step.TrySend? && !step.ok)
    ensures Inv(Apply(s, step))
  {
    var s' := Apply(s, step);
    forall c ensures ChanInv(s', c) {
      assert ChanInv(s, c);
    }
  }

  lemma StepKeeps(s: State, step: Step)
    requires Inv(s) && Enabled(s, step)
    ensures Inv(Apply(s, step))
  {
    match step
    case Subscribe(ch) => SubscribeKeeps(s, ch);
    case Unsubscribe(ch) => UnsubscribeKeeps(s, ch);
    case RemoveIdle(ch) => RemoveKeeps(s, step);
    case SelectRemove(ch) => RemoveKeeps(s, step);
    case Collect => CollectKeeps(s);
    case TrySend(ok) =>
      if ok {
        ServedKeeps(s, s.phase.i, s.phase);
      } else {
        OtherKeeps(s, step);
      }
    case SelectSend(k) => ServedKeeps(s, k, Trying(1));
    case TryDone =>
      if s.active == 1 {
        EndKeeps(s);
      } else {
        OtherKeeps(s, step);
      }
    case Lock => OtherKeeps(s, step);
  }

  lemma InitOk()
    ensures Inv(Init)
  {
    forall c ensures ChanInv(Init, c) {
      assert Init.cases[..1] == [RemoveSub] && Init.cases[1..] == [];
    }
  }

  // ----- runs -----

  /** `s` can be reached from `from` by some interleaving, given as the list of its steps. */
  ghost predicate Reached(from: State, steps: seq<Step>, s: State)
    decreases |steps|
  {
    if steps == [] then s == from
    else
      var n := |steps| - 1;
      exists t :: Reached(from, steps[..n], t) && Enabled(t, steps[n]) && s == Apply(t, steps[n])
  }

  lemma {:induction false} RunKeeps(from: State, steps: seq<Step>, s: State)
    requires Inv(from) && Reached(from, steps, s)
    ensures Inv(s)
    decreases |steps|
  {
    if steps != [] {
      var n := |steps| - 1;
      var t :| Reached(from, steps[..n], t) && Enabled(t, steps[n]) && s == Apply(t, steps[n]);
      RunKeeps(from, steps[..n], t);
      StepKeeps(t, steps[n]);
    }
  }

  /** In every interleaving, a live subscription is in exactly one of the inbox and the cases. */
  lemma LiveInOnePlace(steps: seq<Step>, s: State, ch: Chan)
    requires Reached(Init, steps, s)
    ensures multiset(s.inbox)[ch] + multiset(s.cases)[SendTo(ch)] == if ch in s.live then 1 else 0
  {
    InitOk();
    RunKeeps(Init, steps, s);
    assert ChanInv(s, ch);
    SplitCounts(s.cases, s.active, SendTo(ch));
  }

  /**
   In every interleaving, whatever step ends a `Send`: every channel it took on and
   that was not removed meanwhile has got the value exactly once, no other channel got
   it more than once or without having been taken on, and the result counts the
   deliveries.
   */
  lemma SendDeliversOnce(steps: seq<Step>, s: State, step: Step, ch: Chan)
    requires Reached(Init, steps, s) && s.InSend() && Enabled(s, step) && !Apply(s, step).InSend()
    ensures ch in s.joined && ch !in s.removed ==> s.got[ch] == 1
    ensures s.got[ch] <= 1 && (s.got[ch] == 1 ==> ch in s.joined)
    ensures s.nsent == |s.got| && Apply(s, step).nsent == s.nsent && Apply(s, step).got == s.got
  {
    InitOk();
    RunKeeps(Init, steps, s);
    assert ChanInv(s, ch);
    assert s.cases[..1] == [RemoveSub];
  }

  /** What `Send` takes on is what is subscribed when it collects its cases, and nothing has been delivered then. */
  lemma SendTakesOnAll(steps: seq<Step>, s: State, step: Step)
    requires Reached(Init, steps, s) && !s.InSend() && Enabled(s, step) && Apply(s, step).InSend()
    ensures var s' := Apply(s, step);
            s'.joined == s.live == s'.live && s'.removed == {} && s'.got == multiset{} && s'.nsent == 0
  {
  }

  /** `Send` waits for case `k`, whose subscriber it took on and has not served. */
  ghost predicate WaitsFor(s: State, k: nat) {
    && Enabled(s, SelectSend(k)) && s.cases[k].SendTo?
    && s.cases[k].ch in s.joined && s.cases[k].ch !in s.removed && s.got[s.cases[k].ch] == 0
  }

  /** In every interleaving, while `Send` runs its active cases are precisely the channels still to be served. */
  lemma ActiveIsUnserved(steps: seq<Step>, s: State, ch: Chan)
    requires Reached(Init, steps, s) && s.InSend()
    ensures 1 <= s.active <= |s.cases|
    ensures SendTo(ch) in s.cases[..s.active] <==> ch in s.joined && ch !in s.removed && s.got[ch] == 0
  {
    InitOk();
    RunKeeps(Init, steps, s);
    assert ChanInv(s, ch);
    assert SendTo(ch) in s.cases[..s.active] <==> SendTo(ch) in s.Unserved();
  }

  /**
   In every interleaving, a `Send` that still runs has a case to try, or ends its round
   of tries, or waits for a subscriber that it has not served.
   */
  lemma SendIsNotStuck(steps: seq<Step>, s: State)
    requires Reached(Init, steps, s) && s.InSend()
    ensures Enabled(s, TrySend(false)) || Enabled(s, TryDone) || exists k :: WaitsFor(s, k)
  {
    InitOk();
    RunKeeps(Init, steps, s);
    if s.phase.Selecting? {
      ActiveIsUnserved(steps, s, s.cases[1].ch);
      assert s.cases[..s.active][1] == s.cases[1];
      assert WaitsFor(s, 1);
    }
  }

  /**
   In every interleaving, a removal that is under way can go through while no `Send` runs
   or one waits for subscribers: the channel is then subscribed no more and has no case.
   */
  lemma RemovalGoesThrough(steps: seq<Step>, s: State, ch: Chan)
    requires Reached(Init, steps, s) && ch in s.removing && (s.phase.Idle? || s.phase.Selecting?)
    ensures exists step :: Enabled(s, step) && RemovedBy(s, step, ch)
  {
    InitOk();
    RunKeeps(Init, steps, s);
    RemovalRemoves(s, if s.phase.Idle? then RemoveIdle(ch) else SelectRemove(ch), ch);
  }

  lemma RemovalRemoves(s: State, step: Step, ch: Chan)
    requires Inv(s) && step in {RemoveIdle(ch), SelectRemove(ch)} && Enabled(s, step)
    ensures RemovedBy(s, step, ch)
  {
    RemovalFinds(s, ch);
    RemoveKeeps(s, step);
    var s' := Apply(s, step);
    assert ChanInv(s', ch);
    SplitCounts(s'.cases, s'.active, SendTo(ch));
  }

  ghost predicate RemovedBy(s: State, step: Step, ch: Chan)
    requires Enabled(s, step)
  {
    var s' := Apply(s, step);
    ch !in s'.removing && ch !in s'.live && s'.live == s.live - {ch} && SendTo(ch) !in s'.cases
  }

  /** In every interleaving, a removal that is under way finds its channel. */
  lemma RemovalAlwaysFinds(steps: seq<Step>, s: State, ch: Chan)
    requires Reached(Init, steps, s) && ch in s.removing
    ensures Find(s.cases, ch) >= 1
  {
    InitOk();
    RunKeeps(Init, steps, s);
    RemovalFinds(s, ch);
  }

  /** How much work the `Send` in progress has left. */
  function Work(s: State): int {
    s.active + |s.cases|
  }

  /** Each delivery and each removal brings `Send` closer to its end, and no other step takes it further away. */
  lemma SendProgresses(steps: seq<Step>, s: State, step: Step)
    requires Reached(Init, steps, s) && s.InSend() && Enabled(s, step)
    requires Apply(s, step).InSend()
    ensures step.SelectSend? || step.SelectRemove? || (step.TrySend? && step.ok) ==> Work(Apply(s, step)) < Work(s)
    ensures Work(Apply(s, step)) <= Work(s)
  {
    InitOk();
    RunKeeps(Init, steps, s);
    if step.SelectRemove? {
      RemovalFinds(s, step.ch);
    }
  }
}
