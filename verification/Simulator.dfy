/** The deterministic simulator: a virtual-time lock store, a seeded generator
    and the scheduler that drives worker state machines, first as a step
    function on values, then as the loop over mutable state that refines it. */
module Simulator {
  import opened Common
  import opened Checker
  import opened Timeline

  datatype Scenario = Scenario(
    seed: bv64, workers: nat, steps: nat, ttl: nat, pausePct: nat,
    brokenCas: bool, brokenFencing: bool)

  const NEVER: nat := 0xFFFF_FFFF_FFFF_FFFF

  // ----------------------------------------------------------------------
  // xorshift64
  // ----------------------------------------------------------------------

  function Seeded(seed: bv64): bv64 {
    seed ^ 0x9E37_79B9_7F4A_7C15
  }

  // The three stages of one generator step.
  function XorLeft13(x: bv64): bv64 {
    x ^ (x << 13)
  }

  function XorRight7(x: bv64): bv64 {
    x ^ (x >> 7)
  }

  function XorLeft17(x: bv64): bv64 {
    x ^ (x << 17)
  }

  function Scramble(x: bv64): bv64 {
    XorLeft17(XorRight7(XorLeft13(x)))
  }

  // A draw below n; a bound of zero draws nothing.
  function Below(x: bv64, n: nat): (r: (nat, bv64))
    ensures n > 0 ==> r.0 < n
    ensures n == 0 ==> r.0 == 0
  {
    if n == 0 then (0, x) else ((Scramble(x) as nat) % n, Scramble(x))
  }

  class Rng {
    var x: bv64

    constructor (seed: bv64)
      ensures x == Seeded(seed)
    {
      x := seed ^ 0x9E37_79B9_7F4A_7C15;
    }

    method NextU64() returns (r: bv64)
      modifies this
      ensures r == x == Scramble(old(x))
    {
      var y := x;
      y := XorLeft13(y);
      y := XorRight7(y);
      y := XorLeft17(y);
      x := y;
      r := y;
    }

    method DrawBelow(n: nat) returns (r: nat)
      modifies this
      ensures (r, x) == Below(old(x), n)
      ensures n > 0 ==> x == Scramble(old(x)) && r == (x as nat) % n
      ensures n == 0 ==> x == old(x) && r == 0
    {
      if n == 0 {
        r := 0;
      } else {
        var y := NextU64();
        r := (y as nat) % n;
      }
    }

    method Pct(percent: nat) returns (b: bool)
      modifies this
      ensures x == Below(old(x), 100).1 && b == (Below(old(x), 100).0 < percent)
    {
      var d := DrawBelow(100);
      b := d < percent;
    }
  }

  // ----------------------------------------------------------------------
  // The store
  // ----------------------------------------------------------------------

  datatype Entry = Entry(holder: nat, expires: nat, fence: nat)

  datatype StoreState = StoreState(
    now: nat, entry: Option<Entry>, counter: nat, lastAccepted: nat,
    brokenCas: bool, brokenFencing: bool)

  predicate EntryLive(s: StoreState) {
    s.entry.Some? && s.now < s.entry.value.expires
  }

  predicate HoldsValidly(s: StoreState, w: nat, fence: nat) {
    EntryLive(s) && s.entry.value.holder == w && s.entry.value.fence == fence
  }

  // FencingToken::supersedes.
  predicate Supersedes(fence: nat, last: nat) {
    fence > last
  }

  function CasGrant(s: StoreState, w: nat, ttl: nat): (StoreState, Option<nat>) {
    if EntryLive(s) && !s.brokenCas then (s, None)
    else
      var f := s.counter + 1;
      (s.(counter := f, entry := Some(Entry(w, s.now + ttl, f))), Some(f))
  }

  function ReleaseEntry(s: StoreState, w: nat, fence: nat): (StoreState, bool) {
    if HoldsValidly(s, w, fence) then (s.(entry := None), true) else (s, false)
  }

  function FencedWrite(s: StoreState, w: nat, fence: nat): (StoreState, bool) {
    if s.brokenFencing then (s, true)
    else if HoldsValidly(s, w, fence) && Supersedes(fence, s.lastAccepted) then
      (s.(lastAccepted := fence), true)
    else (s, false)
  }

  class SimStore {
    var now: nat
    var entry: Option<Entry>
    var counter: nat
    var lastAccepted: nat
    const brokenCas: bool
    const brokenFencing: bool

    constructor (brokenCas: bool, brokenFencing: bool)
      ensures View() == StoreState(0, None, 0, 0, brokenCas, brokenFencing)
    {
      now, entry, counter, lastAccepted := 0, None, 0, 0;
      this.brokenCas, this.brokenFencing := brokenCas, brokenFencing;
    }

    function View(): StoreState
      reads this
    {
      StoreState(now, entry, counter, lastAccepted, brokenCas, brokenFencing)
    }

    method Grant(w: nat, ttl: nat) returns (fence: Option<nat>)
      modifies this
      ensures (View(), fence) == CasGrant(old(View()), w, ttl)
      ensures if old(entry).Some? && old(now) < old(entry).value.expires && !brokenCas then
                fence == None && View() == old(View())
              else
                && fence == Some(old(counter) + 1)
                && View() == StoreState(old(now), Some(Entry(w, old(now) + ttl, old(counter) + 1)), old(counter) + 1,
                                        old(lastAccepted), brokenCas, brokenFencing)
    {
      if entry.Some? {
        if entry.value.expires > now && !brokenCas {
          return None;
        }
      }
      counter := counter + 1;
      entry := Some(Entry(w, now + ttl, counter));
      fence := Some(counter);
    }

    method Release(w: nat, fence: nat) returns (ok: bool)
      modifies this
      ensures (View(), ok) == ReleaseEntry(old(View()), w, fence)
      ensures ok == exists e :: old(entry) == Some(Entry(w, e, fence)) && old(now) < e
      ensures View() == old(View()).(entry := if ok then None else old(entry))
    {
      match entry {
        case Some(e) =>
          if e.holder == w && e.fence == fence && e.expires > now {
            entry := None;
            return true;
          }
        case None =>
      }
      ok := false;
    }

    method Write(w: nat, fence: nat) returns (ok: bool)
      modifies this
      ensures (View(), ok) == FencedWrite(old(View()), w, fence)
      ensures brokenFencing ==> ok && View() == old(View())
      ensures !brokenFencing ==>
                && (ok <==> exists e :: entry == Some(Entry(w, e, fence)) && now < e && fence > old(lastAccepted))
                && View() == old(View()).(lastAccepted := if ok then fence else old(lastAccepted))
    {
      if brokenFencing {
        return true;
      }
      if !HoldsValidly(View(), w, fence) {
        return false;
      }
      if Supersedes(fence, lastAccepted) {
        lastAccepted := fence;
        ok := true;
      } else {
        ok := false;
      }
    }
  }

  // ----------------------------------------------------------------------
  // The scheduler as a step function
  // ----------------------------------------------------------------------

  datatype State =
    | Idle(stepsLeft: nat)
    | Holding(fence: nat, releaseAt: nat, willPause: bool, budget: nat)
    | Paused(fence: nat, budget: nat)
    | Done

  datatype World = World(
    store: StoreState, rng: bv64, states: seq<State>, wake: seq<nat>, events: seq<Event>)

  function InitWorld(sc: Scenario): World {
    World(StoreState(0, None, 0, 0, sc.brokenCas, sc.brokenFencing), Seeded(sc.seed),
          seq(sc.workers, _ => Idle(sc.steps)), seq(sc.workers, _ => 0), [])
  }

  // The unfinished worker with the least (wake time, index), among the first n.
  function PickFrom(states: seq<State>, wake: seq<nat>, n: nat): (r: Option<nat>)
    requires n <= |states| == |wake|
    ensures r.None? ==> forall i :: 0 <= i < n ==> states[i].Done?
    ensures r.Some? ==>
              && r.value < n && !states[r.value].Done?
              && forall i :: 0 <= i < n && !states[i].Done? ==>
                   wake[r.value] < wake[i] || (wake[r.value] == wake[i] && r.value <= i)
  {
    if n == 0 then None
    else
      var best := PickFrom(states, wake, n - 1);
      if states[n - 1].Done? then best
      else if best.None? || wake[n - 1] < wake[best.value] then Some(n - 1)
      else best
  }

  function Pick(w: World): Option<nat>
    requires |w.states| == |w.wake|
  {
    PickFrom(w.states, w.wake, |w.states|)
  }

  // What one worker's turn changes besides its own state and wake time.
  datatype Turn = Turn(store: StoreState, rng: bv64, state: State, wake: nat, emitted: seq<Event>)

  // `s` already carries the time the worker woke at, and the grant.
  function GrantedTurn(sc: Scenario, s: StoreState, rng: bv64, i: nat, fence: nat, budget: nat): Turn {
    var (p, rng1) := Below(rng, 100);
    var (h, rng2) := Below(rng1, sc.ttl / 2);
    var releaseAt := s.now + (5 + h);
    var willPause := p < sc.pausePct;
    Turn(s, rng2, Holding(fence, releaseAt, willPause, budget),
         if willPause then s.now + (5 + h) / 2 else releaseAt,
         [Event(s.now, i, Grant, fence)])
  }

  function DeniedTurn(s: StoreState, rng: bv64, i: nat, wakeAt: nat, budget: nat): Turn {
    var (d, rng1) := Below(rng, 3);
    Turn(s, rng1, Idle(budget), wakeAt + 1 + d, [Event(s.now, i, Deny, 0)])
  }

  function AttemptTurn(sc: Scenario, s: StoreState, rng: bv64, i: nat, wakeAt: nat, budget: nat): Turn {
    var (s', granted) := CasGrant(s, i, sc.ttl);
    if granted.Some? then GrantedTurn(sc, s', rng, i, granted.value, budget)
    else DeniedTurn(s', rng, i, wakeAt, budget)
  }

  function IdleTurn(sc: Scenario, s: StoreState, rng: bv64, i: nat, wakeAt: nat, stepsLeft: nat): Turn {
    if stepsLeft == 0 then Turn(s, rng, Done, NEVER, [])
    else
      var (d, rng1) := Below(rng, 100);
      if d < 70 then AttemptTurn(sc, s, rng1, i, wakeAt, stepsLeft - 1)
      else Turn(s, rng1, Idle(stepsLeft - 1), wakeAt + 1, [])
  }

  function HoldingTurn(sc: Scenario, s: StoreState, rng: bv64, i: nat, st: State): Turn
    requires st.Holding?
  {
    if st.willPause && s.now < st.releaseAt then
      Turn(s, rng, Paused(st.fence, st.budget), st.releaseAt + sc.ttl + 10, [])
    else if s.now >= st.releaseAt then
      var (s1, wrote) := FencedWrite(s, i, st.fence);
      var (s2, released) := ReleaseEntry(s1, i, st.fence);
      var (d, rng1) := Below(rng, 4);
      Turn(s2, rng1, Idle(st.budget), s.now + d,
           [Event(s.now, i, if wrote then WriteAccepted else WriteRejected, st.fence),
            Event(s.now, i, if released then ReleaseOk else ReleaseLost, st.fence)])
    else Turn(s, rng, st, st.releaseAt, [])
  }

  function PausedTurn(s: StoreState, rng: bv64, i: nat, st: State): Turn
    requires st.Paused?
  {
    var (s1, wrote) := FencedWrite(s, i, st.fence);
    var (s2, released) := ReleaseEntry(s1, i, st.fence);
    Turn(s2, rng, Idle(st.budget), s.now + 1,
         [Event(s.now, i, if wrote then WriteAccepted else WriteRejected, st.fence),
          Event(s.now, i, ReleaseLost, st.fence)])
  }

  function Woken(w: World, i: nat): StoreState
    requires i < |w.wake|
  {
    w.store.(now := if w.store.now >= w.wake[i] then w.store.now else w.wake[i])
  }

  function TakeTurn(sc: Scenario, w: World, i: nat): Turn
    requires i < |w.states| == |w.wake|
    requires !w.states[i].Done?
  {
    var s := Woken(w, i);
    match w.states[i]
    case Idle(stepsLeft) => IdleTurn(sc, s, w.rng, i, w.wake[i], stepsLeft)
    case Holding(_, _, _, _) => HoldingTurn(sc, s, w.rng, i, w.states[i])
    case Paused(_, _) => PausedTurn(s, w.rng, i, w.states[i])
  }

  function Apply(w: World, i: nat, t: Turn): World
    requires i < |w.states| == |w.wake|
  {
    World(t.store, t.rng, w.states[i := t.state], w.wake[i := t.wake], w.events + t.emitted)
  }

  // One loop iteration; a finished world stays put.
  function Step(sc: Scenario, w: World): (r: World)
    requires |w.states| == |w.wake|
    ensures |r.states| == |r.wake| == |w.states|
  {
    var p := Pick(w);
    if p.None? then w else Apply(w, p.value, TakeTurn(sc, w, p.value))
  }

  function Iterate(sc: Scenario, k: nat): (r: World)
    ensures |r.states| == |r.wake| == sc.workers
  {
    if k == 0 then InitWorld(sc) else Step(sc, Iterate(sc, k - 1))
  }

  // Enough iterations for every worker to finish.
  function Bound(sc: Scenario): nat {
    sc.workers * (3 * sc.steps + 1)
  }

  function Simulate(sc: Scenario): seq<Event> {
    SortByTime(Iterate(sc, Bound(sc)).events)
  }

  // ----------------------------------------------------------------------
  // Invariant
  // ----------------------------------------------------------------------

  predicate Active(st: State) {
    st.Holding? || st.Paused?
  }

  ghost predicate Timing(w: World)
    requires |w.states| == |w.wake|
  {
    && (forall i :: 0 <= i < |w.states| && !w.states[i].Done? ==> w.store.now <= w.wake[i])
    && (forall i :: 0 <= i < |w.states| && w.states[i].Holding? ==>
          if w.states[i].willPause then w.wake[i] < w.states[i].releaseAt
          else w.wake[i] == w.states[i].releaseAt)
  }

  // When the store still carries the worker's own grant, it will have run out
  // by the time a pause of this worker ends.
  ghost predicate LeaseEnds(sc: Scenario, w: World)
    requires |w.states| == |w.wake|
  {
    forall i :: (0 <= i < |w.states| && Active(w.states[i])
                 && w.store.entry.Some? && w.store.entry.value.fence == w.states[i].fence) ==>
      w.store.entry.value.expires <=
        if w.states[i].Holding? then w.states[i].releaseAt + sc.ttl else w.wake[i]
  }

  ghost predicate Fences(w: World) {
    && (forall i :: 0 <= i < |w.states| && Active(w.states[i]) ==> 1 <= w.states[i].fence <= w.store.counter)
    && (forall i, j :: 0 <= i < j < |w.states| && Active(w.states[i]) && Active(w.states[j]) ==>
          w.states[i].fence != w.states[j].fence)
    && (w.store.entry.Some? ==> w.store.entry.value.fence == w.store.counter >= 1)
    && (EntryLive(w.store) ==>
          var h := w.store.entry.value.holder;
          h < |w.states| && Active(w.states[h]) && w.states[h].fence == w.store.counter)
    && w.store.lastAccepted <= w.store.counter
    && (EntryLive(w.store) ==> w.store.lastAccepted < w.store.counter)
  }

  ghost predicate Timely(w: World) {
    Sorted(w.events) && forall k :: 0 <= k < |w.events| ==> w.events[k].t <= w.store.now
  }

  ghost predicate Inv(sc: Scenario, w: World) {
    && |w.states| == |w.wake| == sc.workers
    && w.store.brokenCas == sc.brokenCas && w.store.brokenFencing == sc.brokenFencing
    && Timing(w) && LeaseEnds(sc, w) && Fences(w) && Timely(w)
  }

  // ----------------------------------------------------------------------
  // The four things a turn can be, with the generator's draws abstracted
  // ----------------------------------------------------------------------

  ghost predicate IsGrant(sc: Scenario, s: StoreState, i: nat, st: State, t: Turn) {
    && st.Idle? && st.stepsLeft > 0 && t.state.Holding?
    && (EntryLive(s) ==> s.brokenCas)
    && t.store == s.(counter := s.counter + 1, entry := Some(Entry(i, s.now + sc.ttl, s.counter + 1)))
    && t.state.fence == s.counter + 1
    && t.state.budget == st.stepsLeft - 1
    && s.now + 5 <= t.state.releaseAt
    && s.now <= t.wake
    && (if t.state.willPause then t.wake < t.state.releaseAt else t.wake == t.state.releaseAt)
    && t.emitted == [Event(s.now, i, Grant, s.counter + 1)]
  }

  // A denial, a skipped step or the end of the worker.
  ghost predicate IsQuiet(s: StoreState, i: nat, st: State, t: Turn) {
    && st.Idle? && t.store == s
    && (if st.stepsLeft == 0 then t.state.Done? && t.emitted == []
        else
          && t.state == Idle(st.stepsLeft - 1) && s.now < t.wake
          && (t.emitted == [] || t.emitted == [Event(s.now, i, Deny, 0)]))
  }

  ghost predicate IsFreeze(sc: Scenario, s: StoreState, st: State, t: Turn) {
    && st.Holding? && t.store == s && t.emitted == []
    && s.now < st.releaseAt
    && t.state == Paused(st.fence, st.budget)
    && t.wake == st.releaseAt + sc.ttl + 10
  }

  // A write followed by a release, by a holder on time or one back from a pause.
  ghost predicate IsFinish(s: StoreState, i: nat, st: State, t: Turn) {
    && Active(st) && t.state == Idle(st.budget) && s.now <= t.wake
    && (st.Holding? ==> st.releaseAt <= s.now)
    && var wrote := FencedWrite(s, i, st.fence);
       var released := ReleaseEntry(wrote.0, i, st.fence);
       && t.store == released.0
       && t.emitted ==
          [Event(s.now, i, if wrote.1 then WriteAccepted else WriteRejected, st.fence),
           Event(s.now, i, if st.Holding? && released.1 then ReleaseOk else ReleaseLost, st.fence)]
  }

  ghost predicate Classified(sc: Scenario, w: World, i: nat, t: Turn)
    requires i < |w.states| == |w.wake|
  {
    var s, st := Woken(w, i), w.states[i];
    IsGrant(sc, s, i, st, t) || IsQuiet(s, i, st, t) || IsFreeze(sc, s, st, t) || IsFinish(s, i, st, t)
  }

  // Worker i is the one the scheduler picks: it wakes no later than any other,
  // so time moves exactly to its wake time.
  ghost predicate Picked(w: World, i: nat)
    requires |w.states| == |w.wake|
  {
    && i < |w.states| && !w.states[i].Done?
    && w.store.now <= w.wake[i]
    && Woken(w, i).now == w.wake[i]
    && forall j :: 0 <= j < |w.states| && !w.states[j].Done? ==> w.wake[i] <= w.wake[j]
  }

  lemma PickIsEarliest(sc: Scenario, w: World)
    requires Inv(sc, w) && Pick(w).Some?
    ensures Picked(w, Pick(w).value)
  {
  }

  // The re-sleep branch of a holding worker is never taken, and a turn is one
  // of the four kinds above.
  lemma TurnIsClassified(sc: Scenario, w: World, i: nat)
    requires |w.states| == |w.wake| && Timing(w) && Picked(w, i)
    ensures Classified(sc, w, i, TakeTurn(sc, w, i))
    ensures w.states[i].Holding? ==>
              (w.states[i].willPause && Woken(w, i).now < w.states[i].releaseAt)
              || Woken(w, i).now >= w.states[i].releaseAt
  {
    var s := Woken(w, i);
    match w.states[i]
    case Idle(n) => IdleTurnIsClassified(sc, s, w.rng, i, w.wake[i], n);
    case Holding(_, _, _, _) =>
    case Paused(_, _) =>
  }

  lemma IdleTurnIsClassified(sc: Scenario, s: StoreState, rng: bv64, i: nat, wakeAt: nat, n: nat)
    requires s.now == wakeAt
    ensures var t := IdleTurn(sc, s, rng, i, wakeAt, n);
            IsGrant(sc, s, i, Idle(n), t) || IsQuiet(s, i, Idle(n), t)
  {
  }

  ghost predicate Ready(sc: Scenario, w: World, i: nat, t: Turn) {
    Inv(sc, w) && Picked(w, i) && Classified(sc, w, i, t)
  }

  lemma ApplyKeepsTiming(sc: Scenario, w: World, i: nat, t: Turn)
    requires Ready(sc, w, i, t)
    ensures Timing(Apply(w, i, t)) && Timely(Apply(w, i, t))
    ensures t.store.now == w.wake[i] >= w.store.now
  {
  }

  lemma ApplyKeepsLeaseEnds(sc: Scenario, w: World, i: nat, t: Turn)
    requires Ready(sc, w, i, t)
    ensures LeaseEnds(sc, Apply(w, i, t))
  {
  }

  lemma FinishKeepsFences(sc: Scenario, w: World, i: nat, t: Turn)
    requires Ready(sc, w, i, t) && IsFinish(Woken(w, i), i, w.states[i], t)
    ensures Fences(Apply(w, i, t))
  {
    if EntryLive(t.store) {
      assert !HoldsValidly(Woken(w, i), i, w.states[i].fence);
      assert w.store.entry.value.holder != i;
    }
  }

  lemma GrantKeepsFences(sc: Scenario, w: World, i: nat, t: Turn)
    requires Ready(sc, w, i, t) && IsGrant(sc, Woken(w, i), i, w.states[i], t)
    ensures Fences(Apply(w, i, t))
  {
  }

  lemma ApplyKeepsFences(sc: Scenario, w: World, i: nat, t: Turn)
    requires Ready(sc, w, i, t)
    ensures Fences(Apply(w, i, t))
  {
    if IsFinish(Woken(w, i), i, w.states[i], t) {
      FinishKeepsFences(sc, w, i, t);
    } else if IsGrant(sc, Woken(w, i), i, w.states[i], t) {
      GrantKeepsFences(sc, w, i, t);
    }
  }

  lemma ApplyKeepsInv(sc: Scenario, w: World, i: nat, t: Turn)
    requires Ready(sc, w, i, t)
    ensures Inv(sc, Apply(w, i, t))
  {
    ApplyKeepsTiming(sc, w, i, t);
    ApplyKeepsLeaseEnds(sc, w, i, t);
    ApplyKeepsFences(sc, w, i, t);
  }

  lemma StepKeepsInv(sc: Scenario, w: World)
    requires Inv(sc, w)
    ensures Inv(sc, Step(sc, w))
  {
    if Pick(w).Some? {
      var i := Pick(w).value;
      PickIsEarliest(sc, w);
      TurnIsClassified(sc, w, i);
      ApplyKeepsInv(sc, w, i, TakeTurn(sc, w, i));
    }
  }

  lemma {:induction false} AlwaysInv(sc: Scenario, k: nat)
    ensures Inv(sc, Iterate(sc, k))
  {
    if k > 0 {
      AlwaysInv(sc, k - 1);
      StepKeepsInv(sc, Iterate(sc, k - 1));
    }
  }
}
