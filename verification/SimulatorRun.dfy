/** The simulator's event loop over its mutable store, generator and per-worker
    buffers. It computes exactly `Simulate`, so every theorem about simulated
    histories is a theorem about what the loop returns, and a scenario
    determines its history. */
module SimulatorRun {
  import opened Common
  import opened Checker
  import opened Timeline
  import opened Simulator
  import opened SimulatorProofs
  import opened SimulatorTurns

  method PickNext(states: array<State>, wakeAt: array<nat>) returns (best: Option<nat>)
    requires states.Length == wakeAt.Length
    ensures best == PickFrom(states[..], wakeAt[..], states.Length)
  {
    best := None;
    for n := 0 to states.Length
      invariant best == PickFrom(states[..], wakeAt[..], n)
    {
      if !states[n].Done? && (best.None? || wakeAt[n] < wakeAt[best.value]) {
        best := Some(n);
      }
    }
  }

  method RunGranted(sc: Scenario, store: SimStore, rng: Rng, w: nat, fence: nat, budget: nat)
    returns (state: State, wake: nat, emitted: seq<Event>)
    requires (store as object) != rng
    modifies rng
    ensures Turn(store.View(), rng.x, state, wake, emitted)
         == GrantedTurn(sc, store.View(), old(rng.x), w, fence, budget)
  {
    emitted := [Event(store.now, w, Grant, fence)];
    var willPause := rng.Pct(sc.pausePct);
    var h := rng.DrawBelow(sc.ttl / 2);
    var hold := 5 + h;
    var releaseAt := store.now + hold;
    // Half-way through the hold, or at its end.
    wake := if willPause then store.now + hold / 2 else releaseAt;
    state := Holding(fence, releaseAt, willPause, budget);
  }

  method RunDenied(store: SimStore, rng: Rng, w: nat, wakeAt: nat, budget: nat)
    returns (state: State, wake: nat, emitted: seq<Event>)
    requires (store as object) != rng
    modifies rng
    ensures Turn(store.View(), rng.x, state, wake, emitted)
         == DeniedTurn(store.View(), old(rng.x), w, wakeAt, budget)
  {
    emitted := [Event(store.now, w, Deny, 0)];
    var delay := rng.DrawBelow(3);
    wake := wakeAt + 1 + delay;
    state := Idle(budget);
  }

  method RunAttempt(sc: Scenario, store: SimStore, rng: Rng, w: nat, wakeAt: nat, budget: nat)
    returns (state: State, wake: nat, emitted: seq<Event>)
    requires (store as object) != rng
    modifies store, rng
    ensures Turn(store.View(), rng.x, state, wake, emitted)
         == AttemptTurn(sc, old(store.View()), old(rng.x), w, wakeAt, budget)
  {
    var granted := store.Grant(w, sc.ttl);
    match granted {
      case Some(fence) =>
        state, wake, emitted := RunGranted(sc, store, rng, w, fence, budget);
      case None =>
        state, wake, emitted := RunDenied(store, rng, w, wakeAt, budget);
    }
  }

  method RunIdle(sc: Scenario, store: SimStore, rng: Rng, w: nat, wakeAt: nat, stepsLeft: nat)
    returns (state: State, wake: nat, emitted: seq<Event>)
    requires (store as object) != rng
    modifies store, rng
    ensures Turn(store.View(), rng.x, state, wake, emitted)
         == IdleTurn(sc, old(store.View()), old(rng.x), w, wakeAt, stepsLeft)
  {
    if stepsLeft == 0 {
      return Done, NEVER, [];
    }
    var d := rng.DrawBelow(100);
    if d < 70 {
      state, wake, emitted := RunAttempt(sc, store, rng, w, wakeAt, stepsLeft - 1);
    } else {
      state, wake, emitted := Idle(stepsLeft - 1), wakeAt + 1, [];
    }
  }

  method RunHolding(sc: Scenario, store: SimStore, rng: Rng, w: nat, st: State)
    returns (state: State, wake: nat, emitted: seq<Event>)
    requires (store as object) != rng && st.Holding?
    modifies store, rng
    ensures Turn(store.View(), rng.x, state, wake, emitted)
         == HoldingTurn(sc, old(store.View()), old(rng.x), w, st)
  {
    emitted := [];
    if st.willPause && store.now < st.releaseAt {
      wake := st.releaseAt + sc.ttl + 10;
      state := Paused(st.fence, st.budget);
    } else if store.now >= st.releaseAt {
      var wrote := store.Write(w, st.fence);
      emitted := [Event(store.now, w, if wrote then WriteAccepted else WriteRejected, st.fence)];
      var released := store.Release(w, st.fence);
      emitted := emitted + [Event(store.now, w, if released then ReleaseOk else ReleaseLost, st.fence)];
      var d := rng.DrawBelow(4);
      wake := store.now + d;
      state := Idle(st.budget);
    } else {
      wake := st.releaseAt;
      state := st;
    }
  }

  method RunPaused(store: SimStore, rng: Rng, w: nat, st: State)
    returns (state: State, wake: nat, emitted: seq<Event>)
    requires st.Paused?
    requires !HoldsValidly(store.View(), w, st.fence)
    modifies store
    ensures Turn(store.View(), rng.x, state, wake, emitted)
         == PausedTurn(old(store.View()), old(rng.x), w, st)
  {
    var wrote := store.Write(w, st.fence);
    emitted := [Event(store.now, w, if wrote then WriteAccepted else WriteRejected, st.fence)];
    var released := store.Release(w, st.fence);
    assert !released;  // the source's debug assertion
    emitted := emitted + [Event(store.now, w, ReleaseLost, st.fence)];
    wake := store.now + 1;
    state := Idle(st.budget);
  }

  // One worker's turn, written back to the per-worker buffers.
  method RunTurn(sc: Scenario, store: SimStore, rng: Rng, states: array<State>, wakeAt: array<nat>,
                 w: nat, ghost world: World)
    returns (emitted: seq<Event>)
    requires (store as object) != rng
    requires states.Length == wakeAt.Length && w < states.Length
    requires |world.states| == |world.wake|
    requires world.states == states[..] && world.wake == wakeAt[..]
    requires world.store == store.View() && world.rng == rng.x
    requires !states[w].Done?
    requires states[w].Paused? ==> !HoldsValidly(Woken(world, w), w, states[w].fence)
    modifies store, rng, states, wakeAt
    ensures World(store.View(), rng.x, states[..], wakeAt[..], world.events + emitted)
         == Apply(world, w, TakeTurn(sc, world, w))
  {
    if store.now < wakeAt[w] {
      store.now := wakeAt[w];
    }
    assert store.View() == Woken(world, w);
    var state, wake;
    match states[w] {
      case Idle(stepsLeft) =>
        state, wake, emitted := RunIdle(sc, store, rng, w, wakeAt[w], stepsLeft);
      case Holding(_, _, _, _) =>
        state, wake, emitted := RunHolding(sc, store, rng, w, states[w]);
      case Paused(_, _) =>
        state, wake, emitted := RunPaused(store, rng, w, states[w]);
    }
    ghost var t := TakeTurn(sc, world, w);
    assert Turn(store.View(), rng.x, state, wake, emitted) == t;
    states[w] := state;
    wakeAt[w] := wake;
    assert states[..] == world.states[w := t.state];
    assert wakeAt[..] == world.wake[w := t.wake];
  }

  // After k iterations the buffers hold the k-th world, and if a worker is due
  // there are iterations left in the budget.
  ghost predicate Reached(sc: Scenario, k: nat, w: World, next: Option<nat>, bound: nat) {
    && bound == Bound(sc)
    && |w.states| == |w.wake| == sc.workers
    && w == Iterate(sc, k)
    && next == Pick(w)
    && (next.Some? ==> next.value < sc.workers && !w.states[next.value].Done? && k < bound)
  }

  lemma NextReached(sc: Scenario, k: nat, w: World, i: nat, bound: nat) returns (w': World)
    requires Reached(sc, k, w, Some(i), bound)
    ensures w' == Apply(w, i, TakeTurn(sc, w, i))
    ensures |w'.states| == |w'.wake| && Reached(sc, k + 1, w', Pick(w'), bound)
    ensures w.states[i].Paused? ==> !HoldsValidly(Woken(w, i), i, w.states[i].fence)
  {
    PausedReleaseIsLost(sc, k);
    w' := Iterate(sc, k + 1);
    BudgetLeft(sc, k + 1);
  }

  lemma BudgetLeft(sc: Scenario, k: nat)
    ensures Pick(Iterate(sc, k)).Some? ==> k < Bound(sc)
  {
    WorkRunsOut(sc, k);
    var w := Iterate(sc, k);
    if Pick(w).Some? {
      TotalBoundsOne(Work, w.states, Pick(w).value);
    }
  }

  lemma LastReached(sc: Scenario, k: nat, w: World, bound: nat)
    requires Reached(sc, k, w, None, bound) && k <= bound
    ensures Simulate(sc) == SortByTime(w.events)
  {
    StaysPut(sc, k, Bound(sc));
  }

  method Setup(sc: Scenario)
    returns (rng: Rng, store: SimStore, states: array<State>, wakeAt: array<nat>,
             ghost world: World, ghost bound: nat)
    ensures fresh(rng) && fresh(store) && fresh(states) && fresh(wakeAt)
    ensures (store as object) != rng
    ensures states.Length == wakeAt.Length == sc.workers
    ensures world == World(store.View(), rng.x, states[..], wakeAt[..], [])
    ensures Reached(sc, 0, world, Pick(world), bound)
  {
    rng := new Rng(sc.seed);
    store := new SimStore(sc.brokenCas, sc.brokenFencing);
    states := new State[sc.workers](_ => Idle(sc.steps));
    wakeAt := new nat[sc.workers](_ => 0);
    world := InitWorld(sc);
    assert states[..] == world.states && wakeAt[..] == world.wake;
    assert world == Iterate(sc, 0);
    bound := Bound(sc);
    BudgetLeft(sc, 0);
  }

  // The event loop. It makes at most Bound(sc) iterations.
  method Run(sc: Scenario) returns (events: seq<Event>)
    requires sc.workers >= 2
    ensures events == Simulate(sc)
    ensures IsHistory(sc, events)
  {
    var rng, store, states, wakeAt, world, bound := Setup(sc);
    events := [];
    ghost var k: nat := 0;
    var next := PickNext(states, wakeAt);
    while next.Some?
      invariant k <= bound
      invariant world == World(store.View(), rng.x, states[..], wakeAt[..], events)
      invariant Reached(sc, k, world, next, bound)
      decreases bound - k
    {
      ghost var world' := NextReached(sc, k, world, next.value, bound);
      var emitted := RunTurn(sc, store, rng, states, wakeAt, next.value, world);
      events := events + emitted;
      k, world := k + 1, world';
      next := PickNext(states, wakeAt);
    }
    LastReached(sc, k, world, bound);
    events := SortByTime(events);
    SimulateIsHistory(sc);
  }

  // The simulator's history, given to the checker: an error exactly when some
  // iteration granted over a live lease or accepted a write without one.
  method RunAndCheck(sc: Scenario) returns (r: Result<(), Violation>)
    requires sc.workers >= 2
    ensures r.Err? <==> exists k :: 0 <= k < Bound(sc) && UnsafeStep(sc, k)
    ensures !sc.brokenCas && !sc.brokenFencing ==> r.Ok?
  {
    var events := Run(sc);
    r := Check(events, sc.ttl);
    VerdictIsExact(sc);
    if !sc.brokenCas && !sc.brokenFencing {
      CleanRunsPass(sc);
    }
  }
}
