/** What one iteration of the simulator does, told without the step function: the
    worker that is due, its draws, the events it records and the world it leaves.
    Every simulated history is the record of the one run these rules allow. */
module SimulatorTurns {
  import opened Common
  import opened Checker
  import opened Timeline
  import opened Simulator
  import opened SimulatorProofs

  // Worker i is unfinished and wakes first, the lowest index among equals.
  ghost predicate IsDue(w: World, i: nat)
    requires |w.states| == |w.wake|
  {
    && i < |w.states| && !w.states[i].Done?
    && forall j :: 0 <= j < |w.states| && !w.states[j].Done? ==> w.wake[i] < w.wake[j] || (w.wake[i] == w.wake[j] && i <= j)
  }

  // The world w after worker i has drawn up to generator state x, gone to st until
  // wake, recorded the events and left the store with this entry.
  ghost predicate Leaves(w: World, v: World, i: nat, x: bv64, st: State, wake: nat, emitted: seq<Event>,
                         entry: Option<Entry>, counter: nat, lastAccepted: nat)
    requires i < |w.states| == |w.wake|
  {
    && v.rng == x && v.events == w.events + emitted
    && v.states == w.states[i := st] && v.wake == w.wake[i := wake]
    && v.store == StoreState(w.wake[i], entry, counter, lastAccepted, w.store.brokenCas, w.store.brokenFencing)
  }

  // An idle worker stops when out of steps; else it attempts with probability 70 in 100.
  // An attempt on a live lease is denied, unless the store is broken; any other is granted,
  // and the holder will pause if its next draw is below the pause percentage.
  ghost predicate IdleMoves(sc: Scenario, w: World, v: World, i: nat, n: nat)
    requires i < |w.states| == |w.wake|
  {
    var t, e, s := w.wake[i], w.store.entry, w.store;
    if n == 0 then Leaves(w, v, i, w.rng, Done, 0xFFFF_FFFF_FFFF_FFFF, [], e, s.counter, s.lastAccepted)
    else
      var x := Scramble(w.rng);
      if (x as nat) % 100 >= 70 then Leaves(w, v, i, x, Idle(n - 1), t + 1, [], e, s.counter, s.lastAccepted)
      else if e.Some? && t < e.value.expires && !sc.brokenCas then
        Leaves(w, v, i, Scramble(x), Idle(n - 1), t + 1 + (Scramble(x) as nat) % 3, [Event(t, i, Deny, 0)],
               e, s.counter, s.lastAccepted)
      else
        var y := Scramble(x);
        var z := if sc.ttl < 2 then y else Scramble(y);
        var hold := if sc.ttl < 2 then 5 else 5 + (z as nat) % (sc.ttl / 2);
        var pause := (y as nat) % 100 < sc.pausePct;
        var fence := s.counter + 1;
        Leaves(w, v, i, z, Holding(fence, t + hold, pause, n - 1), t + (if pause then hold / 2 else hold),
               [Event(t, i, Grant, fence)], Some(Entry(i, t + sc.ttl, fence)), fence, s.lastAccepted)
  }

  // A holder that is to pause freezes until its lease has run out; any other writes and
  // releases, both succeeding while its own lease is live.
  ghost predicate HoldingMoves(sc: Scenario, w: World, v: World, i: nat, fence: nat, releaseAt: nat, willPause: bool, budget: nat)
    requires i < |w.states| == |w.wake|
  {
    var t, e, s := w.wake[i], w.store.entry, w.store;
    if willPause then
      Leaves(w, v, i, w.rng, Paused(fence, budget), releaseAt + sc.ttl + 10, [], e, s.counter, s.lastAccepted)
    else WritesAndReleases(sc, w, v, i, fence, budget, Scramble(w.rng), (Scramble(w.rng) as nat) % 4)
  }

  ghost predicate WritesAndReleases(sc: Scenario, w: World, v: World, i: nat, fence: nat, budget: nat, x: bv64, rest: nat)
    requires i < |w.states| == |w.wake|
  {
    var t, e, s := w.wake[i], w.store.entry, w.store;
    var valid := e.Some? && t < e.value.expires && e.value.holder == i && e.value.fence == fence;
    Leaves(w, v, i, x, Idle(budget), t + rest,
           [Event(t, i, if valid || sc.brokenFencing then WriteAccepted else WriteRejected, fence),
            Event(t, i, if valid then ReleaseOk else ReleaseLost, fence)],
           if valid then None else e, s.counter,
           if valid && !sc.brokenFencing then fence else s.lastAccepted)
  }

  // Back from a pause nothing is left to write under or to release.
  ghost predicate PausedMoves(sc: Scenario, w: World, v: World, i: nat, fence: nat, budget: nat)
    requires i < |w.states| == |w.wake|
  {
    var t, s := w.wake[i], w.store;
    Leaves(w, v, i, w.rng, Idle(budget), t + 1,
           [Event(t, i, if sc.brokenFencing then WriteAccepted else WriteRejected, fence),
            Event(t, i, ReleaseLost, fence)],
           s.entry, s.counter, s.lastAccepted)
  }

  ghost predicate WorkerMoves(sc: Scenario, w: World, v: World, i: nat)
    requires i < |w.states| == |w.wake|
  {
    match w.states[i]
    case Idle(n) => IdleMoves(sc, w, v, i, n)
    case Holding(fence, releaseAt, willPause, budget) => HoldingMoves(sc, w, v, i, fence, releaseAt, willPause, budget)
    case Paused(fence, budget) => PausedMoves(sc, w, v, i, fence, budget)
    case Done => false
  }

  // The worker that is due moves; a world without one stays as it is.
  ghost predicate Moves(sc: Scenario, w: World, v: World)
    requires |w.states| == |w.wake|
  {
    if forall i :: 0 <= i < |w.states| ==> w.states[i].Done? then v == w
    else exists i: nat :: IsDue(w, i) && WorkerMoves(sc, w, v, i)
  }

  lemma DrawBelow(x: bv64, n: nat)
    requires n > 0
    ensures Below(x, n).0 == (Scramble(x) as nat) % n && Below(x, n).1 == Scramble(x)
  {
  }

  lemma GrantMoves(sc: Scenario, w: World, i: nat, n: nat)
    requires Inv(sc, w) && Picked(w, i) && n > 0
    requires (Scramble(w.rng) as nat) % 100 < 70 && !(EntryLive(Woken(w, i)) && !sc.brokenCas)
    ensures var s := Woken(w, i);
            var granted := CasGrant(s, i, sc.ttl);
            granted.1.Some? && IdleMoves(sc, w, Apply(w, i, GrantedTurn(sc, granted.0, Scramble(w.rng), i, granted.1.value, n - 1)), i, n)
  {
    DrawBelow(Scramble(w.rng), 100);
    if sc.ttl >= 2 {
      DrawBelow(Scramble(Scramble(w.rng)), sc.ttl / 2);
    }
  }

  lemma IdleTurnMoves(sc: Scenario, w: World, i: nat, n: nat)
    requires Inv(sc, w) && Picked(w, i) && w.states[i] == Idle(n)
    ensures IdleMoves(sc, w, Apply(w, i, IdleTurn(sc, Woken(w, i), w.rng, i, w.wake[i], n)), i, n)
  {
    if n > 0 {
      DrawBelow(w.rng, 100);
      if (Scramble(w.rng) as nat) % 100 < 70 && !(EntryLive(Woken(w, i)) && !sc.brokenCas) {
        GrantMoves(sc, w, i, n);
      } else {
        DrawBelow(Scramble(w.rng), 3);
      }
    }
  }

  lemma AppliedLeaves(w: World, i: nat, t: Turn)
    requires |w.states| == |w.wake| && i < |w.states| && t.store.now == w.wake[i]
    requires t.store.brokenCas == w.store.brokenCas && t.store.brokenFencing == w.store.brokenFencing
    ensures Leaves(w, Apply(w, i, t), i, t.rng, t.state, t.wake, t.emitted, t.store.entry, t.store.counter, t.store.lastAccepted)
  {
  }

  // A write and a release under one fence, at the store.
  lemma WriteThenRelease(s: StoreState, i: nat, fence: nat)
    requires HoldsValidly(s, i, fence) ==> fence > s.lastAccepted
    ensures var valid := s.entry.Some? && s.now < s.entry.value.expires && s.entry.value.holder == i && s.entry.value.fence == fence;
            var wrote := FencedWrite(s, i, fence);
            var released := ReleaseEntry(wrote.0, i, fence);
            && wrote.1 == (valid || s.brokenFencing) && released.1 == valid
            && released.0 == StoreState(s.now, if valid then None else s.entry, s.counter,
                                        if valid && !s.brokenFencing then fence else s.lastAccepted,
                                        s.brokenCas, s.brokenFencing)
  {
  }

  ghost predicate Finishes(s: StoreState, i: nat, fence: nat, budget: nat, x: bv64, rest: nat, t: Turn) {
    var valid := s.entry.Some? && s.now < s.entry.value.expires && s.entry.value.holder == i && s.entry.value.fence == fence;
    && t.store == StoreState(s.now, if valid then None else s.entry, s.counter,
                             if valid && !s.brokenFencing then fence else s.lastAccepted,
                             s.brokenCas, s.brokenFencing)
    && t.rng == x && t.state == Idle(budget) && t.wake == s.now + rest
    && t.emitted == [Event(s.now, i, if valid || s.brokenFencing then WriteAccepted else WriteRejected, fence),
                     Event(s.now, i, if valid then ReleaseOk else ReleaseLost, fence)]
  }

  lemma FinishingTurn(sc: Scenario, s: StoreState, rng: bv64, i: nat, fence: nat, releaseAt: nat, budget: nat)
    requires s.now >= releaseAt && (HoldsValidly(s, i, fence) ==> fence > s.lastAccepted)
    ensures Finishes(s, i, fence, budget, Scramble(rng), (Scramble(rng) as nat) % 4,
                     HoldingTurn(sc, s, rng, i, Holding(fence, releaseAt, false, budget)))
  {
    WriteThenRelease(s, i, fence);
    DrawBelow(rng, 4);
  }

  lemma FinishMoves(sc: Scenario, w: World, i: nat, fence: nat, budget: nat, x: bv64, rest: nat, t: Turn)
    requires |w.states| == |w.wake| && i < |w.states|
    requires w.store.brokenCas == sc.brokenCas && w.store.brokenFencing == sc.brokenFencing
    requires Woken(w, i).now == w.wake[i]
    requires Finishes(Woken(w, i), i, fence, budget, x, rest, t)
    ensures WritesAndReleases(sc, w, Apply(w, i, t), i, fence, budget, x, rest)
  {
    AppliedLeaves(w, i, t);
  }

  lemma HoldingTurnMoves(sc: Scenario, w: World, i: nat, fence: nat, releaseAt: nat, willPause: bool, budget: nat)
    requires Inv(sc, w) && Picked(w, i) && w.states[i] == Holding(fence, releaseAt, willPause, budget)
    ensures HoldingMoves(sc, w, Apply(w, i, HoldingTurn(sc, Woken(w, i), w.rng, i, w.states[i])), i, fence, releaseAt, willPause, budget)
  {
    if !willPause {
      FinishingTurn(sc, Woken(w, i), w.rng, i, fence, releaseAt, budget);
      FinishMoves(sc, w, i, fence, budget, Scramble(w.rng), (Scramble(w.rng) as nat) % 4,
                  HoldingTurn(sc, Woken(w, i), w.rng, i, w.states[i]));
    }
  }

  lemma PausedTurnMoves(sc: Scenario, w: World, i: nat, fence: nat, budget: nat)
    requires Inv(sc, w) && Picked(w, i) && w.states[i] == Paused(fence, budget)
    ensures PausedMoves(sc, w, Apply(w, i, PausedTurn(Woken(w, i), w.rng, i, w.states[i])), i, fence, budget)
  {
  }

  lemma StepMoves(sc: Scenario, w: World)
    requires Inv(sc, w)
    ensures Moves(sc, w, Step(sc, w))
  {
    if Pick(w).Some? {
      var i := Pick(w).value;
      PickIsEarliest(sc, w);
      match w.states[i] {
        case Idle(n) => IdleTurnMoves(sc, w, i, n);
        case Holding(fence, releaseAt, willPause, budget) => HoldingTurnMoves(sc, w, i, fence, releaseAt, willPause, budget);
        case Paused(fence, budget) => PausedTurnMoves(sc, w, i, fence, budget);
      }
      assert IsDue(w, i) && WorkerMoves(sc, w, Step(sc, w), i);
    }
  }

  // Every iteration of every scenario is a move.
  lemma EveryIterationMoves(sc: Scenario, k: nat)
    ensures Moves(sc, Iterate(sc, k), Iterate(sc, k + 1))
  {
    AlwaysInv(sc, k);
    StepMoves(sc, Iterate(sc, k));
  }

  // What is recorded when an idle worker with steps left is due: a grant exactly when its
  // draw is below 70 and no live lease stands in the way, a denial when one does, nothing
  // from 70 on; and a granted worker is to pause exactly when the next draw says so.
  ghost predicate Decides(sc: Scenario, w: World, v: World, i: nat)
    requires i < |w.states| == |w.wake| == |v.states|
  {
    var x := Scramble(w.rng);
    var t, draw := w.wake[i], (x as nat) % 100;
    var barred := w.store.entry.Some? && t < w.store.entry.value.expires && !sc.brokenCas;
    && v.events == w.events + (if draw >= 70 then [] else if barred then [Event(t, i, Deny, 0)]
                               else [Event(t, i, Grant, w.store.counter + 1)])
    && (v.states[i].Holding? <==> draw < 70 && !barred)
    && (v.states[i].Holding? ==> (v.states[i].willPause <==> (Scramble(x) as nat) % 100 < sc.pausePct))
  }

  lemma IdleDecision(sc: Scenario, k: nat, i: nat)
    requires Pick(Iterate(sc, k)) == Some(i) && Iterate(sc, k).states[i].Idle? && Iterate(sc, k).states[i].stepsLeft > 0
    ensures Decides(sc, Iterate(sc, k), Iterate(sc, k + 1), i)
  {
    IdleIterationMoves(sc, k, Iterate(sc, k), Iterate(sc, k + 1), i);
    Decided(sc, Iterate(sc, k), Iterate(sc, k + 1), i);
  }

  lemma IdleIterationMoves(sc: Scenario, k: nat, w: World, v: World, i: nat)
    requires w == Iterate(sc, k) && v == Iterate(sc, k + 1)
    requires Pick(w) == Some(i) && w.states[i].Idle?
    ensures IdleMoves(sc, w, v, i, w.states[i].stepsLeft)
  {
    AlwaysInv(sc, k);
    PickIsEarliest(sc, w);
    IdleTurnMoves(sc, w, i, w.states[i].stepsLeft);
  }

  lemma Decided(sc: Scenario, w: World, v: World, i: nat)
    requires i < |w.states| == |w.wake| && w.states[i].Idle? && w.states[i].stepsLeft > 0 && |v.states| == |w.states|
    requires IdleMoves(sc, w, v, i, w.states[i].stepsLeft)
    ensures Decides(sc, w, v, i)
  {
  }

  // ----------------------------------------------------------------------
  // Whole runs
  // ----------------------------------------------------------------------

  // At time zero every worker is idle with all its steps ahead.
  ghost predicate Begins(sc: Scenario, w: World) {
    && w.store == StoreState(0, None, 0, 0, sc.brokenCas, sc.brokenFencing)
    && w.rng == sc.seed ^ 0x9E37_79B9_7F4A_7C15 && w.events == []
    && |w.states| == |w.wake| == sc.workers
    && forall i :: 0 <= i < sc.workers ==> w.states[i] == Idle(sc.steps) && w.wake[i] == 0
  }

  ghost predicate MovesAt(sc: Scenario, run: seq<World>, k: nat)
    requires k + 1 < |run|
  {
    |run[k].states| == |run[k].wake| && Moves(sc, run[k], run[k + 1])
  }

  // A run of the scenario, long enough for every worker to stop.
  ghost predicate IsRun(sc: Scenario, run: seq<World>) {
    && |run| == sc.workers * (3 * sc.steps + 1) + 1
    && Begins(sc, run[0])
    && forall k: nat :: k < |run| - 1 ==> MovesAt(sc, run, k)
  }

  // The record of a run.
  ghost predicate IsHistory(sc: Scenario, h: seq<Event>) {
    exists run: seq<World> :: IsRun(sc, run) && h == run[|run| - 1].events
  }

  lemma OneIsDue(w: World, i: nat, j: nat)
    requires |w.states| == |w.wake| && IsDue(w, i) && IsDue(w, j)
    ensures i == j
  {
  }

  lemma IdleMovesOneWay(sc: Scenario, w: World, u: World, v: World, i: nat, n: nat)
    requires |w.states| == |w.wake| && i < |w.states|
    requires IdleMoves(sc, w, u, i, n) && IdleMoves(sc, w, v, i, n)
    ensures u == v
  {
  }

  lemma WorkerMovesOneWay(sc: Scenario, w: World, u: World, v: World, i: nat)
    requires |w.states| == |w.wake| && i < |w.states|
    requires WorkerMoves(sc, w, u, i) && WorkerMoves(sc, w, v, i)
    ensures u == v
  {
    match w.states[i]
    case Idle(n) => IdleMovesOneWay(sc, w, u, v, i, n);
    case Holding(_, _, _, _) =>
    case Paused(_, _) =>
  }

  // A move is determined by the world it is made in.
  lemma MovesOneWay(sc: Scenario, w: World, u: World, v: World)
    requires |w.states| == |w.wake| && Moves(sc, w, u) && Moves(sc, w, v)
    ensures u == v
  {
    if !(forall i :: 0 <= i < |w.states| ==> w.states[i].Done?) {
      var i: nat :| IsDue(w, i) && WorkerMoves(sc, w, u, i);
      var j: nat :| IsDue(w, j) && WorkerMoves(sc, w, v, j);
      OneIsDue(w, i, j);
      WorkerMovesOneWay(sc, w, u, v, i);
    }
  }

  lemma BeginsOneWay(sc: Scenario, w: World)
    requires Begins(sc, w)
    ensures w == InitWorld(sc)
  {
    assert w.states == InitWorld(sc).states && w.wake == InitWorld(sc).wake;
  }

  lemma {:induction false} RunIsIterated(sc: Scenario, run: seq<World>, k: nat)
    requires IsRun(sc, run) && k < |run|
    ensures run[k] == Iterate(sc, k)
  {
    if k == 0 {
      BeginsOneWay(sc, run[0]);
    } else {
      var j: nat := k - 1;
      RunIsIterated(sc, run, j);
      assert MovesAt(sc, run, j);
      EveryIterationMoves(sc, j);
      MovesOneWay(sc, run[j], run[k], Iterate(sc, k));
    }
  }

  ghost predicate MovesFrom(sc: Scenario, f: nat -> World, k: nat) {
    |f(k).states| == |f(k).wake| && Moves(sc, f(k), f(k + 1))
  }

  // The first n worlds of an endless run, and the last of them.
  lemma RunFrom(sc: Scenario, f: nat -> World) returns (run: seq<World>)
    requires Begins(sc, f(0)) && forall k :: MovesFrom(sc, f, k)
    ensures IsRun(sc, run) && run[|run| - 1] == f(sc.workers * (3 * sc.steps + 1))
  {
    run := seq(sc.workers * (3 * sc.steps + 1) + 1, k requires 0 <= k => f(k));
    forall k: nat | k < |run| - 1 ensures MovesAt(sc, run, k) {
      assert MovesFrom(sc, f, k);
    }
  }

  lemma IteratesFrom(sc: Scenario)
    ensures Begins(sc, RunOf(sc)(0)) && forall k :: MovesFrom(sc, RunOf(sc), k)
  {
    forall k ensures MovesFrom(sc, RunOf(sc), k) {
      EveryIterationMoves(sc, k);
    }
  }

  lemma SimulateIsHistory(sc: Scenario)
    ensures IsHistory(sc, Simulate(sc))
  {
    IteratesFrom(sc);
    var run := RunFrom(sc, RunOf(sc));
    SortChangesNothing(sc);
  }

  lemma HistoryIsSimulated(sc: Scenario, run: seq<World>)
    requires IsRun(sc, run)
    ensures run[|run| - 1].events == Simulate(sc)
  {
    SortChangesNothing(sc);
    RunIsIterated(sc, run, |run| - 1);
  }

  // The simulated history is the record of the scenario's run, and there is no other.
  lemma HistoryIsUnique(sc: Scenario, h: seq<Event>)
    ensures IsHistory(sc, h) <==> h == Simulate(sc)
  {
    SimulateIsHistory(sc);
    if IsHistory(sc, h) {
      var run: seq<World> :| IsRun(sc, run) && h == run[|run| - 1].events;
      HistoryIsSimulated(sc, run);
    }
  }

  // ----------------------------------------------------------------------
  // The generator
  // ----------------------------------------------------------------------

  lemma KnownDraw()
    ensures Scramble(1) == 0x4082_2041
  {
  }

  // A generator stuck at zero draws zero for ever, and no other is ever stuck there.
  lemma OnlyZeroDrawsZero(x: bv64)
    ensures Scramble(x) == 0 <==> x == 0
  {
  }

  // One seed of all sticks the generator from the start.
  lemma OneSeedIsStuck(seed: bv64)
    ensures Seeded(seed) == 0 <==> seed == 0x9E37_79B9_7F4A_7C15
  {
  }
}
