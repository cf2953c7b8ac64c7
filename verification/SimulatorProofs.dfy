/** What every simulated run satisfies: termination and timing, accounting of
    grants, writes and releases, and the exactness of the checker's verdict. */
module SimulatorProofs {
  import opened Checker
  import opened Timeline
  import opened Simulator

  // ----------------------------------------------------------------------
  // Sums over the worker states
  // ----------------------------------------------------------------------

  function Total(f: State -> nat, states: seq<State>): nat {
    if states == [] then 0 else f(states[0]) + Total(f, states[1..])
  }

  lemma {:induction false} TotalUpdate(f: State -> nat, states: seq<State>, i: nat, st: State)
    requires i < |states|
    ensures Total(f, states[i := st]) + f(states[i]) == Total(f, states) + f(st)
  {
    if i > 0 {
      TotalUpdate(f, states[1..], i - 1, st);
      assert states[i := st][1..] == states[1..][i - 1 := st];
    } else {
      assert states[i := st][1..] == states[1..];
    }
  }

  lemma {:induction false} TotalUniform(f: State -> nat, st: State, n: nat)
    ensures Total(f, seq(n, _ => st)) == n * f(st)
  {
    if n > 0 {
      var states := seq(n, _ => st);
      TotalUniform(f, st, n - 1);
      assert states[1..] == seq(n - 1, _ => st);
    }
  }

  lemma {:induction false} TotalBoundsOne(f: State -> nat, states: seq<State>, i: nat)
    requires i < |states|
    ensures f(states[i]) <= Total(f, states)
  {
    if i > 0 {
      TotalBoundsOne(f, states[1..], i - 1);
    }
  }

  // Turns a worker can still take.
  function Work(st: State): nat {
    match st
    case Idle(n) => 3 * n + 1
    case Holding(_, _, _, b) => 3 * b + 3
    case Paused(_, b) => 3 * b + 2
    case Done => 0
  }

  // Events a worker can still emit.
  function Pending(st: State): nat {
    match st
    case Idle(n) => 3 * n
    case Holding(_, _, _, b) => 3 * b + 2
    case Paused(_, b) => 3 * b + 2
    case Done => 0
  }

  function Busy(st: State): nat {
    if Active(st) then 1 else 0
  }

  // ----------------------------------------------------------------------
  // Termination and timing
  // ----------------------------------------------------------------------

  ghost predicate Finished(w: World) {
    forall i :: 0 <= i < |w.states| ==> w.states[i].Done?
  }

  lemma ApplyDoesWork(sc: Scenario, w: World, i: nat, t: Turn)
    requires Ready(sc, w, i, t)
    ensures Total(Work, Apply(w, i, t).states) < Total(Work, w.states)
    ensures |Apply(w, i, t).events| + Total(Pending, Apply(w, i, t).states)
         <= |w.events| + Total(Pending, w.states)
  {
    TotalUpdate(Work, w.states, i, t.state);
    TotalUpdate(Pending, w.states, i, t.state);
  }

  lemma StepDoesWork(sc: Scenario, w: World)
    requires Inv(sc, w)
    ensures Pick(w).Some? ==> Total(Work, Step(sc, w).states) < Total(Work, w.states)
    ensures |Step(sc, w).events| + Total(Pending, Step(sc, w).states) <= |w.events| + Total(Pending, w.states)
  {
    if Pick(w).Some? {
      var i := Pick(w).value;
      PickIsEarliest(sc, w);
      TurnIsClassified(sc, w, i);
      ApplyDoesWork(sc, w, i, TakeTurn(sc, w, i));
    }
  }

  lemma InitialWork(sc: Scenario)
    ensures Total(Work, InitWorld(sc).states) == Bound(sc)
    ensures Total(Pending, InitWorld(sc).states) == 3 * sc.workers * sc.steps
  {
    TotalUniform(Work, Idle(sc.steps), sc.workers);
    TotalUniform(Pending, Idle(sc.steps), sc.workers);
    assert sc.workers * (3 * sc.steps) == 3 * sc.workers * sc.steps;
  }

  ghost predicate WorkLeft(w: World, k: nat, turns: nat, events: nat)
    requires |w.states| == |w.wake|
  {
    && (Pick(w).None? || Total(Work, w.states) + k <= turns)
    && |w.events| + Total(Pending, w.states) <= events
  }

  ghost predicate KeepsWorkLeft(a: World, b: World, k: nat, turns: nat, events: nat)
    requires |a.states| == |a.wake| && |b.states| == |b.wake|
  {
    WorkLeft(a, k, turns, events) ==> WorkLeft(b, k + 1, turns, events)
  }

  lemma StepKeepsWorkLeft(sc: Scenario, w: World, k: nat, turns: nat, events: nat)
    requires Inv(sc, w)
    ensures KeepsWorkLeft(w, Step(sc, w), k, turns, events)
  {
    StepDoesWork(sc, w);
  }

  function RunOf(sc: Scenario): nat -> World {
    (k: nat) => Iterate(sc, k)
  }

  // I, kept from each world of a run to the next.
  ghost predicate HoldsOn<W>(I: (nat, W) -> bool, run: nat -> W, j: nat) {
    I(j, run(j)) ==> I(j + 1, run(j + 1))
  }

  lemma {:induction false} HoldsAlong<W>(I: (nat, W) -> bool, run: nat -> W, k: nat)
    requires I(0, run(0)) && forall j :: HoldsOn(I, run, j)
    ensures I(k, run(k))
  {
    if k > 0 {
      HoldsAlong(I, run, k - 1);
      assert HoldsOn(I, run, k - 1);
    }
  }

  ghost function WorkLeftIn(turns: nat, events: nat): (nat, World) -> bool {
    (k: nat, w: World) => |w.states| == |w.wake| && WorkLeft(w, k, turns, events)
  }

  lemma IterationDoesWork(sc: Scenario, j: nat, turns: nat, events: nat)
    ensures KeepsWorkLeft(Iterate(sc, j), Iterate(sc, j + 1), j, turns, events)
  {
    AlwaysInv(sc, j);
    StepKeepsWorkLeft(sc, Iterate(sc, j), j, turns, events);
  }

  lemma WorkRunsOut(sc: Scenario, k: nat)
    ensures WorkLeftIn(Bound(sc), 3 * sc.workers * sc.steps)(k, Iterate(sc, k))
  {
    var turns, events := Bound(sc), 3 * sc.workers * sc.steps;
    InitialWork(sc);
    forall j ensures HoldsOn(WorkLeftIn(turns, events), RunOf(sc), j) {
      IterationDoesWork(sc, j, turns, events);
    }
    HoldsAlong(WorkLeftIn(turns, events), RunOf(sc), k);
  }

  // The loop ends within Bound(sc) iterations, and stays put from then on.
  lemma Terminates(sc: Scenario, k: nat)
    requires k >= Bound(sc)
    ensures Finished(Iterate(sc, k))
    ensures Iterate(sc, k) == Iterate(sc, Bound(sc))
    ensures |Iterate(sc, k).events| <= 3 * sc.workers * sc.steps
  {
    FinishedBy(sc, k);
    var b := Bound(sc);
    FinishedBy(sc, b);
    StaysPut(sc, b, k);
  }

  lemma FinishedBy(sc: Scenario, k: nat)
    requires k >= Bound(sc)
    ensures Finished(Iterate(sc, k)) && Pick(Iterate(sc, k)).None?
    ensures |Iterate(sc, k).events| <= 3 * sc.workers * sc.steps
  {
    WorkRunsOut(sc, k);
    var w := Iterate(sc, k);
    if Pick(w).Some? {
      TotalBoundsOne(Work, w.states, Pick(w).value);
      assert false;
    }
  }

  lemma FinishedIsFixed(sc: Scenario, b: nat, j: nat)
    requires Pick(Iterate(sc, b)).None?
    ensures Iterate(sc, j) == Iterate(sc, b) ==> Iterate(sc, j + 1) == Iterate(sc, b)
  {
  }

  lemma StaysPut(sc: Scenario, b: nat, k: nat)
    requires b <= k && Pick(Iterate(sc, b)).None?
    ensures Iterate(sc, k) == Iterate(sc, b)
  {
    forall j ensures StaysAt(RunOf(sc), b, j) {
      FinishedIsFixed(sc, b, j);
    }
    StaysAlong(RunOf(sc), b, k);
  }

  ghost predicate StaysAt<W>(run: nat -> W, b: nat, j: nat) {
    run(j) == run(b) ==> run(j + 1) == run(b)
  }

  lemma {:induction false} StaysAlong<W>(run: nat -> W, b: nat, k: nat)
    requires b <= k && forall j :: StaysAt(run, b, j)
    ensures run(k) == run(b)
  {
    if b < k {
      StaysAlong(run, b, k - 1);
      assert StaysAt(run, b, k - 1);
    }
  }

  // Time never passes an unfinished worker's wake time and always moves to the
  // wake time of the worker that runs; a holding worker never just re-sleeps.
  lemma TimeFollowsWakes(sc: Scenario, k: nat)
    ensures var w := Iterate(sc, k);
            && (forall i :: 0 <= i < |w.states| && !w.states[i].Done? ==> w.store.now <= w.wake[i])
            && (Pick(w).Some? ==>
                  var i := Pick(w).value;
                  && Iterate(sc, k + 1).store.now == w.wake[i]
                  && (w.states[i].Holding? ==> !Iterate(sc, k + 1).states[i].Holding?))
  {
    AlwaysInv(sc, k);
    var w := Iterate(sc, k);
    if Pick(w).Some? {
      var i := Pick(w).value;
      PickIsEarliest(sc, w);
      TurnIsClassified(sc, w, i);
      ApplyKeepsTiming(sc, w, i, TakeTurn(sc, w, i));
    }
  }

  // The events come out in time order, so the final stable sort is the identity.
  lemma SortChangesNothing(sc: Scenario)
    ensures Simulate(sc) == Iterate(sc, Bound(sc)).events
    ensures Sorted(Simulate(sc))
  {
    AlwaysInv(sc, Bound(sc));
    SortKeepsSorted(Iterate(sc, Bound(sc)).events);
  }

  // ----------------------------------------------------------------------
  // Accounting
  // ----------------------------------------------------------------------

  function Count(h: seq<Event>, kind: EventKind): nat {
    if h == [] then 0
    else Count(h[..|h| - 1], kind) + if h[|h| - 1].kind == kind then 1 else 0
  }

  function GrantFences(h: seq<Event>): seq<nat> {
    if h == [] then []
    else GrantFences(h[..|h| - 1]) + if h[|h| - 1].kind == Grant then [h[|h| - 1].fence] else []
  }

  lemma CountAppend(h: seq<Event>, e: Event)
    ensures forall kind :: Count(h + [e], kind) == Count(h, kind) + if e.kind == kind then 1 else 0
    ensures GrantFences(h + [e]) == GrantFences(h) + if e.kind == Grant then [e.fence] else []
  {
    assert (h + [e])[..|h|] == h;
  }

  function Writes(h: seq<Event>): nat {
    Count(h, WriteAccepted) + Count(h, WriteRejected)
  }

  function Releases(h: seq<Event>): nat {
    Count(h, ReleaseOk) + Count(h, ReleaseLost)
  }

  // 1, 2, ..., n
  ghost predicate Numbered(fences: seq<nat>, n: nat) {
    |fences| == n && forall k :: 0 <= k < n ==> fences[k] == k + 1
  }

  // The history against the fence counter and the number of workers now holding.
  ghost predicate Balances(h: seq<Event>, counter: nat, busy: nat, brokenFencing: bool) {
    && Numbered(GrantFences(h), counter)
    && Count(h, Grant) == counter == Writes(h) + busy
    && Writes(h) == Releases(h)
    && (!brokenFencing ==> Count(h, WriteAccepted) == Count(h, ReleaseOk))
  }

  ghost predicate Accounted(w: World) {
    Balances(w.events, w.store.counter, Total(Busy, w.states), w.store.brokenFencing)
  }

  lemma NumberedNext(fences: seq<nat>, n: nat)
    requires Numbered(fences, n)
    ensures Numbered(fences + [n + 1], n + 1)
  {
  }

  lemma GrantBalances(h: seq<Event>, e: Event, counter: nat, busy: nat, brokenFencing: bool)
    requires Balances(h, counter, busy, brokenFencing) && e.kind == Grant && e.fence == counter + 1
    ensures Balances(h + [e], counter + 1, busy + 1, brokenFencing)
  {
    CountAppend(h, e);
    NumberedNext(GrantFences(h), counter);
  }

  lemma DenyBalances(h: seq<Event>, e: Event, counter: nat, busy: nat, brokenFencing: bool)
    requires Balances(h, counter, busy, brokenFencing) && e.kind == Deny
    ensures Balances(h + [e], counter, busy, brokenFencing)
  {
    CountAppend(h, e);
  }

  lemma FinishBalances(h: seq<Event>, e0: Event, e1: Event, counter: nat, busy: nat, brokenFencing: bool)
    requires Balances(h, counter, busy + 1, brokenFencing)
    requires e0.kind == WriteAccepted || e0.kind == WriteRejected
    requires e1.kind == ReleaseOk || e1.kind == ReleaseLost
    requires !brokenFencing ==> (e0.kind == WriteAccepted <==> e1.kind == ReleaseOk)
    ensures Balances(h + [e0] + [e1], counter, busy, brokenFencing)
  {
    CountAppend(h, e0);
    CountAppend(h + [e0], e1);
  }

  // A holder still inside its lease has the newest fence, so its write passes.
  lemma LiveHolderWrites(sc: Scenario, w: World, i: nat)
    requires Inv(sc, w) && Picked(w, i) && Active(w.states[i])
    requires HoldsValidly(Woken(w, i), i, w.states[i].fence)
    ensures FencedWrite(Woken(w, i), i, w.states[i].fence).1
  {
  }

  // In every run and at every turn, a live holder's write is accepted.
  lemma LiveWriteIsAccepted(sc: Scenario, k: nat)
    ensures var w := Iterate(sc, k);
            Pick(w).Some? && Active(w.states[Pick(w).value]) ==>
              var i := Pick(w).value;
              HoldsValidly(Woken(w, i), i, w.states[i].fence) ==>
                FencedWrite(Woken(w, i), i, w.states[i].fence).1
  {
    AlwaysInv(sc, k);
    var w := Iterate(sc, k);
    if Pick(w).Some? {
      PickIsEarliest(sc, w);
      var i := Pick(w).value;
      if Active(w.states[i]) && HoldsValidly(Woken(w, i), i, w.states[i].fence) {
        LiveHolderWrites(sc, w, i);
      }
    }
  }

  // A worker back from a pause never releases anything: the source's
  // debug assertion holds in every run, under every flag.
  lemma PausedReleaseIsLost(sc: Scenario, k: nat)
    ensures var w := Iterate(sc, k);
            Pick(w).Some? && w.states[Pick(w).value].Paused? ==>
              var i := Pick(w).value;
              && !HoldsValidly(Woken(w, i), i, w.states[i].fence)
              && !ReleaseEntry(FencedWrite(Woken(w, i), i, w.states[i].fence).0, i, w.states[i].fence).1
  {
    AlwaysInv(sc, k);
    var w := Iterate(sc, k);
    if Pick(w).Some? {
      PickIsEarliest(sc, w);
    }
  }

  lemma ApplyKeepsAccounts(sc: Scenario, w: World, i: nat, t: Turn)
    requires Ready(sc, w, i, t) && Accounted(w)
    ensures Accounted(Apply(w, i, t))
  {
    TotalUpdate(Busy, w.states, i, t.state);
    var s, st := Woken(w, i), w.states[i];
    if IsFinish(s, i, st, t) {
      FinishKeepsAccounts(sc, w, i, t);
    } else if IsGrant(sc, s, i, st, t) {
      GrantKeepsAccounts(sc, w, i, t);
    } else {
      QuietKeepsAccounts(sc, w, i, t);
    }
  }

  lemma GrantKeepsAccounts(sc: Scenario, w: World, i: nat, t: Turn)
    requires Ready(sc, w, i, t) && Accounted(w)
    requires IsGrant(sc, Woken(w, i), i, w.states[i], t)
    requires Total(Busy, w.states[i := t.state]) == Total(Busy, w.states) + 1
    ensures Accounted(Apply(w, i, t))
  {
    GrantBalances(w.events, t.emitted[0], w.store.counter, Total(Busy, w.states), w.store.brokenFencing);
  }

  lemma QuietKeepsAccounts(sc: Scenario, w: World, i: nat, t: Turn)
    requires Ready(sc, w, i, t) && Accounted(w)
    requires IsQuiet(Woken(w, i), i, w.states[i], t) || IsFreeze(sc, Woken(w, i), w.states[i], t)
    requires Total(Busy, w.states[i := t.state]) == Total(Busy, w.states)
    ensures Accounted(Apply(w, i, t))
  {
    if t.emitted == [] {
      assert w.events + t.emitted == w.events;
    } else {
      DenyBalances(w.events, t.emitted[0], w.store.counter, Total(Busy, w.states), w.store.brokenFencing);
    }
  }

  lemma FinishKeepsAccounts(sc: Scenario, w: World, i: nat, t: Turn)
    requires Ready(sc, w, i, t) && Accounted(w)
    requires IsFinish(Woken(w, i), i, w.states[i], t)
    requires Total(Busy, w.states[i := t.state]) + 1 == Total(Busy, w.states)
    ensures Accounted(Apply(w, i, t))
  {
    var s, st := Woken(w, i), w.states[i];
    assert st.Paused? ==> !HoldsValidly(s, i, st.fence);
    if HoldsValidly(s, i, st.fence) {
      LiveHolderWrites(sc, w, i);
    }
    FinishBalances(w.events, t.emitted[0], t.emitted[1], w.store.counter, Total(Busy, w.states) - 1, w.store.brokenFencing);
    assert w.events + t.emitted == w.events + [t.emitted[0]] + [t.emitted[1]];
  }

  ghost predicate KeepsAccounts(a: World, b: World) {
    Accounted(a) ==> Accounted(b)
  }

  lemma StepKeepsAccounts(sc: Scenario, w: World)
    requires Inv(sc, w)
    ensures KeepsAccounts(w, Step(sc, w))
  {
    if Accounted(w) && Pick(w).Some? {
      var i := Pick(w).value;
      PickIsEarliest(sc, w);
      TurnIsClassified(sc, w, i);
      ApplyKeepsAccounts(sc, w, i, TakeTurn(sc, w, i));
    }
  }

  ghost function AccountedIn(): (nat, World) -> bool {
    (_: nat, w: World) => Accounted(w)
  }

  lemma StartsAccounted(sc: Scenario)
    ensures AccountedIn()(0, RunOf(sc)(0))
  {
    TotalUniform(Busy, Idle(sc.steps), sc.workers);
  }

  lemma IterationKeepsAccounts(sc: Scenario, j: nat)
    ensures KeepsAccounts(Iterate(sc, j), Iterate(sc, j + 1))
  {
    AlwaysInv(sc, j);
    StepKeepsAccounts(sc, Iterate(sc, j));
  }

  lemma AlwaysAccounted(sc: Scenario, k: nat)
    ensures AccountedIn()(k, Iterate(sc, k))
  {
    StartsAccounted(sc);
    forall j ensures HoldsOn(AccountedIn(), RunOf(sc), j) {
      IterationKeepsAccounts(sc, j);
    }
    HoldsAlong(AccountedIn(), RunOf(sc), k);
  }

  // The finished history: the k-th grant carries fence k, every grant was
  // followed by one write and one release, and unless the resource is broken
  // exactly the accepted writes belong to the successful releases.
  lemma HistoryBalances(sc: Scenario)
    ensures var h := Simulate(sc);
            && (forall k :: 0 <= k < |GrantFences(h)| ==> GrantFences(h)[k] == k + 1)
            && |GrantFences(h)| == Count(h, Grant) == Writes(h) == Releases(h)
            && (!sc.brokenFencing ==> Count(h, WriteAccepted) == Count(h, ReleaseOk))
  {
    SortChangesNothing(sc);
    AlwaysAccounted(sc, Bound(sc));
    AlwaysInv(sc, Bound(sc));
    Terminates(sc, Bound(sc));
    NobodyBusy(Iterate(sc, Bound(sc)).states);
  }

  lemma {:induction false} NobodyBusy(states: seq<State>)
    requires forall i :: 0 <= i < |states| ==> states[i].Done?
    ensures Total(Busy, states) == 0
  {
    if states != [] {
      NobodyBusy(states[1..]);
    }
  }

  // ----------------------------------------------------------------------
  // The checker's verdict is exact
  // ----------------------------------------------------------------------

  // A grant was made while the store still carried a live lease.
  ghost predicate GrantedOverLive(a: World, b: World) {
    b.store.counter > a.store.counter && a.store.entry.Some? && b.store.now < a.store.entry.value.expires
  }

  ghost predicate LeaseHeldBy(s: StoreState, now: nat, w: nat) {
    s.entry.Some? && s.entry.value.holder == w && now < s.entry.value.expires
  }

  // The resource accepted a write from a worker with no live lease.
  ghost predicate AcceptedStale(a: World, b: World) {
    exists n :: |a.events| <= n < |b.events| && b.events[n].kind == WriteAccepted
             && !LeaseHeldBy(a.store, b.store.now, b.events[n].worker)
  }

  ghost predicate Unsafe(a: World, b: World) {
    GrantedOverLive(a, b) || AcceptedStale(a, b)
  }

  ghost predicate UnsafeStep(sc: Scenario, k: nat) {
    Unsafe(Iterate(sc, k), Iterate(sc, k + 1))
  }

  function ActiveOf(s: StoreState): seq<Hold> {
    if EntryLive(s) then [Hold(s.entry.value.holder, s.entry.value.expires)] else []
  }

  // The checker, run so far, knows exactly the store's live lease.
  ghost predicate Knows(h: seq<Event>, ttl: nat, s: StoreState) {
    var r := CheckFold(h, ttl);
    && r.Ok?
    && Sees(h, ttl, s.now, ActiveOf(s), r.value.lastAccepted)
    && r.value.lastAccepted <= s.counter
    && (EntryLive(s) ==> r.value.lastAccepted < s.counter)
  }

  ghost predicate Coupled(w: World, ttl: nat) {
    Knows(w.events, ttl, w.store)
  }

  // What the checker knows at the time the picked worker wakes.
  lemma KnowsLater(h: seq<Event>, ttl: nat, s: StoreState, s1: StoreState)
    requires Knows(h, ttl, s) && s.now <= s1.now && s1 == s.(now := s1.now)
    ensures Knows(h, ttl, s1)
  {
    SeesLater(h, ttl, s.now, s1.now, ActiveOf(s), CheckFold(h, ttl).value.lastAccepted);
    if EntryLive(s) {
      RetainOne(ActiveOf(s)[0], s1.now);
    }
  }

  // An event that says what became of the lease.
  ghost predicate Tells(s: StoreState, e: Event, s1: StoreState, ttl: nat) {
    var after := AfterOne(ActiveOf(s), 0, e, ttl);
    && e.t == s.now == s1.now && e.kind != WriteAccepted
    && after.Some? && after.value.active == ActiveOf(s1)
    && s.counter <= s1.counter && (EntryLive(s1) && !EntryLive(s) ==> s.counter < s1.counter)
  }

  lemma EventIsKnown(h: seq<Event>, ttl: nat, s: StoreState, e: Event, s1: StoreState)
    requires Knows(h, ttl, s) && Tells(s, e, s1, ttl)
    ensures Knows(h + [e], ttl, s1)
  {
    SeesEvent(h, ttl, e, ActiveOf(s), CheckFold(h, ttl).value.lastAccepted);
  }

  // A write and release by the live holder.
  lemma FinishIsKnown(h: seq<Event>, ttl: nat, s: StoreState, e0: Event, e1: Event, s1: StoreState)
    requires Knows(h, ttl, s) && EntryLive(s) && !EntryLive(s1)
    requires e0.t == e1.t == s1.now == s.now && e0.worker == e1.worker == s.entry.value.holder
    requires e0.kind == WriteAccepted && e1.kind == ReleaseOk && e0.fence == s.counter == s1.counter
    ensures Knows(h + [e0] + [e1], ttl, s1)
  {
    SeesEvent(h, ttl, e0, ActiveOf(s), CheckFold(h, ttl).value.lastAccepted);
    SeesEvent(h + [e0], ttl, e1, ActiveOf(s), e0.fence);
  }

  lemma EventIsRejected(h: seq<Event>, ttl: nat, s: StoreState, e: Event)
    requires Knows(h, ttl, s) && e.t == s.now && e.fence > 0 && AfterOne(ActiveOf(s), 0, e, ttl).None?
    ensures CheckFold(h + [e], ttl).Err?
  {
    SeesEvent(h, ttl, e, ActiveOf(s), CheckFold(h, ttl).value.lastAccepted);
  }

  lemma QuietTurn(sc: Scenario, w: World, i: nat, t: Turn)
    requires Ready(sc, w, i, t)
    requires IsQuiet(Woken(w, i), i, w.states[i], t) || IsFreeze(sc, Woken(w, i), w.states[i], t)
    ensures !Unsafe(w, Apply(w, i, t)) && t.store == Woken(w, i)
    ensures t.emitted == [] || (|t.emitted| == 1 && Tells(t.store, t.emitted[0], t.store, sc.ttl))
  {
  }

  lemma GrantTurn(sc: Scenario, w: World, i: nat, t: Turn)
    requires Ready(sc, w, i, t) && IsGrant(sc, Woken(w, i), i, w.states[i], t)
    ensures |t.emitted| == 1 && t.emitted[0].t == t.store.now && t.emitted[0].fence > 0
    ensures if Unsafe(w, Apply(w, i, t)) then AfterOne(ActiveOf(Woken(w, i)), 0, t.emitted[0], sc.ttl).None?
            else Tells(Woken(w, i), t.emitted[0], t.store, sc.ttl)
  {
    var s, b := Woken(w, i), Apply(w, i, t);
    assert !AcceptedStale(w, b);
    assert GrantedOverLive(w, b) <==> EntryLive(s);
  }

  // A finishing turn's two events, from store s to s1.
  ghost predicate Finishes(s: StoreState, i: nat, es: seq<Event>, s1: StoreState, ttl: nat, unsafe: bool) {
    && |es| == 2
    && es[0].t == es[1].t == s1.now == s.now && es[0].worker == es[1].worker == i
    && if unsafe then es[0].fence > 0 && AfterOne(ActiveOf(s), 0, es[0], ttl).None?
       else if EntryLive(s) && s.entry.value.holder == i then
         es[0].kind == WriteAccepted && es[1].kind == ReleaseOk && es[0].fence == s.counter == s1.counter && !EntryLive(s1)
       else Tells(s, es[0], s, ttl) && Tells(s, es[1], s1, ttl)
  }

  // A finish is unsafe exactly when it writes without holding the lease.
  lemma FinishTurn(sc: Scenario, w: World, i: nat, t: Turn)
    requires Ready(sc, w, i, t) && IsFinish(Woken(w, i), i, w.states[i], t)
    ensures Finishes(Woken(w, i), i, t.emitted, t.store, sc.ttl, Unsafe(w, Apply(w, i, t)))
  {
    var s, st, b := Woken(w, i), w.states[i], Apply(w, i, t);
    assert EntryLive(s) && s.entry.value.holder == i <==> HoldsValidly(s, i, st.fence);
    assert LeaseHeldBy(w.store, s.now, i) <==> HoldsValidly(s, i, st.fence);
    assert !GrantedOverLive(w, b);
    if HoldsValidly(s, i, st.fence) {
      LiveHolderWrites(sc, w, i);
    } else if t.emitted[0].kind == WriteAccepted {
      assert b.events[|w.events|] == t.emitted[0];
      assert AcceptedStale(w, b);
    }
  }

  lemma TurnIsJudged(sc: Scenario, w: World, i: nat, t: Turn)
    requires Ready(sc, w, i, t) && Coupled(w, sc.ttl)
    ensures var b := Apply(w, i, t);
            if Unsafe(w, b) then CheckFold(b.events, sc.ttl).Err? else Coupled(b, sc.ttl)
  {
    var h, s, st := w.events, Woken(w, i), w.states[i];
    KnowsLater(h, sc.ttl, w.store, s);
    if IsFinish(s, i, st, t) {
      FinishTurn(sc, w, i, t);
      FinishIsJudged(h, sc.ttl, s, i, t.emitted, t.store, Unsafe(w, Apply(w, i, t)));
    } else if IsGrant(sc, s, i, st, t) {
      GrantTurn(sc, w, i, t);
      assert t.emitted == [t.emitted[0]];
      if Unsafe(w, Apply(w, i, t)) {
        EventIsRejected(h, sc.ttl, s, t.emitted[0]);
      } else {
        EventIsKnown(h, sc.ttl, s, t.emitted[0], t.store);
      }
    } else {
      QuietTurn(sc, w, i, t);
      if t.emitted == [] {
        assert h + t.emitted == h;
      } else {
        assert t.emitted == [t.emitted[0]];
        EventIsKnown(h, sc.ttl, s, t.emitted[0], t.store);
      }
    }
  }

  lemma FinishIsJudged(h: seq<Event>, ttl: nat, s: StoreState, i: nat, es: seq<Event>, s1: StoreState, unsafe: bool)
    requires Knows(h, ttl, s) && Finishes(s, i, es, s1, ttl, unsafe)
    ensures if unsafe then CheckFold(h + es, ttl).Err? else Knows(h + es, ttl, s1)
  {
    var e0, e1 := es[0], es[1];
    assert h + es == h + [e0] + [e1];
    if unsafe {
      EventIsRejected(h, ttl, s, e0);
      FoldAppend(h + [e0], e1, ttl);
    } else if EntryLive(s) && s.entry.value.holder == i {
      FinishIsKnown(h, ttl, s, e0, e1, s1);
    } else {
      EventIsKnown(h, ttl, s, e0, s);
      EventIsKnown(h + [e0], ttl, s, e1, s1);
    }
  }

  lemma StepIsJudged(sc: Scenario, w: World)
    requires Inv(sc, w) && Coupled(w, sc.ttl)
    ensures var b := Step(sc, w);
            if Unsafe(w, b) then CheckFold(b.events, sc.ttl).Err? else Coupled(b, sc.ttl)
  {
    if Pick(w).Some? {
      var i := Pick(w).value;
      PickIsEarliest(sc, w);
      TurnIsClassified(sc, w, i);
      TurnIsJudged(sc, w, i, TakeTurn(sc, w, i));
    }
  }

  ghost predicate UnsafeBefore(sc: Scenario, k: nat) {
    exists j :: 0 <= j < k && UnsafeStep(sc, j)
  }

  ghost predicate Judged(sc: Scenario, w: World, unsafe: bool) {
    if unsafe then CheckFold(w.events, sc.ttl).Err? else Coupled(w, sc.ttl)
  }

  lemma StepKeepsVerdict(sc: Scenario, w: World)
    requires CheckFold(w.events, sc.ttl).Err? && |w.states| == |w.wake|
    ensures CheckFold(Step(sc, w).events, sc.ttl).Err?
  {
    var h := Step(sc, w).events;
    assert h[..|w.events|] == w.events;
    FoldErrorSticks(h, |w.events|, sc.ttl);
  }

  ghost predicate KeepsVerdict(sc: Scenario, a: World, b: World) {
    forall unsafe :: Judged(sc, a, unsafe) ==> Judged(sc, b, unsafe || Unsafe(a, b))
  }

  lemma StepKeepsJudgement(sc: Scenario, w: World)
    requires Inv(sc, w)
    ensures KeepsVerdict(sc, w, Step(sc, w))
  {
    if Judged(sc, w, false) {
      StepIsJudged(sc, w);
    }
    if Judged(sc, w, true) {
      StepKeepsVerdict(sc, w);
    }
  }

  // A verdict J, kept along a run as long as it takes note of the bad steps.
  ghost predicate KeptAt<W>(J: (W, bool) -> bool, bad: (W, W) -> bool, run: nat -> W, j: nat) {
    forall u :: J(run(j), u) ==> J(run(j + 1), u || bad(run(j), run(j + 1)))
  }

  ghost predicate BadAt<W>(bad: (W, W) -> bool, run: nat -> W, j: nat) {
    bad(run(j), run(j + 1))
  }

  ghost predicate BadBefore<W>(bad: (W, W) -> bool, run: nat -> W, k: nat) {
    exists j :: 0 <= j < k && BadAt(bad, run, j)
  }

  lemma {:induction false} VerdictAlong<W>(J: (W, bool) -> bool, bad: (W, W) -> bool, run: nat -> W, k: nat)
    requires J(run(0), false) && forall j :: KeptAt(J, bad, run, j)
    ensures J(run(k), BadBefore(bad, run, k))
  {
    if k > 0 {
      VerdictAlong(J, bad, run, k - 1);
      assert KeptAt(J, bad, run, k - 1);
      assert BadBefore(bad, run, k) <==> BadBefore(bad, run, k - 1) || BadAt(bad, run, k - 1);
    }
  }

  lemma IterationKeepsVerdict(sc: Scenario, k: nat)
    ensures KeepsVerdict(sc, Iterate(sc, k), Iterate(sc, k + 1))
  {
    AlwaysInv(sc, k);
    StepKeepsJudgement(sc, Iterate(sc, k));
  }

  ghost function JudgedIn(sc: Scenario): (World, bool) -> bool {
    (w: World, unsafe: bool) => Judged(sc, w, unsafe)
  }

  ghost function UnsafeTurn(): (World, World) -> bool {
    (a: World, b: World) => Unsafe(a, b)
  }

  lemma RunKeepsVerdict(sc: Scenario)
    ensures forall j :: KeptAt(JudgedIn(sc), UnsafeTurn(), RunOf(sc), j)
  {
    forall j ensures KeptAt(JudgedIn(sc), UnsafeTurn(), RunOf(sc), j) {
      IterationKeepsVerdict(sc, j);
    }
  }

  lemma RunIsUnsafe(sc: Scenario, k: nat)
    ensures BadBefore(UnsafeTurn(), RunOf(sc), k) <==> UnsafeBefore(sc, k)
  {
    forall j: nat ensures BadAt(UnsafeTurn(), RunOf(sc), j) <==> UnsafeStep(sc, j) {
    }
  }

  lemma RunStartsSafe(sc: Scenario)
    ensures JudgedIn(sc)(RunOf(sc)(0), false)
  {
  }

  // After k iterations the checker has failed if some of them was unsafe, and
  // otherwise knows exactly the store's live lease.
  lemma VerdictSoFar(sc: Scenario, k: nat)
    ensures JudgedIn(sc)(Iterate(sc, k), UnsafeBefore(sc, k))
  {
    RunStartsSafe(sc);
    RunKeepsVerdict(sc);
    RunIsUnsafe(sc, k);
    VerdictAlong(JudgedIn(sc), UnsafeTurn(), RunOf(sc), k);
  }

  // The checker rejects a simulated history exactly when the run granted over a
  // live lease or accepted a write from a worker holding none.
  lemma VerdictIsExact(sc: Scenario)
    ensures !Legal(Simulate(sc), sc.ttl) <==> exists k :: 0 <= k < Bound(sc) && UnsafeStep(sc, k)
  {
    SortChangesNothing(sc);
    FoldExact(Simulate(sc), sc.ttl);
    VerdictSoFar(sc, Bound(sc));
  }

  lemma CleanStepIsSafe(sc: Scenario, k: nat)
    requires !sc.brokenCas && !sc.brokenFencing
    ensures !UnsafeStep(sc, k)
  {
    AlwaysInv(sc, k);
    var w := Iterate(sc, k);
    if Pick(w).Some? {
      var i := Pick(w).value;
      PickIsEarliest(sc, w);
      TurnIsClassified(sc, w, i);
    }
  }

  // With the correct algorithms every seed, contention level, TTL and pause
  // percentage gives a history the checker accepts.
  lemma CleanRunsPass(sc: Scenario)
    requires !sc.brokenCas && !sc.brokenFencing
    ensures Legal(Simulate(sc), sc.ttl)
  {
    forall k: nat ensures !UnsafeStep(sc, k) {
      CleanStepIsSafe(sc, k);
    }
    VerdictIsExact(sc);
  }
}
