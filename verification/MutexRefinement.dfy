/** The Lua mutex against the simulator's store: the two step together, and the
    mutex's own history passes the checker. */
module MutexRefinement {
  import opened Common
  import Checker
  import Mutex
  import Simulator

  datatype Op = Acquire(token: Token) | Release(token: Token) | Tick(d: nat)

  // Both stores run side by side, with the fences handed out, the tokens
  // already used and the history stamped at store time.
  datatype Pair = Pair(
    lua: Mutex.Store, sim: Simulator.StoreState,
    fenceOf: map<Token, nat>, used: set<Token>,
    history: seq<Checker.Event>, lapsed: bool)

  const Start: Pair := Pair(
    Mutex.Store(0, None, None), Simulator.StoreState(0, None, 0, 0, false, false), map[], {}, [], false)

  // Tokens are fresh per acquisition; only a granted token has a handle to release.
  predicate Enabled(p: Pair, op: Op) {
    match op
    case Acquire(t) => t !in p.used
    case Release(t) => t in p.fenceOf
    case Tick(_) => true
  }

  // The answers of the two stores to one operation.
  function LuaAnswer(p: Pair, op: Op, ttl: nat): (nat, nat) {
    match op
    case Acquire(t) =>
      var (_, status, fence) := Mutex.AcquireStep(p.lua, t, ttl, ttl * Mutex.FENCE_TTL_MULTIPLIER);
      (status, fence)
    case Release(t) => (Mutex.ReleaseStep(p.lua, t).1, 0)
    case Tick(_) => (0, 0)
  }

  function SimAnswer(p: Pair, op: Op, ttl: nat): (nat, nat) {
    match op
    case Acquire(t) =>
      var granted := Simulator.CasGrant(p.sim, t, ttl).1;
      if granted.Some? then (1, granted.value) else (0, 0)
    case Release(t) =>
      (if t in p.fenceOf && Simulator.ReleaseEntry(p.sim, t, p.fenceOf[t]).1 then 1 else 0, 0)
    case Tick(_) => (0, 0)
  }

  function Step(p: Pair, op: Op, ttl: nat): Pair {
    if !Enabled(p, op) then p else
    match op
    case Acquire(t) =>
      var (lua, status, fence) := Mutex.AcquireStep(p.lua, t, ttl, ttl * Mutex.FENCE_TTL_MULTIPLIER);
      var sim := Simulator.CasGrant(p.sim, t, ttl).0;
      if status == 0 then
        Pair(lua, sim, p.fenceOf, p.used + {t},
             p.history + [Checker.Event(p.lua.now, 0, Checker.Deny, 0)], p.lapsed)
      else
        Pair(lua, sim, p.fenceOf[t := fence], p.used + {t},
             p.history + [Checker.Event(p.lua.now, fence, Checker.Grant, fence)],
             p.lapsed || (p.fenceOf != map[] && !Mutex.CounterLive(p.lua)))
    case Release(t) =>
      var (lua, ok) := Mutex.ReleaseStep(p.lua, t);
      var f := p.fenceOf[t];
      p.(lua := lua, sim := Simulator.ReleaseEntry(p.sim, t, f).0,
         history := p.history +
           [Checker.Event(p.lua.now, f, if ok == 1 then Checker.ReleaseOk else Checker.ReleaseLost, f)])
    case Tick(d) =>
      p.(lua := p.lua.(now := p.lua.now + d), sim := p.sim.(now := p.sim.now + d))
  }

  function Exec(ops: seq<Op>, ttl: nat): Pair {
    if ops == [] then Start else Step(Exec(ops[..|ops| - 1], ttl), ops[|ops| - 1], ttl)
  }

  // The refinement relation: same clock, same fences, same live holder.
  ghost predicate Related(p: Pair) {
    && p.lua.now == p.sim.now && !p.sim.brokenCas && !p.sim.brokenFencing
    && p.fenceOf.Keys <= p.used
    && (p.fenceOf == map[] ==> p.sim.counter == 0 && p.lua.counter.None?)
    && (p.lua.counter.Some? ==> p.lua.counter.value.value == p.sim.counter)
    && (p.fenceOf != map[] ==> p.lua.counter.Some?)
    && (forall t :: t in p.fenceOf ==> 1 <= p.fenceOf[t] <= p.sim.counter)
    && (forall t, u :: t in p.fenceOf && u in p.fenceOf && p.fenceOf[t] == p.fenceOf[u] ==> t == u)
    && (Live(p.lua.lock, p.lua.now) <==> Simulator.EntryLive(p.sim))
    && (Live(p.lua.lock, p.lua.now) ==>
          var l := p.lua.lock.value;
          l.token in p.fenceOf
          && p.sim.entry.value == Simulator.Entry(l.token, l.expiry, p.fenceOf[l.token]))
  }

  function ActiveOf(p: Pair): seq<Checker.Hold> {
    if Live(p.lua.lock, p.lua.now) && p.lua.lock.value.token in p.fenceOf
    then [Checker.Hold(p.fenceOf[p.lua.lock.value.token], p.lua.lock.value.expiry)]
    else []
  }

  ghost predicate Accepted(p: Pair, ttl: nat) {
    var r := Checker.CheckFold(p.history, ttl);
    r.Ok? && Checker.Sees(p.history, ttl, p.lua.now, ActiveOf(p), r.value.lastAccepted)
  }

  // One step of the Lua mutex is one step of the simulator's store with the
  // same answer, as long as no grant finds the counter gone.
  lemma StepRefines(p: Pair, op: Op, ttl: nat)
    requires Related(p)
    requires !Step(p, op, ttl).lapsed
    ensures Enabled(p, op) ==> LuaAnswer(p, op, ttl) == SimAnswer(p, op, ttl)
    ensures Related(Step(p, op, ttl))
  {
    if Enabled(p, op) {
      match op
      case Acquire(t) => AcquireRefines(p, t, ttl);
      case Release(t) => ReleaseRefines(p, t, ttl);
      case Tick(_) =>
    }
  }

  lemma AcquireRefines(p: Pair, t: Token, ttl: nat)
    requires Related(p) && Enabled(p, Acquire(t)) && !Step(p, Acquire(t), ttl).lapsed
    ensures LuaAnswer(p, Acquire(t), ttl) == SimAnswer(p, Acquire(t), ttl)
    ensures Related(Step(p, Acquire(t), ttl))
  {
  }

  lemma ReleaseRefines(p: Pair, t: Token, ttl: nat)
    requires Related(p) && Enabled(p, Release(t))
    ensures LuaAnswer(p, Release(t), ttl) == SimAnswer(p, Release(t), ttl)
    ensures Related(Step(p, Release(t), ttl))
  {
  }

  // What the checker makes of the next event is what becomes of the lock.
  ghost predicate Follows(p: Pair, q: Pair, e: Checker.Event, ttl: nat) {
    var after := Checker.AfterOne(ActiveOf(p), 0, e, ttl);
    && q.history == p.history + [e] && q.lua.now == p.lua.now == e.t
    && e.kind != Checker.WriteAccepted && after.Some? && after.value.active == ActiveOf(q)
  }

  lemma EventPasses(p: Pair, q: Pair, e: Checker.Event, ttl: nat)
    requires Accepted(p, ttl) && Follows(p, q, e, ttl)
    ensures Accepted(q, ttl)
  {
    Checker.SeesEvent(p.history, ttl, e, ActiveOf(p), Checker.CheckFold(p.history, ttl).value.lastAccepted);
  }

  lemma AcquireFollows(p: Pair, t: Token, ttl: nat) returns (e: Checker.Event)
    requires Related(p) && t !in p.used
    requires !Step(p, Acquire(t), ttl).lapsed
    ensures Follows(p, Step(p, Acquire(t), ttl), e, ttl)
  {
    e := Step(p, Acquire(t), ttl).history[|p.history|];
  }

  lemma ReleaseFollows(p: Pair, t: Token, ttl: nat) returns (e: Checker.Event)
    requires Related(p) && t in p.fenceOf
    ensures Follows(p, Step(p, Release(t), ttl), e, ttl)
  {
    e := Step(p, Release(t), ttl).history[|p.history|];
  }

  lemma TickPasses(p: Pair, d: nat, ttl: nat)
    requires Accepted(p, ttl)
    ensures Accepted(Step(p, Tick(d), ttl), ttl)
  {
    Checker.SeesLater(p.history, ttl, p.lua.now, p.lua.now + d, ActiveOf(p), Checker.CheckFold(p.history, ttl).value.lastAccepted);
    if ActiveOf(p) != [] {
      Checker.RetainOne(ActiveOf(p)[0], p.lua.now + d);
    }
  }

  lemma StepPasses(p: Pair, op: Op, ttl: nat)
    requires Related(p) && Accepted(p, ttl)
    requires !Step(p, op, ttl).lapsed
    ensures Accepted(Step(p, op, ttl), ttl)
  {
    if Enabled(p, op) {
      match op
      case Acquire(t) =>
        var e := AcquireFollows(p, t, ttl);
        EventPasses(p, Step(p, op, ttl), e, ttl);
      case Release(t) =>
        var e := ReleaseFollows(p, t, ttl);
        EventPasses(p, Step(p, op, ttl), e, ttl);
      case Tick(d) => TickPasses(p, d, ttl);
    }
  }

  // Every run of acquires with fresh tokens, releases and clock ticks in which
  // the counter never lapses is matched by the simulator's store, and the
  // history it leaves satisfies the checker's specification.
  lemma {:induction false} MutexRefinesSimStore(ops: seq<Op>, ttl: nat)
    requires !Exec(ops, ttl).lapsed
    ensures Related(Exec(ops, ttl)) && Accepted(Exec(ops, ttl), ttl)
    ensures Checker.Legal(Exec(ops, ttl).history, ttl)
  {
    if ops != [] {
      var p, op := Exec(ops[..|ops| - 1], ttl), ops[|ops| - 1];
      MutexRefinesSimStore(ops[..|ops| - 1], ttl);
      StepRefines(p, op, ttl);
      StepPasses(p, op, ttl);
    }
    Checker.FoldExact(Exec(ops, ttl).history, ttl);
  }

  // The answers agree at every step of such a run.
  lemma AnswersAgree(ops: seq<Op>, ttl: nat, op: Op)
    requires !Exec(ops + [op], ttl).lapsed && Enabled(Exec(ops, ttl), op)
    ensures LuaAnswer(Exec(ops, ttl), op, ttl) == SimAnswer(Exec(ops, ttl), op, ttl)
  {
    assert (ops + [op])[..|ops|] == ops;
    MutexRefinesSimStore(ops, ttl);
    StepRefines(Exec(ops, ttl), op, ttl);
  }
}
