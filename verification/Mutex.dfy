/** The single-instance mutex: acquire, extend and release as atomic scripts
    over a lock key and its fence counter. */
module Mutex {
  import opened Common

  const MIN_TTL: nat := 10
  const FENCE_TTL_MULTIPLIER: nat := 10

  datatype Counter = Counter(value: nat, expiry: nat)

  datatype Store = Store(now: nat, lock: Option<Lease>, counter: Option<Counter>)

  predicate CounterLive(s: Store) {
    s.counter.Some? && s.now < s.counter.value.expiry
  }

  // INCR followed by PEXPIRE: a lapsed counter starts again from zero.
  function Bumped(s: Store, fenceTtl: nat): Counter {
    Counter((if CounterLive(s) then s.counter.value.value else 0) + 1, s.now + fenceTtl)
  }

  function AcquireStep(s: Store, t: Token, ttl: nat, fenceTtl: nat): (Store, nat, nat) {
    if AcquireGrants(s.lock, s.now, t) then
      var c := Bumped(s, fenceTtl);
      (s.(lock := LockAfterAcquire(s.lock, s.now, t, ttl), counter := Some(c)),
       if Live(s.lock, s.now) then 2 else 1,
       c.value)
    else (s, 0, 0)
  }

  function ExtendStep(s: Store, t: Token, ttl: nat, fenceTtl: nat): (Store, nat) {
    if Owns(s.lock, s.now, t) then
      (s.(lock := LockAfterExtend(s.lock, s.now, t, ttl),
          counter := if CounterLive(s) then Some(Counter(s.counter.value.value, s.now + fenceTtl)) else s.counter),
       1)
    else (s, 0)
  }

  function ReleaseStep(s: Store, t: Token): (Store, nat) {
    (s.(lock := LockAfterRelease(s.lock, s.now, t)), if Owns(s.lock, s.now, t) then 1 else 0)
  }

  // What an extend leaves: the owner's lease and a live counter moved, all else as
  // it was.
  ghost predicate Extended(s: Store, v: Store, t: Token, ttl: nat, fenceTtl: nat) {
    && v.now == s.now
    && v.lock == (if Owns(s.lock, s.now, t) then Some(Lease(t, s.now + ttl)) else s.lock)
    && v.counter == if Owns(s.lock, s.now, t) && s.counter.Some? && s.now < s.counter.value.expiry
                    then Some(Counter(s.counter.value.value, s.now + fenceTtl)) else s.counter
  }

  datatype Error = InvalidConfig | Held | Backend

  // What becomes of one call to the store.
  datatype Delivery = Answered | Failed(executed: bool)

  datatype Handle = Handle(token: Token, fence: nat)

  // One lock key with its counter, as the scripts see it.
  class LockStore {
    var now: nat
    var lock: Option<Lease>
    var counter: Option<Counter>

    constructor ()
      ensures View() == Store(0, None, None)
    {
      now, lock, counter := 0, None, None;
    }

    function View(): Store
      reads this
    {
      Store(now, lock, counter)
    }

    method IncrAndExpire(fenceTtl: nat) returns (fence: nat)
      modifies this`counter
      ensures counter == Some(Bumped(old(View()), fenceTtl)) && fence == counter.value.value
    {
      if counter.None? || counter.value.expiry <= now {
        fence := 1;
      } else {
        fence := counter.value.value + 1;
      }
      counter := Some(Counter(fence, now + fenceTtl));
    }

    // acquire.lua
    method Acquire(t: Token, ttl: nat, fenceTtl: nat) returns (status: nat, fence: nat)
      modifies this
      ensures (View(), status, fence) == AcquireStep(old(View()), t, ttl, fenceTtl)
      ensures now == old(now)
      ensures var held := old(lock).Some? && now < old(lock).value.expiry;
              if held && old(lock).value.token != t then
                status == 0 && fence == 0 && lock == old(lock) && counter == old(counter)
              else
                && status == (if held then 2 else 1)
                && lock == Some(Lease(t, now + ttl)) && counter == Some(Counter(fence, now + fenceTtl))
                && fence == 1 + if old(counter).Some? && now < old(counter).value.expiry then old(counter).value.value else 0
    {
      if lock.None? || lock.value.expiry <= now {
        lock := Some(Lease(t, now + ttl));
        fence := IncrAndExpire(fenceTtl);
        return 1, fence;
      }
      if lock.value.token == t {
        lock := Some(Lease(t, now + ttl));
        fence := IncrAndExpire(fenceTtl);
        return 2, fence;
      }
      return 0, 0;
    }

    // extend.lua
    method Extend(t: Token, ttl: nat, fenceTtl: nat) returns (ok: nat)
      modifies this
      ensures (View(), ok) == ExtendStep(old(View()), t, ttl, fenceTtl)
      ensures ok == if Owns(old(lock), old(now), t) then 1 else 0
      ensures Extended(old(View()), View(), t, ttl, fenceTtl)
    {
      if Owns(lock, now, t) {
        lock := Some(Lease(t, now + ttl));
        if counter.Some? && now < counter.value.expiry {
          counter := Some(Counter(counter.value.value, now + fenceTtl));
        }
        return 1;
      }
      ok := 0;
    }

    // release.lua
    method Release(t: Token) returns (ok: nat)
      modifies this
      ensures (View(), ok) == ReleaseStep(old(View()), t)
      ensures ok == if Owns(old(lock), old(now), t) then 1 else 0
      ensures View() == if ok == 1 then Store(old(now), None, old(counter)) else old(View())
    {
      if Owns(lock, now, t) {
        lock := None;
        return 1;
      }
      ok := 0;
    }

    // try_lock_with: the token is the caller's fresh owner id.
    method TryLockWith(t: Token, ttl: nat, d: Delivery) returns (r: Result<Handle, Error>)
      modifies this
      ensures var s := old(View());
              var step := AcquireStep(s, t, ttl, ttl * FENCE_TTL_MULTIPLIER);
              if ttl < MIN_TTL then r == Err(InvalidConfig) && View() == s
              else if d == Failed(false) then r == Err(Backend) && View() == s
              else
                && View() == step.0
                && r == if d.Failed? then Err(Backend) else if step.1 == 0 then Err(Held) else Ok(Handle(t, step.2))
      ensures r == Err(InvalidConfig) <==> ttl < 10
      ensures ttl >= 10 ==> (r == Err(Backend) <==> d.Failed?)
      ensures ttl >= 10 && d.Answered? ==>
                (r == Err(Held) <==> old(lock).Some? && old(now) < old(lock).value.expiry && old(lock).value.token != t)
      ensures r == Err(Held) ==> View() == old(View())
      ensures r.Ok? ==>
                && r.value.token == t && now == old(now) && lock == Some(Lease(t, now + ttl))
                && counter == Some(Counter(r.value.fence, now + 10 * ttl))
                && r.value.fence == 1 + if old(counter).Some? && now < old(counter).value.expiry then old(counter).value.value else 0
    {
      if ttl < MIN_TTL {
        return Err(InvalidConfig);
      }
      if d == Failed(false) {
        return Err(Backend);
      }
      var status, fence := Acquire(t, ttl, ttl * FENCE_TTL_MULTIPLIER);
      if d.Failed? {
        return Err(Backend);
      }
      r := if status == 1 || status == 2 then Ok(Handle(t, fence)) else Err(Held);
    }

    // extend_with_token and fire_extend
    method ExtendWithToken(t: Token, ttl: nat, d: Delivery) returns (r: Result<bool, Error>)
      modifies this
      ensures var s := old(View());
              var step := ExtendStep(s, t, ttl, ttl * FENCE_TTL_MULTIPLIER);
              if ttl < MIN_TTL then r == Err(InvalidConfig) && View() == s
              else if d == Failed(false) then r == Err(Backend) && View() == s
              else View() == step.0 && r == if d.Failed? then Err(Backend) else Ok(step.1 == 1)
      ensures r == Err(InvalidConfig) <==> ttl < 10
      ensures ttl >= 10 && d.Answered? ==>
                r == Ok(Owns(old(lock), old(now), t)) && Extended(old(View()), View(), t, ttl, 10 * ttl)
      ensures r.Ok? && !r.value ==> View() == old(View())
    {
      if ttl < MIN_TTL {
        return Err(InvalidConfig);
      }
      if d == Failed(false) {
        return Err(Backend);
      }
      var ok := Extend(t, ttl, ttl * FENCE_TTL_MULTIPLIER);
      r := if d.Failed? then Err(Backend) else Ok(ok == 1);
    }

    // unlock_with_token
    method UnlockWithToken(t: Token, d: Delivery) returns (r: Result<bool, Error>)
      modifies this
      ensures var step := ReleaseStep(old(View()), t);
              if d == Failed(false) then r == Err(Backend) && View() == old(View())
              else View() == step.0 && r == if d.Failed? then Err(Backend) else Ok(step.1 == 1)
      ensures d.Answered? ==>
                && r == Ok(Owns(old(lock), old(now), t))
                && View() == if r.value then Store(old(now), None, old(counter)) else old(View())
    {
      if d == Failed(false) {
        return Err(Backend);
      }
      var ok := Release(t);
      r := if d.Failed? then Err(Backend) else Ok(ok == 1);
    }
  }

  // ----------------------------------------------------------------------
  // Runs
  // ----------------------------------------------------------------------

  datatype Op =
    | DoAcquire(token: Token, ttl: nat)
    | DoExtend(token: Token, ttl: nat)
    | DoRelease(token: Token)
    | Tick(d: nat)

  datatype Grant = Grant(token: Token, fence: nat)

  // The store, every grant made so far, and whether some grant after the first
  // found the counter gone.
  datatype Run = Run(store: Store, grants: seq<Grant>, lapsed: bool)

  const Fresh: Run := Run(Store(0, None, None), [], false)

  function Step(r: Run, op: Op): Run {
    match op
    case DoAcquire(t, ttl) =>
      var (s, status, fence) := AcquireStep(r.store, t, ttl, ttl * FENCE_TTL_MULTIPLIER);
      if status == 0 then r
      else Run(s, r.grants + [Grant(t, fence)], r.lapsed || (r.grants != [] && !CounterLive(r.store)))
    case DoExtend(t, ttl) => r.(store := ExtendStep(r.store, t, ttl, ttl * FENCE_TTL_MULTIPLIER).0)
    case DoRelease(t) => r.(store := ReleaseStep(r.store, t).0)
    case Tick(d) => r.(store := r.store.(now := r.store.now + d))
  }

  function Exec(ops: seq<Op>): Run {
    if ops == [] then Fresh else Step(Exec(ops[..|ops| - 1]), ops[|ops| - 1])
  }

  function Last(grants: seq<Grant>): Grant
    requires grants != []
  {
    grants[|grants| - 1]
  }

  // A live lock belongs to the latest grant and is outlived by its counter.
  ghost predicate CounterOutlives(r: Run) {
    Live(r.store.lock, r.store.now) ==>
      && CounterLive(r.store)
      && r.store.counter.value.expiry >= r.store.lock.value.expiry
      && r.grants != []
      && Last(r.grants).token == r.store.lock.value.token
      && r.store.counter.value.value >= Last(r.grants).fence
  }

  ghost predicate Increasing(grants: seq<Grant>) {
    forall i, j :: 0 <= i < j < |grants| ==> grants[i].fence < grants[j].fence
  }

  ghost predicate Inv(r: Run) {
    && CounterOutlives(r)
    && (forall i :: 0 <= i < |r.grants| ==> r.grants[i].fence >= 1)
    && (CounterLive(r.store) ==> r.grants != [] && r.store.counter.value.value == Last(r.grants).fence)
    && (!r.lapsed <==> Increasing(r.grants))
  }

  lemma GrantKeepsOrder(r: Run, g: Grant)
    requires Inv(r) && g.fence == Bumped(r.store, 0).value
    ensures Increasing(r.grants + [g]) <==>
            Increasing(r.grants) && (r.grants == [] || CounterLive(r.store))
  {
    var gs := r.grants + [g];
    if Increasing(gs) {
      forall i, j | 0 <= i < j < |r.grants| ensures r.grants[i].fence < r.grants[j].fence {
        assert gs[i].fence < gs[j].fence;
      }
      if r.grants != [] {
        assert gs[|r.grants| - 1].fence < gs[|r.grants|].fence;
      }
    }
  }

  lemma StepKeepsInv(r: Run, op: Op)
    requires Inv(r)
    ensures Inv(Step(r, op))
  {
    if op.DoAcquire? && AcquireGrants(r.store.lock, r.store.now, op.token) {
      GrantKeepsOrder(r, Grant(op.token, Bumped(r.store, 0).value));
    }
  }

  // In every reachable state a live lock implies a live counter that expires no
  // earlier and has reached the holder's fence.
  lemma {:induction false} CounterOutlivesLock(ops: seq<Op>)
    ensures CounterOutlives(Exec(ops))
    ensures Inv(Exec(ops))
  {
    if ops != [] {
      CounterOutlivesLock(ops[..|ops| - 1]);
      StepKeepsInv(Exec(ops[..|ops| - 1]), ops[|ops| - 1]);
    }
  }

  // Fences strictly increase exactly in the runs where no later grant found the
  // counter gone; there a stale holder never supersedes a successor.
  lemma FencesIncreaseIffNoLapse(ops: seq<Op>)
    ensures Increasing(Exec(ops).grants) <==> !Exec(ops).lapsed
    ensures !Exec(ops).lapsed ==>
              forall i, j :: 0 <= i < j < |Exec(ops).grants| ==>
                !(Exec(ops).grants[i].fence > Exec(ops).grants[j].fence)
  {
    CounterOutlivesLock(ops);
  }

  // The last successful acquire or extend: when, and with which TTL.
  datatype Refresh = Refresh(at: nat, ttl: nat)

  function LastRefresh(ops: seq<Op>): Option<Refresh> {
    if ops == [] then None
    else
      var past, op := ops[..|ops| - 1], ops[|ops| - 1];
      if Refreshes(Exec(past).store, op) then Some(Refresh(Exec(past).store.now, op.ttl)) else LastRefresh(past)
  }

  predicate Refreshes(s: Store, op: Op) {
    match op
    case DoAcquire(t, _) => AcquireGrants(s.lock, s.now, t)
    case DoExtend(t, _) => Owns(s.lock, s.now, t)
    case _ => false
  }

  // The counter lives exactly ten TTLs from the last refresh, the lock at most one.
  ghost predicate RefreshInv(r: Run, last: Option<Refresh>) {
    && (last.None? <==> r.grants == [])
    && (last.Some? ==>
          var from := last.value;
          && from.at <= r.store.now
          && r.store.counter.Some? && r.store.counter.value.expiry == from.at + from.ttl * FENCE_TTL_MULTIPLIER
          && (r.store.lock.Some? ==> r.store.lock.value.expiry == from.at + from.ttl))
    && (last.None? ==> r.store.lock.None?)
  }

  lemma StepKeepsRefresh(r: Run, last: Option<Refresh>, op: Op)
    requires RefreshInv(r, last) && CounterOutlives(r)
    ensures RefreshInv(Step(r, op), if Refreshes(r.store, op) then Some(Refresh(r.store.now, op.ttl)) else last)
  {
  }

  lemma {:induction false} RefreshIsKnown(ops: seq<Op>)
    ensures RefreshInv(Exec(ops), LastRefresh(ops))
  {
    if ops != [] {
      var past := ops[..|ops| - 1];
      RefreshIsKnown(past);
      CounterOutlivesLock(past);
      StepKeepsRefresh(Exec(past), LastRefresh(past), ops[|ops| - 1]);
    }
  }

  // At least ten times the TTL has passed since the last refresh.
  predicate Overdue(ops: seq<Op>) {
    LastRefresh(ops).Some?
    && Exec(ops).store.now >= LastRefresh(ops).value.at + LastRefresh(ops).value.ttl * FENCE_TTL_MULTIPLIER
  }

  // A step lapses exactly when it is an acquire that comes overdue; the lock has
  // then been free since one TTL after the last refresh at the latest.
  lemma LapseIffOverdue(ops: seq<Op>, op: Op)
    requires !Exec(ops).lapsed
    ensures Exec(ops + [op]).lapsed <==> op.DoAcquire? && Overdue(ops)
    ensures Overdue(ops) && Exec(ops).store.lock.Some? ==>
              Exec(ops).store.lock.value.expiry == LastRefresh(ops).value.at + LastRefresh(ops).value.ttl
    ensures Overdue(ops) ==> !Live(Exec(ops).store.lock, Exec(ops).store.now)
  {
    assert (ops + [op])[..|ops|] == ops;
    RefreshIsKnown(ops);
  }

  // No acquire in the run comes overdue.
  predicate Prompt(ops: seq<Op>) {
    ops != [] ==>
      && Prompt(ops[..|ops| - 1])
      && (ops[|ops| - 1].DoAcquire? ==> !Overdue(ops[..|ops| - 1]))
  }

  lemma {:induction false} NoLapseIffPrompt(ops: seq<Op>)
    ensures !Exec(ops).lapsed <==> Prompt(ops)
  {
    if ops != [] {
      var past := ops[..|ops| - 1];
      NoLapseIffPrompt(past);
      assert past + [ops[|ops| - 1]] == ops;
      if !Exec(past).lapsed {
        LapseIffOverdue(past, ops[|ops| - 1]);
      }
    }
  }

  // Fences strictly increase exactly in the runs where no acquire comes ten TTLs
  // or more after the last refresh.
  lemma FencesIncreaseIffPrompt(ops: seq<Op>)
    ensures Increasing(Exec(ops).grants) <==> Prompt(ops)
  {
    FencesIncreaseIffNoLapse(ops);
    NoLapseIffPrompt(ops);
  }

  // For every TTL: after ten of them the next holder starts again at fence 1.
  lemma LapseRestartsFences(ttl: nat)
    ensures var r := Exec([DoAcquire(1, ttl), Tick(ttl * FENCE_TTL_MULTIPLIER), DoAcquire(2, ttl)]);
            r.lapsed && r.grants == [Grant(1, 1), Grant(2, 1)]
  {
    var a, b, c := DoAcquire(1, ttl), Tick(ttl * FENCE_TTL_MULTIPLIER), DoAcquire(2, ttl);
    assert [a, b, c][..2] == [a, b] && [a, b][..1] == [a] && [a][..0] == [];
    var r1 := Step(Fresh, a);
    assert Exec([]) == Fresh && Exec([a]) == r1;
    assert r1.grants == [Grant(1, 1)];
    var r2 := Step(r1, b);
    assert Exec([a, b]) == r2;
    assert Exec([a, b, c]) == Step(r2, c);
  }
}
