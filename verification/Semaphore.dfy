/** The counting semaphore: permits in a sorted set scored by expiry, inside a
    key that itself expires. */
module Semaphore {
  import opened Common

  // The sorted set maps a token to its score.
  datatype Store = Store(now: nat, members: map<Token, nat>, expiry: nat, counter: nat)

  // An expired key is gone.
  function Members(s: Store): map<Token, nat> {
    if s.now < s.expiry then s.members else map[]
  }

  // ZREMRANGEBYSCORE -inf now
  function Pruned(m: map<Token, nat>, now: nat): map<Token, nat> {
    map t | t in m && now < m[t] :: m[t]
  }

  function AcquireStep(s: Store, t: Token, ttl: nat, max: nat): (Store, nat, nat) {
    var live := Pruned(Members(s), s.now);
    if |live| < max then
      (Store(s.now, live[t := s.now + ttl], s.now + ttl, s.counter + 1), 1, s.counter + 1)
    else (s.(members := live), 0, 0)
  }

  function ExtendStep(s: Store, t: Token, ttl: nat): (Store, bool) {
    if t in Members(s) then
      (s.(members := s.members[t := s.now + ttl], expiry := s.now + ttl), true)
    else (s, false)
  }

  function ReleaseStep(s: Store, t: Token): (Store, bool) {
    (s.(members := Members(s) - {t}), t in Members(s))
  }

  // The permits whose own time and whose key's time have not come.
  ghost function Unexpired(s: Store): set<Token> {
    set t | t in s.members && s.now < s.expiry && s.now < s.members[t]
  }

  // An acquire drops the expired permits; below capacity it adds the caller's, with the
  // key expiring alongside it, and else changes nothing more.
  ghost predicate AcquireAnswers(s: Store, t: Token, ttl: nat, max: nat, v: Store, status: nat, fence: nat) {
    var live := Unexpired(s);
    && v.now == s.now
    && (forall u :: u in live && (|live| >= max || u != t) ==> u in v.members && v.members[u] == s.members[u])
    && if |live| < max then
         && status == 1 && fence == v.counter == s.counter + 1 && v.expiry == s.now + ttl
         && v.members.Keys == live + {t} && v.members[t] == s.now + ttl
       else status == 0 && fence == 0 && v.counter == s.counter && v.expiry == s.expiry && v.members.Keys == live
  }

  lemma PrunedIsUnexpired(s: Store)
    ensures Pruned(Members(s), s.now).Keys == Unexpired(s)
    ensures |Pruned(Members(s), s.now)| == |Unexpired(s)|
  {
    assert Pruned(Members(s), s.now).Keys == Unexpired(s);
    assert |Pruned(Members(s), s.now).Keys| == |Pruned(Members(s), s.now)|;
  }

  lemma AcquireIsAnswered(s: Store, t: Token, ttl: nat, max: nat)
    ensures var (v, status, fence) := AcquireStep(s, t, ttl, max); AcquireAnswers(s, t, ttl, max, v, status, fence)
  {
    PrunedIsUnexpired(s);
  }

  class SemaphoreStore {
    var now: nat
    var members: map<Token, nat>
    var expiry: nat
    var counter: nat

    constructor ()
      ensures View() == Store(0, map[], 0, 0)
    {
      now, members, expiry, counter := 0, map[], 0, 0;
    }

    function View(): Store
      reads this
    {
      Store(now, members, expiry, counter)
    }

    method DropExpired()
      modifies this`members
      ensures members == Pruned(Members(old(View())), now)
    {
      if expiry <= now {
        members := map[];
      }
      members := map u | u in members && now < members[u] :: members[u];
    }

    // semaphore_acquire.lua
    method Acquire(t: Token, ttl: nat, max: nat) returns (status: nat, fence: nat)
      modifies this
      ensures (View(), status, fence) == AcquireStep(old(View()), t, ttl, max)
      ensures AcquireAnswers(old(View()), t, ttl, max, View(), status, fence)
    {
      AcquireIsAnswered(View(), t, ttl, max);
      DropExpired();
      if |members| < max {
        members := members[t := now + ttl];
        expiry := now + ttl;
        counter := counter + 1;
        return 1, counter;
      }
      return 0, 0;
    }

    // semaphore_extend.lua
    method Extend(t: Token, ttl: nat) returns (ok: bool)
      modifies this
      ensures (View(), ok) == ExtendStep(old(View()), t, ttl)
      ensures ok <==> old(now) < old(expiry) && t in old(members)
      ensures ok ==> View() == Store(old(now), old(members)[t := old(now) + ttl], old(now) + ttl, old(counter))
      ensures !ok ==> View() == old(View())
    {
      if now < expiry && t in members {
        members := members[t := now + ttl];
        expiry := now + ttl;
        return true;
      }
      ok := false;
    }

    // semaphore_release.lua: an emptied set takes its key with it.
    method Release(t: Token) returns (ok: bool)
      modifies this
      ensures (View(), ok) == ReleaseStep(old(View()), t)
      ensures ok <==> old(now) < old(expiry) && t in old(members)
      ensures members == if old(now) < old(expiry) then old(members) - {t} else map[]
      ensures now == old(now) && expiry == old(expiry) && counter == old(counter)
    {
      if expiry <= now {
        members := map[];
      }
      ok := t in members;
      members := members - {t};
    }
  }

  // ----------------------------------------------------------------------
  // Runs: the store beside what the permit holders know
  // ----------------------------------------------------------------------

  datatype Op =
    | Acquire(token: Token, ttl: nat)
    | Extend(token: Token, ttl: nat)
    | Release(token: Token)
    | Tick(d: nat)

  // `held` maps each granted, unreleased permit to the expiry its holder was told.
  datatype Run = Run(store: Store, held: map<Token, nat>)

  const Fresh: Run := Run(Store(0, map[], 0, 0), map[])

  function Step(r: Run, op: Op, max: nat): Run {
    match op
    case Acquire(t, ttl) =>
      var (s, status, _) := AcquireStep(r.store, t, ttl, max);
      Run(s, if status == 1 then r.held[t := r.store.now + ttl] else r.held)
    case Extend(t, ttl) =>
      var (s, ok) := ExtendStep(r.store, t, ttl);
      Run(s, if ok then r.held[t := r.store.now + ttl] else r.held)
    case Release(t) => Run(ReleaseStep(r.store, t).0, r.held - {t})
    case Tick(d) => r.(store := r.store.(now := r.store.now + d))
  }

  function ExecFrom(r: Run, ops: seq<Op>, max: nat): Run {
    if ops == [] then r else Step(ExecFrom(r, ops[..|ops| - 1], max), ops[|ops| - 1], max)
  }

  // The permits granted, unreleased and unexpired.
  function LivePermits(r: Run): map<Token, nat> {
    Pruned(r.held, r.store.now)
  }

  // The operation would set the key to expire before some other live permit.
  predicate Cuts(r: Run, op: Op, max: nat) {
    match op
    case Acquire(t, ttl) =>
      && AcquireStep(r.store, t, ttl, max).1 == 1
      && exists u :: u in LivePermits(r) && u != t && r.store.now + ttl < r.held[u]
    case Extend(t, ttl) =>
      && ExtendStep(r.store, t, ttl).1
      && exists u :: u in LivePermits(r) && u != t && r.store.now + ttl < r.held[u]
    case Release(_) => false
    case Tick(_) => false
  }

  ghost predicate NeverCuts(r: Run, ops: seq<Op>, max: nat) {
    ops != [] ==>
      && NeverCuts(r, ops[..|ops| - 1], max)
      && !Cuts(ExecFrom(r, ops[..|ops| - 1], max), ops[|ops| - 1], max)
  }

  // Every live permit is in the set with the score its holder knows, the key
  // outlasts it, and the set never outgrows the capacity.
  ghost predicate Inv(r: Run, max: nat) {
    && (forall t :: t in LivePermits(r) ==>
          t in Members(r.store) && r.held[t] <= r.store.expiry)
    && (forall t :: t in Members(r.store) ==> t in r.held && r.held[t] == Members(r.store)[t])
    && |Members(r.store)| <= max
  }

  lemma PrunedIsSmaller(m: map<Token, nat>, now: nat)
    ensures |Pruned(m, now)| <= |m|
  {
    SubsetSize(Pruned(m, now).Keys, m.Keys);
    assert |Pruned(m, now).Keys| == |Pruned(m, now)| && |m.Keys| == |m|;
  }

  lemma InsertGrowsByOne(m: map<Token, nat>, t: Token, v: nat)
    ensures |m[t := v]| == |m| + if t in m then 0 else 1
  {
    assert m[t := v].Keys == m.Keys + {t};
    assert |m[t := v].Keys| == |m[t := v]| && |m.Keys| == |m|;
  }

  lemma RemoveShrinks(m: map<Token, nat>, t: Token)
    ensures |m - {t}| <= |m|
  {
    SubsetSize((m - {t}).Keys, m.Keys);
    assert |(m - {t}).Keys| == |m - {t}| && |m.Keys| == |m|;
  }

  lemma AcquireKeepsInv(r: Run, t: Token, ttl: nat, max: nat)
    requires Inv(r, max) && !Cuts(r, Acquire(t, ttl), max)
    ensures Inv(Step(r, Acquire(t, ttl), max), max)
  {
    var live := Pruned(Members(r.store), r.store.now);
    PrunedIsSmaller(Members(r.store), r.store.now);
    InsertGrowsByOne(live, t, r.store.now + ttl);
  }

  lemma ExtendKeepsInv(r: Run, t: Token, ttl: nat, max: nat)
    requires Inv(r, max) && !Cuts(r, Extend(t, ttl), max)
    ensures Inv(Step(r, Extend(t, ttl), max), max)
  {
    if t in Members(r.store) {
      InsertGrowsByOne(r.store.members, t, r.store.now + ttl);
    }
  }

  lemma ReleaseKeepsInv(r: Run, t: Token, max: nat)
    requires Inv(r, max)
    ensures Inv(Step(r, Release(t), max), max)
  {
    RemoveShrinks(Members(r.store), t);
  }

  lemma StepKeepsInv(r: Run, op: Op, max: nat)
    requires Inv(r, max) && !Cuts(r, op, max)
    ensures Inv(Step(r, op, max), max)
  {
    match op
    case Acquire(t, ttl) => AcquireKeepsInv(r, t, ttl, max);
    case Extend(t, ttl) => ExtendKeepsInv(r, t, ttl, max);
    case Release(t) => ReleaseKeepsInv(r, t, max);
    case Tick(_) =>
  }

  lemma {:induction false} RunKeepsInv(r: Run, ops: seq<Op>, max: nat)
    requires Inv(r, max) && NeverCuts(r, ops, max)
    ensures Inv(ExecFrom(r, ops, max), max)
  {
    if ops != [] {
      var p := ops[..|ops| - 1];
      RunKeepsInv(r, p, max);
      StepKeepsInv(ExecFrom(r, p, max), ops[|ops| - 1], max);
    }
  }

  // In every state with the invariant the unexpired members are the live
  // permits, so there are at most max of them and acquire succeeds exactly when
  // there are fewer.
  lemma InvGivesCapacity(r: Run, max: nat, t: Token, ttl: nat)
    requires Inv(r, max)
    ensures Pruned(Members(r.store), r.store.now) == LivePermits(r)
    ensures |LivePermits(r)| <= max
    ensures AcquireStep(r.store, t, ttl, max).1 == 1 <==> |LivePermits(r)| < max
  {
    PrunedIsSmaller(Members(r.store), r.store.now);
  }

  // Over every run that never cuts the key below a live permit.
  lemma CapacityHolds(ops: seq<Op>, max: nat, t: Token, ttl: nat)
    requires NeverCuts(Fresh, ops, max)
    ensures var r := ExecFrom(Fresh, ops, max);
            && |LivePermits(r)| <= max
            && (forall u :: u in LivePermits(r) ==> u in Members(r.store) && Members(r.store)[u] == r.held[u])
            && (AcquireStep(r.store, t, ttl, max).1 == 1 <==> |LivePermits(r)| < max)
  {
    RunKeepsInv(Fresh, ops, max);
    InvGivesCapacity(ExecFrom(Fresh, ops, max), max, t, ttl);
  }

  // Each permit's fence is larger than every fence before it.
  lemma {:induction false} FencesOnlyGrow(r: Run, ops: seq<Op>, max: nat, t: Token, ttl: nat)
    ensures ExecFrom(r, ops, max).store.counter >= r.store.counter
    ensures var (_, status, fence) := AcquireStep(ExecFrom(r, ops, max).store, t, ttl, max);
            status == 1 ==> fence > r.store.counter
  {
    if ops != [] {
      FencesOnlyGrow(r, ops[..|ops| - 1], max, t, ttl);
    }
  }

  // ----------------------------------------------------------------------
  // A cut really breaks the capacity
  // ----------------------------------------------------------------------

  lemma {:induction false} AboveAll(keys: set<Token>) returns (b: nat)
    ensures forall t :: t in keys ==> t < b
    decreases keys
  {
    b := 0;
    if keys != {} {
      var t :| t in keys;
      var c := AboveAll(keys - {t});
      b := if t < c then c else t + 1;
      assert forall u :: u in keys ==> u == t || u in keys - {t};
    }
  }

  // The fresh tokens b, b+1, ... with one score.
  function FillMap(b: nat, until: nat, j: nat): map<Token, nat> {
    if j == 0 then map[] else FillMap(b, until, j - 1)[b + (j - 1) := until]
  }

  lemma {:induction false} FillMapFacts(b: nat, until: nat, j: nat)
    ensures |FillMap(b, until, j)| == j
    ensures forall k :: k in FillMap(b, until, j) ==> b <= k < b + j && FillMap(b, until, j)[k] == until
  {
    if j > 0 {
      FillMapFacts(b, until, j - 1);
      InsertGrowsByOne(FillMap(b, until, j - 1), b + (j - 1), until);
    }
  }

  // The set holds exactly m, and the old permits are as their holders left them.
  ghost predicate Filled(r: Run, r': Run, m: map<Token, nat>) {
    && r'.store.now == r.store.now
    && Members(r'.store) == m
    && (forall t :: t in r'.held <==> t in r.held || t in m)
    && (forall t :: t in r'.held ==> r'.held[t] == if t in m then m[t] else r.held[t])
  }

  lemma AcquireAdds(s: Store, m: map<Token, nat>, t: Token, ttl: nat, max: nat)
    requires Members(s) == m && |m| < max && forall k :: k in m ==> s.now < m[k]
    ensures AcquireStep(s, t, ttl, max) ==
            (Store(s.now, m[t := s.now + ttl], s.now + ttl, s.counter + 1), 1, s.counter + 1)
  {
    PrunesNothing(m, s.now);
  }

  lemma FillOne(r: Run, q: Run, m: map<Token, nat>, t: Token, ttl: nat, max: nat)
    requires ttl > 0 && |m| < max && Filled(r, q, m)
    requires forall k :: k in m ==> r.store.now < m[k]
    ensures Filled(r, Step(q, Acquire(t, ttl), max), m[t := r.store.now + ttl])
  {
    AcquireAdds(q.store, m, t, ttl, max);
  }

  lemma PrunesNothing(m: map<Token, nat>, now: nat)
    requires forall k :: k in m ==> now < m[k]
    ensures Pruned(m, now) == m
  {
  }

  lemma FillDoesNotCut(r: Run, q: Run, m: map<Token, nat>, t: Token, ttl: nat, max: nat)
    requires Filled(r, q, m)
    requires forall k :: k in r.held ==> r.held[k] <= r.store.now + ttl
    requires forall k :: k in m ==> m[k] <= r.store.now + ttl
    ensures !Cuts(q, Acquire(t, ttl), max)
  {
  }

  lemma FillNext(r: Run, q: Run, b: nat, ttl: nat, j: nat, max: nat)
    requires ttl > 0 && j < max
    requires forall t :: t in r.held ==> r.held[t] <= r.store.now + ttl
    requires Filled(r, q, FillMap(b, r.store.now + ttl, j))
    ensures Filled(r, Step(q, Acquire(b + j, ttl), max), FillMap(b, r.store.now + ttl, j + 1))
    ensures !Cuts(q, Acquire(b + j, ttl), max)
  {
    var m := FillMap(b, r.store.now + ttl, j);
    FillMapFacts(b, r.store.now + ttl, j);
    FillOne(r, q, m, b + j, ttl, max);
    FillDoesNotCut(r, q, m, b + j, ttl, max);
    assert m[b + j := r.store.now + ttl] == FillMap(b, r.store.now + ttl, j + 1);
  }

  // P survives every operation that ok admits and that does not cut.
  ghost predicate KeptUncut(P: Run -> bool, ok: Op -> bool, max: nat) {
    forall r: Run, op: Op {:trigger Step(r, op, max)} ::
      P(r) && ok(op) && !Cuts(r, op, max) ==> P(Step(r, op, max))
  }

  function AnyOp(op: Op): bool {
    true
  }

  lemma {:induction false} FillsUp(P: Run -> bool, ok: Op -> bool, r: Run, b: nat, ttl: nat, j: nat, max: nat) returns (q: Run)
    requires KeptUncut(P, ok, max) && P(r) && forall t :: ok(Acquire(t, ttl))
    requires Members(r.store) == map[] && ttl > 0 && j <= max
    requires forall t :: t in r.held ==> r.held[t] <= r.store.now + ttl
    ensures P(q) && Filled(r, q, FillMap(b, r.store.now + ttl, j))
  {
    q := r;
    if j > 0 {
      var p := FillsUp(P, ok, r, b, ttl, j - 1, max);
      FillNext(r, p, b, ttl, j - 1, max);
      q := Step(p, Acquire(b + (j - 1), ttl), max);
    }
  }

  // Where an operation cuts below a live permit, waiting for the key to expire
  // and then acquiring max fresh permits leaves more than max live ones, with
  // no further cut.
  lemma CutBreaksCapacity(P: Run -> bool, r: Run, op: Op, max: nat) returns (r': Run)
    requires Inv(r, max) && Cuts(r, op, max) && op.ttl > 0
    requires KeptUncut(P, AnyOp, max) && P(Step(r, op, max))
    ensures P(r') && |LivePermits(r')| > max
  {
    var u :| u in LivePermits(r) && u != op.token && r.store.now + op.ttl < r.held[u];
    var r1 := Step(r, op, max);
    var r2 := Step(r1, Tick(op.ttl), max);
    CutOutlivesKey(r, op, max, u);
    assert P(r2);
    var b := AboveAll(r2.held.Keys);
    var long := LongTtl(r2);
    r' := FillsUp(P, AnyOp, r2, b, long, max, max);
    TooMany(r2, r', b, r2.store.now + long, max, u);
  }

  ghost predicate ContinuesTo(r: Run, more: seq<Op>, r': Run, max: nat) {
    NeverCuts(r, more, max) && r' == ExecFrom(r, more, max)
  }

  ghost predicate Continues(r: Run, r': Run, max: nat) {
    exists more :: ContinuesTo(r, more, r', max)
  }

  lemma OneMore(r: Run, more: seq<Op>, q: Run, op: Op, max: nat)
    requires ContinuesTo(r, more, q, max) && !Cuts(q, op, max)
    ensures ContinuesTo(r, more + [op], Step(q, op, max), max)
  {
    var all := more + [op];
    assert all[..|all| - 1] == more && all[|all| - 1] == op;
    assert ExecFrom(r, all, max) == Step(q, op, max);
    assert NeverCuts(r, all, max);
  }

  lemma ContinuationIsKept(r: Run, max: nat)
    ensures KeptUncut(r' => Continues(r, r', max), AnyOp, max) && Continues(r, r, max)
  {
    assert ContinuesTo(r, [], r, max);
    forall q: Run, op: Op | Continues(r, q, max) && !Cuts(q, op, max)
      ensures Continues(r, Step(q, op, max), max)
    {
      var more :| ContinuesTo(r, more, q, max);
      OneMore(r, more, q, op, max);
    }
  }

  // When the key has run out, the cut permit is still live.
  lemma CutOutlivesKey(r: Run, op: Op, max: nat, u: Token)
    requires Cuts(r, op, max) && u in LivePermits(r) && u != op.token && r.store.now + op.ttl < r.held[u]
    ensures var r2 := Step(Step(r, op, max), Tick(op.ttl), max);
            Members(r2.store) == map[] && u in LivePermits(r2)
  {
  }

  lemma TooMany(r: Run, r': Run, b: nat, until: nat, max: nat, u: Token)
    requires Filled(r, r', FillMap(b, until, max)) && r.store.now < until
    requires forall t :: t in r.held ==> t < b
    requires u in LivePermits(r)
    ensures |LivePermits(r')| > max
  {
    var m := FillMap(b, until, max);
    FillMapFacts(b, until, max);
    assert |m.Keys| == |m|;
    assert u in LivePermits(r') && u !in m.Keys;
    assert m.Keys + {u} <= LivePermits(r').Keys;
    SubsetSize(m.Keys + {u}, LivePermits(r').Keys);
    assert |LivePermits(r').Keys| == |LivePermits(r')|;
  }

  // A TTL that reaches past every permit.
  lemma LongTtl(r: Run) returns (ttl: nat)
    ensures ttl > 0 && forall t :: t in r.held ==> r.held[t] <= r.store.now + ttl
  {
    ttl := LongTtlFor(r, r.held.Keys);
  }

  lemma {:induction false} LongTtlFor(r: Run, keys: set<Token>) returns (ttl: nat)
    requires keys <= r.held.Keys
    ensures ttl > 0 && forall t :: t in keys ==> r.held[t] <= r.store.now + ttl
    decreases keys
  {
    if keys == {} {
      ttl := 1;
    } else {
      var t :| t in keys;
      var rest := LongTtlFor(r, keys - {t});
      ttl := if r.held[t] > rest then r.held[t] else rest;
    }
  }

  // The capacity holds in every continuation free of further cuts.
  ghost predicate StaysWithin(r: Run, max: nat) {
    forall r' :: Continues(r, r', max) ==> |LivePermits(r')| <= max
  }

  // Exactly when an operation is safe: from a state with the invariant, the
  // capacity holds in every later state that needs no further cut if and only
  // if the operation does not cut below a live permit.
  lemma SafeIffNoCut(r: Run, op: Op, max: nat)
    requires Inv(r, max)
    requires op.Acquire? || op.Extend? ==> op.ttl > 0
    ensures StaysWithin(Step(r, op, max), max) <==> !Cuts(r, op, max)
  {
    var s := Step(r, op, max);
    if Cuts(r, op, max) {
      ContinuationIsKept(s, max);
      var r' := CutBreaksCapacity(q => Continues(s, q, max), r, op, max);
      assert Continues(s, r', max);
    } else {
      StepKeepsInv(r, op, max);
      forall r' | Continues(s, r', max) ensures |LivePermits(r')| <= max {
        var more :| ContinuesTo(s, more, r', max);
        RunKeepsInv(s, more, max);
        InvGivesCapacity(r', max, 0, 0);
      }
    }
  }

  // ----------------------------------------------------------------------
  // What callers must agree on
  // ----------------------------------------------------------------------

  predicate TtlOk(op: Op, ttl: nat, ttl2: nat) {
    op.Acquire? || op.Extend? ==> op.ttl == ttl || op.ttl == ttl2
  }

  // Every acquire and extend uses ttl or ttl2.
  predicate UsesTtls(ops: seq<Op>, ttl: nat, ttl2: nat) {
    forall k :: 0 <= k < |ops| ==> TtlOk(ops[k], ttl, ttl2)
  }

  // No live permit was told an expiry beyond one TTL from now.
  ghost predicate Within(r: Run, ttl: nat) {
    forall u :: u in LivePermits(r) ==> r.held[u] <= r.store.now + ttl
  }

  lemma LoneMember(m: map<Token, nat>, t: Token, u: Token)
    requires t in m && u in m && |m| <= 1
    ensures t == u
  {
    SubsetSize({t, u}, m.Keys);
    assert |m.Keys| == |m|;
  }

  lemma LonePermitIsNotCut(r: Run, op: Op, max: nat)
    requires Inv(r, max) && max <= 1
    ensures !Cuts(r, op, max)
  {
    if op.Acquire? {
      InvGivesCapacity(r, max, op.token, op.ttl);
      assert AcquireStep(r.store, op.token, op.ttl, max).1 == 1 ==> LivePermits(r) == map[];
    } else if op.Extend? {
      forall u | op.token in Members(r.store) && u in LivePermits(r) ensures u == op.token {
        LoneMember(Members(r.store), u, op.token);
      }
    }
  }

  lemma OneTtlStep(r: Run, op: Op, ttl: nat, max: nat)
    requires Within(r, ttl) && TtlOk(op, ttl, ttl)
    ensures !Cuts(r, op, max) && Within(Step(r, op, max), ttl)
  {
  }

  lemma {:induction false} AgreedRunsNeverCut(ops: seq<Op>, ttl: nat, ttl2: nat, max: nat)
    requires UsesTtls(ops, ttl, ttl2) && (ttl == ttl2 || max <= 1)
    ensures NeverCuts(Fresh, ops, max) && (ttl == ttl2 ==> Within(ExecFrom(Fresh, ops, max), ttl))
  {
    if ops != [] {
      var past, op := ops[..|ops| - 1], ops[|ops| - 1];
      AgreedRunsNeverCut(past, ttl, ttl2, max);
      var r := ExecFrom(Fresh, past, max);
      if ttl == ttl2 {
        OneTtlStep(r, op, ttl, max);
      } else {
        RunKeepsInv(Fresh, past, max);
        LonePermitIsNotCut(r, op, max);
      }
    }
  }

  ghost predicate ReachedBy(ops: seq<Op>, ttl: nat, ttl2: nat, max: nat, r: Run) {
    UsesTtls(ops, ttl, ttl2) && r == ExecFrom(Fresh, ops, max)
  }

  ghost predicate Reached(ttl: nat, ttl2: nat, max: nat, r: Run) {
    exists ops :: ReachedBy(ops, ttl, ttl2, max, r)
  }

  lemma ReachedNext(ttl: nat, ttl2: nat, max: nat, r: Run, op: Op)
    requires Reached(ttl, ttl2, max, r) && TtlOk(op, ttl, ttl2)
    ensures Reached(ttl, ttl2, max, Step(r, op, max))
  {
    var ops :| ReachedBy(ops, ttl, ttl2, max, r);
    assert (ops + [op])[..|ops|] == ops;
    assert ReachedBy(ops + [op], ttl, ttl2, max, Step(r, op, max));
  }

  // A permit under the longer TTL, cut by one under the shorter.
  lemma LongThenShort(long: nat, short: nat, max: nat)
    requires max >= 2 && 0 < short < long
    ensures Step(Fresh, Acquire(1, long), max) == Run(Store(0, map[1 := long], long, 1), map[1 := long])
    ensures Step(Run(Store(0, map[1 := long], long, 1), map[1 := long]), Acquire(2, short), max) ==
            Run(Store(0, map[1 := long, 2 := short], short, 2), map[1 := long, 2 := short])
  {
    AcquireAdds(Fresh.store, map[], 1, long, max);
    AcquireAdds(Store(0, map[1 := long], long, 1), map[1 := long], 2, short, max);
  }

  lemma CutRunIsReached(long: nat, short: nat, max: nat, ttl: nat, ttl2: nat) returns (r: Run)
    requires max >= 2 && 0 < short < long
    requires {long, short} == {ttl, ttl2}
    ensures Reached(ttl, ttl2, max, r)
    ensures r == Run(Store(short, map[1 := long, 2 := short], short, 2), map[1 := long, 2 := short])
  {
    LongThenShort(long, short, max);
    assert ReachedBy([], ttl, ttl2, max, Fresh);
    assert long in {ttl, ttl2} && short in {ttl, ttl2};
    ReachedNext(ttl, ttl2, max, Fresh, Acquire(1, long));
    ReachedNext(ttl, ttl2, max, Run(Store(0, map[1 := long], long, 1), map[1 := long]), Acquire(2, short));
    var r2 := Run(Store(0, map[1 := long, 2 := short], short, 2), map[1 := long, 2 := short]);
    ReachedNext(ttl, ttl2, max, r2, Tick(short));
    r := Step(r2, Tick(short), max);
  }

  lemma MixedTtlsOverfill(long: nat, short: nat, max: nat, ttl: nat, ttl2: nat) returns (ops: seq<Op>)
    requires max >= 2 && 0 < short < long
    requires {long, short} == {ttl, ttl2}
    ensures UsesTtls(ops, ttl, ttl2) && |LivePermits(ExecFrom(Fresh, ops, max))| > max
  {
    var r := CutRunIsReached(long, short, max, ttl, ttl2);
    var P, ok := (q: Run) => Reached(ttl, ttl2, max, q), (op: Op) => TtlOk(op, ttl, ttl2);
    forall q: Run, op: Op | P(q) && ok(op) && !Cuts(q, op, max) ensures P(Step(q, op, max)) {
      ReachedNext(ttl, ttl2, max, q, op);
    }
    assert long in {ttl, ttl2};
    var r' := FillsUp(P, ok, r, 3, long, max, max);
    TooMany(r, r', 3, r.store.now + long, max, 1);
    ops :| ReachedBy(ops, ttl, ttl2, max, r');
  }

  // Over all runs in which every acquire and extend uses ttl or ttl2, the
  // capacity holds exactly when the two are the same or there is one permit.
  lemma CapacityIffOneTtl(max: nat, ttl: nat, ttl2: nat)
    requires ttl > 0 && ttl2 > 0
    ensures (forall ops :: UsesTtls(ops, ttl, ttl2) ==> |LivePermits(ExecFrom(Fresh, ops, max))| <= max) <==>
            ttl == ttl2 || max <= 1
  {
    if ttl == ttl2 || max <= 1 {
      forall ops | UsesTtls(ops, ttl, ttl2) ensures |LivePermits(ExecFrom(Fresh, ops, max))| <= max {
        AgreedRunsNeverCut(ops, ttl, ttl2, max);
        CapacityHolds(ops, max, 0, 0);
      }
    } else {
      var long, short := if ttl > ttl2 then ttl else ttl2, if ttl > ttl2 then ttl2 else ttl;
      var ops := MixedTtlsOverfill(long, short, max, ttl, ttl2);
    }
  }
}
