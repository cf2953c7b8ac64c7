/** Multi-lock: several keys, all or nothing, taken in sorted order, with other
    clients acting between any two store calls. */
module MultiLock {
  import opened Common
  import opened KeyStore
  import Mutex

  const POLL_INTERVAL: nat := 20

  // ----------------------------------------------------------------------
  // Sorting and the duplicate check
  // ----------------------------------------------------------------------

  // Lexicographic order.
  predicate AtMost(a: Key, b: Key) {
    a == [] || (b != [] && (a[0] < b[0] || (a[0] == b[0] && AtMost(a[1..], b[1..]))))
  }

  predicate Before(a: Key, b: Key) {
    AtMost(a, b) && a != b
  }

  lemma {:induction false} OrderIsTotal(a: Key, b: Key)
    ensures AtMost(a, b) || AtMost(b, a)
    ensures AtMost(a, b) && AtMost(b, a) ==> a == b
  {
    if a != [] && b != [] {
      OrderIsTotal(a[1..], b[1..]);
      assert a == [a[0]] + a[1..] && b == [b[0]] + b[1..];
    }
  }

  lemma {:induction false} OrderIsTransitive(a: Key, b: Key, c: Key)
    requires AtMost(a, b) && AtMost(b, c)
    ensures AtMost(a, c)
  {
    if a != [] && a[0] == b[0] == c[0] {
      OrderIsTransitive(a[1..], b[1..], c[1..]);
    }
  }

  ghost predicate Sorted(keys: seq<Key>) {
    forall i, j :: 0 <= i < j < |keys| ==> AtMost(keys[i], keys[j])
  }

  ghost predicate StrictlySorted(keys: seq<Key>) {
    forall i, j :: 0 <= i < j < |keys| ==> Before(keys[i], keys[j])
  }

  ghost predicate HasDuplicate(keys: seq<Key>) {
    exists k :: multiset(keys)[k] >= 2
  }

  function Insert(k: Key, keys: seq<Key>): seq<Key> {
    if keys == [] then [k]
    else if AtMost(k, keys[0]) then [k] + keys
    else [keys[0]] + Insert(k, keys[1..])
  }

  lemma {:induction false} InsertPermutes(k: Key, keys: seq<Key>)
    ensures multiset(Insert(k, keys)) == multiset(keys) + multiset{k}
  {
    if keys != [] && !AtMost(k, keys[0]) {
      InsertPermutes(k, keys[1..]);
      assert keys == [keys[0]] + keys[1..];
    }
  }

  lemma SortedCons(k: Key, keys: seq<Key>)
    requires Sorted(keys) && forall x :: x in multiset(keys) ==> AtMost(k, x)
    ensures Sorted([k] + keys)
  {
    var all := [k] + keys;
    forall i, j | 0 <= i < j < |all| ensures AtMost(all[i], all[j]) {
      assert all[j] == keys[j - 1] && keys[j - 1] in multiset(keys);
    }
  }

  lemma {:induction false} InsertSorts(k: Key, keys: seq<Key>)
    requires Sorted(keys)
    ensures Sorted(Insert(k, keys))
  {
    if keys != [] {
      OrderIsTotal(k, keys[0]);
      if AtMost(k, keys[0]) {
        forall x | x in multiset(keys) && x != keys[0] ensures AtMost(k, x) {
          var j :| 0 <= j < |keys| && keys[j] == x;
          OrderIsTransitive(k, keys[0], x);
        }
        SortedCons(k, keys);
      } else {
        InsertSorts(k, keys[1..]);
        InsertPermutes(k, keys[1..]);
        SortedCons(keys[0], Insert(k, keys[1..]));
      }
    }
  }

  method Sort(keys: seq<Key>) returns (sorted: seq<Key>)
    ensures Sorted(sorted) && multiset(sorted) == multiset(keys)
  {
    sorted := [];
    for i := 0 to |keys|
      invariant Sorted(sorted) && multiset(sorted) == multiset(keys[..i])
    {
      InsertSorts(keys[i], sorted);
      InsertPermutes(keys[i], sorted);
      sorted := Insert(keys[i], sorted);
      assert keys[..i + 1] == keys[..i] + [keys[i]];
    }
    assert keys[..|keys|] == keys;
  }

  lemma TwoPlacesAreADuplicate(keys: seq<Key>, i: nat, j: nat)
    requires i < j < |keys| && keys[i] == keys[j]
    ensures multiset(keys)[keys[i]] >= 2
  {
    var p, s := keys[..j], keys[j..];
    assert keys == p + s && p[i] in multiset(p) && s[0] in multiset(s);
  }

  lemma {:induction false} DistinctHasNoDuplicate(keys: seq<Key>, k: Key)
    requires forall i, j :: 0 <= i < j < |keys| ==> keys[i] != keys[j]
    ensures multiset(keys)[k] <= 1
  {
    if keys != [] {
      assert keys == [keys[0]] + keys[1..];
      DistinctHasNoDuplicate(keys[1..], k);
      assert keys[0] !in keys[1..];
    }
  }

  function Min(a: nat, b: nat): nat {
    if a < b then a else b
  }

  // Comparing neighbours of a sorted list finds a duplicate iff there is one.
  method AdjacentDuplicate(sorted: seq<Key>) returns (dup: bool)
    requires Sorted(sorted)
    ensures dup <==> HasDuplicate(sorted)
    ensures !dup ==> StrictlySorted(sorted)
  {
    var i := 1;
    while i < |sorted|
      invariant 1 <= i && StrictlySorted(sorted[..Min(i, |sorted|)])
    {
      if sorted[i - 1] == sorted[i] {
        TwoPlacesAreADuplicate(sorted, i - 1, i);
        return true;
      }
      forall j | 0 <= j < i ensures Before(sorted[j], sorted[i]) {
        if j < i - 1 && sorted[j] == sorted[i] {
          OrderIsTotal(sorted[i - 1], sorted[i]);
        }
      }
      i := i + 1;
    }
    assert sorted[..|sorted|] == sorted;
    forall k ensures multiset(sorted)[k] <= 1 {
      DistinctHasNoDuplicate(sorted, k);
    }
    dup := false;
  }

  // ----------------------------------------------------------------------
  // What the call cannot control, and what it may rely on
  // ----------------------------------------------------------------------

  datatype Error = InvalidConfig | Held | Backend | Timeout | Lost

  datatype Handle = Handle(key: Key, token: Token, fence: nat)

  // others(n) is done to the store just before this client's n-th call to it,
  // ids(n) is the owner id generated for that call, if it is an acquisition.
  // mine are the ids generated from call number first on; nobody else presents
  // one of them. Ids of earlier calls, this client's included, are not mine.
  datatype Environment = Environment(
    others: nat -> seq<Op>,
    delivery: nat -> Mutex.Delivery,
    first: nat,
    ids: nat -> Token,
    mine: Token -> bool)

  ghost predicate WellFormed(env: Environment) {
    && (forall n :: n >= env.first ==> env.mine(env.ids(n)))
    && forall n, i :: 0 <= i < |env.others(n)| ==> Foreign(env, env.others(n)[i])
  }

  predicate Foreign(env: Environment, op: Op) {
    op.Tick? || !env.mine(op.token)
  }

  ghost predicate Reliable(env: Environment) {
    forall n :: env.delivery(n) == Mutex.Answered
  }

  ghost predicate Quiet(env: Environment) {
    forall n :: env.others(n) == []
  }

  // Nobody else presents token u for key k.
  ghost predicate Untouched(env: Environment, k: Key, u: Token) {
    forall n, i :: 0 <= i < |env.others(n)| ==> !Names(env.others(n)[i], k, u)
  }

  // The live lock on k, if any, outlasts s1.
  predicate Lasts(s0: Store, s1: Store, k: Key) {
    Live(Lock(s0, k), s0.now) && s1.now < Lock(s0, k).value.expiry
  }

  // From s0 to s1 every lock of another client stood until its expiry, unless
  // someone else acted on it under its own token.
  ghost predicate ForeignStand(env: Environment, s0: Store, s1: Store) {
    s1.now >= s0.now
    && forall k :: Lasts(s0, s1, k) && !env.mine(Lock(s0, k).value.token) && Untouched(env, k, Lock(s0, k).value.token)
                   ==> At(s1, k) == At(s0, k)
  }

  // So did every lock of this client, and it gained none.
  ghost predicate OwnStand(env: Environment, s0: Store, s1: Store) {
    && (forall k :: Lasts(s0, s1, k) && env.mine(Lock(s0, k).value.token) ==> At(s1, k) == At(s0, k))
    && forall k, t :: env.mine(t) && Owns(Lock(s1, k), s1.now, t) ==> Owns(Lock(s0, k), s0.now, t)
  }

  // What other clients can do between two of this client's calls.
  ghost predicate Elapses(env: Environment, s0: Store, s1: Store) {
    ForeignStand(env, s0, s1) && OwnStand(env, s0, s1) && (Quiet(env) ==> s1 == s0)
  }

  // This client's live locks are all among handles.
  ghost predicate OwnsOnly(env: Environment, s: Store, handles: seq<Handle>) {
    forall k, t :: env.mine(t) && Owns(Lock(s, k), s.now, t) ==>
      exists j :: 0 <= j < |handles| && handles[j].key == k && handles[j].token == t
  }

  // Before time until, every handle still owns its key, and its fence is the
  // newest the key has given out.
  ghost predicate HeldUntil(s: Store, handles: seq<Handle>, until: nat) {
    s.now < until ==>
      forall j :: 0 <= j < |handles| ==> HoldsUntil(s, handles[j], until)
  }

  ghost predicate HoldsUntil(s: Store, h: Handle, until: nat) {
    && Lock(s, h.key).Some? && Lock(s, h.key).value.token == h.token && Lock(s, h.key).value.expiry >= until
    && At(s, h.key).counter.Some? && At(s, h.key).counter.value.value == h.fence
  }

  function FenceOf(s: Store, k: Key, t: Token, ttl: nat): nat {
    Mutex.AcquireStep(Single(s, k), t, ttl, ttl * Mutex.FENCE_TTL_MULTIPLIER).2
  }

  ghost predicate SameLocksBut(s0: Store, s1: Store, keys: seq<Key>) {
    s1.now == s0.now && forall k :: k !in keys ==> Lock(s1, k) == Lock(s0, k)
  }

  // ----------------------------------------------------------------------
  // The client
  // ----------------------------------------------------------------------

  lemma ForeignOpIsFair(env: Environment, s0: Store, s: Store, n: nat, i: nat)
    requires WellFormed(env) && i < |env.others(n)|
    requires Elapses(env, s0, s)
    ensures Elapses(env, s0, Next(s, env.others(n)[i]))
  {
    var op := env.others(n)[i];
    var s1 := Next(s, op);
    assert Foreign(env, op);
    forall k | Lasts(s0, s1, k) && At(s, k) == At(s0, k) && !Names(op, k, Lock(s0, k).value.token)
      ensures At(s1, k) == At(s0, k)
    {
      OthersLeaveLock(s, op, k);
    }
    forall k, t | env.mine(t) && Owns(Lock(s1, k), s1.now, t) ensures Owns(Lock(s0, k), s0.now, t) {
      LocksHaveAcquirers(s, op, k, t);
    }
  }

  lemma OwnOpIsFair(env: Environment, s0: Store, s: Store, op: Op)
    requires ForeignStand(env, s0, s) && (op.Tick? || env.mine(op.token))
    ensures ForeignStand(env, s0, Next(s, op))
  {
    forall k | Lasts(s0, Next(s, op), k) && At(s, k) == At(s0, k) && !env.mine(Lock(s0, k).value.token)
      ensures At(Next(s, op), k) == At(s0, k)
    {
      OthersLeaveLock(s, op, k);
    }
  }

  // Every live lock of another client at s1 was there at s0 already.
  ghost predicate NoneNew(env: Environment, s0: Store, s1: Store) {
    && s1.now >= s0.now
    && forall k :: Live(Lock(s1, k), s1.now) && !env.mine(Lock(s1, k).value.token) ==> Lock(s1, k) == Lock(s0, k)
  }

  lemma OwnOpBringsNone(env: Environment, s0: Store, s: Store, op: Op)
    requires NoneNew(env, s0, s) && (op.Tick? || env.mine(op.token))
    ensures NoneNew(env, s0, Next(s, op))
  {
    forall k | Live(Lock(Next(s, op), k), Next(s, op).now) && !env.mine(Lock(Next(s, op), k).value.token)
      ensures Lock(Next(s, op), k) == Lock(s0, k)
    {
      LocksHaveAcquirers(s, op, k, Lock(Next(s, op), k).value.token);
      OthersLeaveLock(s, op, k);
    }
  }

  lemma NoneNewComposes(env: Environment, s0: Store, s1: Store, s2: Store)
    requires NoneNew(env, s0, s1) && NoneNew(env, s1, s2)
    ensures NoneNew(env, s0, s2)
  {
  }

  lemma StandingComposes(env: Environment, s0: Store, s1: Store, s2: Store)
    requires ForeignStand(env, s0, s1) && ForeignStand(env, s1, s2)
    ensures ForeignStand(env, s0, s2)
  {
  }

  // Handles survive whatever others do, as far as until.
  lemma HandlesSurvive(env: Environment, s0: Store, s1: Store, handles: seq<Handle>, until: nat)
    requires Elapses(env, s0, s1) && AllMine(env, handles)
    ensures HeldUntil(s0, handles, until) ==> HeldUntil(s1, handles, until)
    ensures OwnsOnly(env, s0, handles) ==> OwnsOnly(env, s1, handles)
  {
    if HeldUntil(s0, handles, until) && s1.now < until {
      forall j | 0 <= j < |handles| ensures HoldsUntil(s1, handles[j], until) {
        assert HoldsUntil(s0, handles[j], until) && Lasts(s0, s1, handles[j].key);
      }
    }
  }

  // One more key taken.
  lemma HandleJoins(env: Environment, s: Store, handles: seq<Handle>, h: Handle, ttl: nat, until: nat)
    requires AllMine(env, handles + [h]) && AcquireGrants(Lock(s, h.key), s.now, h.token) && until <= s.now + ttl
    requires h.fence == FenceOf(s, h.key, h.token, ttl)
    requires forall j :: 0 <= j < |handles| ==> handles[j].key != h.key
    ensures var s1 := Next(s, Acquire(h.key, h.token, ttl));
            && (HeldUntil(s, handles, until) ==> HeldUntil(s1, handles + [h], until))
            && (OwnsOnly(env, s, handles) ==> OwnsOnly(env, s1, handles + [h]))
  {
    var op := Acquire(h.key, h.token, ttl);
    var s1 := Next(s, op);
    if HeldUntil(s, handles, until) && s1.now < until {
      forall j | 0 <= j < |handles + [h]| ensures HoldsUntil(s1, (handles + [h])[j], until) {
        if j < |handles| {
          assert HoldsUntil(s, handles[j], until);
        }
      }
    }
    if OwnsOnly(env, s, handles) {
      forall k, t | env.mine(t) && Owns(Lock(s1, k), s1.now, t)
        ensures exists j :: 0 <= j < |handles + [h]| && (handles + [h])[j].key == k && (handles + [h])[j].token == t
      {
        LocksHaveAcquirers(s, op, k, t);
        if Owns(Lock(s, k), s.now, t) {
          var j :| 0 <= j < |handles| && handles[j].key == k && handles[j].token == t;
          assert (handles + [h])[j] == handles[j];
        } else {
          assert (handles + [h])[|handles|] == h;
        }
      }
    }
  }

  // The last key given back.
  lemma HandleLeaves(env: Environment, s: Store, handles: seq<Handle>)
    requires handles != [] && OwnsOnly(env, s, handles)
    ensures var h := handles[|handles| - 1];
            OwnsOnly(env, Next(s, Release(h.key, h.token)), handles[..|handles| - 1])
  {
    var n := |handles| - 1;
    var op := Release(handles[n].key, handles[n].token);
    var s1 := Next(s, op);
    forall k, t | env.mine(t) && Owns(Lock(s1, k), s1.now, t)
      ensures exists j :: 0 <= j < n && handles[..n][j].key == k && handles[..n][j].token == t
    {
      LocksHaveAcquirers(s, op, k, t);
      var j :| 0 <= j < |handles| && handles[j].key == k && handles[j].token == t;
      assert j != n;
      assert handles[..n][j] == handles[j];
    }
  }

  ghost predicate AllMine(env: Environment, handles: seq<Handle>) {
    forall j :: 0 <= j < |handles| ==> env.mine(handles[j].token)
  }

  ghost predicate OnePerKey(handles: seq<Handle>, keys: seq<Key>) {
    |handles| == |keys| && forall j :: 0 <= j < |keys| ==> handles[j].key == keys[j]
  }

  ghost predicate AllFree(s: Store, keys: seq<Key>) {
    forall j :: 0 <= j < |keys| ==> !Live(Lock(s, keys[j]), s.now)
  }

  // What an attempt begun at s0 has achieved by s, with keys taken so far.
  ghost predicate Progress(env: Environment, s0: Store, s: Store, keys: seq<Key>, handles: seq<Handle>, ttl: nat) {
    && OnePerKey(handles, keys) && AllMine(env, handles)
    && ForeignStand(env, s0, s)
    && HeldUntil(s, handles, s0.now + ttl)
    && (Reliable(env) ==> OwnsOnly(env, s, handles))
    && (Quiet(env) ==> SameLocksBut(s0, s, keys) && NoneNew(env, s0, s))
    && (Quiet(env) && Reliable(env) ==> AllFree(s0, keys))
  }

  lemma ProgressStays(env: Environment, s0: Store, s: Store, mid: Store, keys: seq<Key>, handles: seq<Handle>, ttl: nat)
    requires Progress(env, s0, s, keys, handles, ttl) && Elapses(env, s, mid)
    ensures Progress(env, s0, mid, keys, handles, ttl)
  {
    HandlesSurvive(env, s, mid, handles, s0.now + ttl);
    StandingComposes(env, s0, s, mid);
  }

  lemma ProgressGrows(env: Environment, s0: Store, s: Store, keys: seq<Key>, handles: seq<Handle>, ttl: nat, h: Handle)
    requires Progress(env, s0, s, keys, handles, ttl)
    requires h.key !in keys && env.mine(h.token) && AcquireGrants(Lock(s, h.key), s.now, h.token)
    requires h.fence == FenceOf(s, h.key, h.token, ttl)
    ensures Progress(env, s0, Next(s, Acquire(h.key, h.token, ttl)), keys + [h.key], handles + [h], ttl)
  {
    HandleJoins(env, s, handles, h, ttl, s0.now + ttl);
    OwnOpIsFair(env, s0, s, Acquire(h.key, h.token, ttl));
    if Quiet(env) {
      OwnOpBringsNone(env, s0, s, Acquire(h.key, h.token, ttl));
    }
    if Quiet(env) && Reliable(env) {
      assert Lock(s, h.key) == Lock(s0, h.key) && s.now == s0.now;
    }
  }

  // The handle over all keys, with each key's released flag.
  class MultiLockHandle {
    const handles: seq<Handle>
    var released: seq<bool>

    constructor (handles: seq<Handle>)
      ensures this.handles == handles && Unreleased()
    {
      this.handles := handles;
      released := seq(|handles|, _ => false);
    }

    predicate Valid()
      reads this
    {
      |released| == |handles|
    }

    predicate Unreleased()
      reads this
    {
      Valid() && forall j :: 0 <= j < |released| ==> !released[j]
    }

    predicate Released()
      reads this
    {
      Valid() && forall j :: 0 <= j < |released| ==> released[j]
    }
  }

  function KeysOf(handles: seq<Handle>): seq<Key> {
    seq(|handles|, j requires 0 <= j < |handles| => handles[j].key)
  }

  // Handles i and up still own their keys.
  ghost predicate OwnedFrom(s: Store, handles: seq<Handle>, i: nat) {
    forall j :: i <= j < |handles| ==> Owns(Lock(s, handles[j].key), s.now, handles[j].token)
  }

  // Every lock on these keys has run out by time t.
  ghost predicate FreeBy(s: Store, keys: seq<Key>, t: nat) {
    forall j :: 0 <= j < |keys| ==> Lock(s, keys[j]).None? || Lock(s, keys[j]).value.expiry <= t
  }

  // Where nobody else acts and this client holds nothing, a lock stands exactly until
  // it runs out.
  lemma FreeExactlyByTime(env: Environment, s0: Store, s: Store, keys: seq<Key>)
    requires Quiet(env) && OwnsOnly(env, s0, []) && OwnsOnly(env, s, [])
    requires ForeignStand(env, s0, s) && NoneNew(env, s0, s)
    ensures AllFree(s, keys) <==> FreeBy(s0, keys, s.now)
  {
    forall j | 0 <= j < |keys|
      ensures Live(Lock(s, keys[j]), s.now) <==> Lock(s0, keys[j]).Some? && Lock(s0, keys[j]).value.expiry > s.now
    {
      var k := keys[j];
      if Lock(s0, k).Some? && Lock(s0, k).value.expiry > s.now {
        assert Owns(Lock(s0, k), s0.now, Lock(s0, k).value.token);
      }
      if Live(Lock(s, k), s.now) {
        assert Owns(Lock(s, k), s.now, Lock(s, k).value.token);
      }
    }
  }

  // The number of polls before one finds the wait over.
  lemma PollsInWait(polls: nat, wait: nat)
    requires polls == 0 || 20 * (polls - 1) < wait
    ensures 20 * polls <= 20 * ((wait + 19) / 20)
    ensures 20 * polls >= wait ==> 20 * polls == 20 * ((wait + 19) / 20)
  {
  }

  lemma FreeByThen(s: Store, keys: seq<Key>, sorted: seq<Key>, t: nat, last: nat)
    requires multiset(keys) == multiset(sorted) && t <= last
    ensures FreeBy(s, keys, t) <==> FreeBy(s, sorted, t)
    ensures FreeBy(s, keys, t) ==> FreeBy(s, keys, last)
  {
    forall k ensures k in keys <==> k in sorted {
      assert k in multiset(keys) <==> k in multiset(sorted);
    }
    assert FreeBy(s, keys, t) <==> forall k :: k in keys ==> Lock(s, k).None? || Lock(s, k).value.expiry <= t;
    assert FreeBy(s, sorted, t) <==> forall k :: k in sorted ==> Lock(s, k).None? || Lock(s, k).value.expiry <= t;
  }

  // What an undisturbed call has seen after so many polls that found some key held.
  ghost predicate Waited(env: Environment, s0: Store, s: Store, polls: nat, wait: nat) {
    s.now == s0.now + 20 * polls && (polls == 0 || 20 * (polls - 1) < wait) && NoneNew(env, s0, s)
  }

  // How an undisturbed call ends at a given time.
  ghost predicate EndsQuietly(s0: Store, keys: seq<Key>, wait: nat, now: nat, ok: bool) {
    var last := s0.now + 20 * ((wait + 19) / 20);
    && (ok <==> FreeBy(s0, keys, last))
    && if ok then FreeBy(s0, keys, now) && now <= last else now == last
  }

  lemma QuietEnd(env: Environment, s0: Store, s: Store, keys: seq<Key>, sorted: seq<Key>, polls: nat, wait: nat)
    requires Quiet(env) && Waited(env, s0, s, polls, wait) && ForeignStand(env, s0, s)
    requires OwnsOnly(env, s0, []) && OwnsOnly(env, s, []) && multiset(keys) == multiset(sorted)
    ensures AllFree(s, sorted) ==> EndsQuietly(s0, keys, wait, s.now, true)
    ensures !AllFree(s, sorted) && s.now >= s0.now + wait ==> EndsQuietly(s0, keys, wait, s.now, false)
  {
    FreeExactlyByTime(env, s0, s, sorted);
    PollsInWait(polls, wait);
    FreeByThen(s0, keys, sorted, s.now, s0.now + 20 * ((wait + 19) / 20));
  }

  lemma SleepBringsNone(env: Environment, s0: Store, s: Store, started: Store, polls: nat, wait: nat)
    requires Waited(env, s0, started, polls, wait) && started.now < s0.now + wait
    requires s.now == started.now && NoneNew(env, started, s)
    ensures Waited(env, s0, Next(s, Tick(20)), polls + 1, wait)
  {
    NoneNewComposes(env, s0, started, s);
    OwnOpBringsNone(env, s0, s, Tick(20));
  }

  lemma SameKeys(keys: seq<Key>, sorted: seq<Key>)
    requires multiset(keys) == multiset(sorted)
    ensures HasDuplicate(keys) <==> HasDuplicate(sorted)
    ensures forall s :: AllFree(s, keys) <==> AllFree(s, sorted)
  {
    forall k ensures k in keys <==> k in sorted {
      assert k in multiset(keys) <==> k in multiset(sorted);
    }
    forall s ensures AllFree(s, keys) <==> AllFree(s, sorted) {
      assert AllFree(s, keys) <==> forall k :: k in keys ==> !Live(Lock(s, k), s.now);
      assert AllFree(s, sorted) <==> forall k :: k in sorted ==> !Live(Lock(s, k), s.now);
    }
  }

  lemma SleepGainsNothing(env: Environment, s: Store, d: nat)
    ensures OwnsOnly(env, s, []) ==> OwnsOnly(env, Next(s, Tick(d)), [])
  {
    if OwnsOnly(env, s, []) {
      forall k, t | env.mine(t) && Owns(Lock(Next(s, Tick(d)), k), Next(s, Tick(d)).now, t) ensures false {
        assert Owns(Lock(s, k), s.now, t);
      }
    }
  }

  // release_all from s0 has given back handles i and up, err being the first error.
  ghost predicate GivenBack(env: Environment, s0: Store, s: Store, handles: seq<Handle>, i: nat, err: Option<Error>)
    requires i <= |handles|
  {
    && (OwnsOnly(env, s0, handles) ==> OwnsOnly(env, s, handles[..i]))
    && (Quiet(env) && StrictlySorted(KeysOf(handles)) ==> QuietlyGivenBack(s0, s, handles, i, err))
  }

  ghost predicate QuietlyGivenBack(s0: Store, s: Store, handles: seq<Handle>, i: nat, err: Option<Error>) {
    && s.now == s0.now
    && (forall k :: (forall j :: i <= j < |handles| ==> handles[j].key != k) ==> Lock(s, k) == Lock(s0, k))
    && err == if OwnedFrom(s0, handles, i) then None else Some(Lost)
  }

  function FirstError(err: Option<Error>, owned: bool): Option<Error> {
    if err.None? && !owned then Some(Lost) else err
  }

  lemma OneMoreQuietly(s0: Store, s: Store, handles: seq<Handle>, i: nat, err: Option<Error>)
    requires i < |handles| && StrictlySorted(KeysOf(handles))
    requires QuietlyGivenBack(s0, s, handles, i + 1, err)
    ensures var h := handles[i];
            QuietlyGivenBack(s0, Next(s, Release(h.key, h.token)), handles, i,
                             FirstError(err, Owns(Lock(s, h.key), s.now, h.token)))
  {
    var keys := KeysOf(handles);
    forall j | i < j < |handles| ensures handles[j].key != handles[i].key {
      assert Before(keys[i], keys[j]);
    }
  }

  lemma OneMoreGivenBack(env: Environment, s0: Store, s: Store, mid: Store, handles: seq<Handle>, i: nat, err: Option<Error>)
    requires i < |handles| && AllMine(env, handles)
    requires GivenBack(env, s0, s, handles, i + 1, err) && Elapses(env, s, mid)
    ensures var h := handles[i];
            GivenBack(env, s0, Next(mid, Release(h.key, h.token)), handles, i,
                      FirstError(err, Owns(Lock(mid, h.key), mid.now, h.token)))
  {
    var taken := handles[..i + 1];
    HandlesSurvive(env, s, mid, taken, 0);
    if OwnsOnly(env, s0, handles) {
      HandleLeaves(env, mid, taken);
      assert taken[..i] == handles[..i];
    }
    if Quiet(env) && StrictlySorted(KeysOf(handles)) {
      OneMoreQuietly(s0, s, handles, i, err);
    }
  }

  // A rollback from s0 has given back handles i and up.
  ghost predicate RollingBack(env: Environment, s0: Store, s: Store, handles: seq<Handle>, i: nat)
    requires i <= |handles|
  {
    && ForeignStand(env, s0, s)
    && (Reliable(env) && OwnsOnly(env, s0, handles) ==> OwnsOnly(env, s, handles[..i]))
    && (Quiet(env) ==> s.now == s0.now && NoneNew(env, s0, s))
  }

  lemma OneMoreRolledBack(env: Environment, s0: Store, s: Store, mid: Store, v: Store, handles: seq<Handle>, i: nat)
    requires i < |handles| && AllMine(env, handles)
    requires RollingBack(env, s0, s, handles, i + 1) && Elapses(env, s, mid)
    requires v == mid || v == Next(mid, Release(handles[i].key, handles[i].token))
    requires Reliable(env) ==> v == Next(mid, Release(handles[i].key, handles[i].token))
    ensures RollingBack(env, s0, v, handles, i)
  {
    var op, taken := Release(handles[i].key, handles[i].token), handles[..i + 1];
    StandingComposes(env, s0, s, mid);
    OwnOpIsFair(env, s0, mid, op);
    HandlesSurvive(env, s, mid, taken, 0);
    if Quiet(env) {
      OwnOpBringsNone(env, s0, mid, op);
    }
    if OwnsOnly(env, mid, taken) {
      HandleLeaves(env, mid, taken);
      assert taken[..i] == handles[..i];
    }
  }

  // One of the calls from number a up to number b failed.
  ghost predicate SomeFailed(env: Environment, a: nat, b: nat) {
    exists n: nat :: a <= n < b && env.delivery(n).Failed?
  }

  // The first error of the releases that were calls a up to b.
  ghost predicate FirstFailure(env: Environment, a: nat, b: nat, err: Option<Error>) {
    && (err.None? ==> !SomeFailed(env, a, b))
    && (err == Some(Backend) ==> SomeFailed(env, a, b))
    && (err.Some? ==> a < b && err.value in {Backend, Lost})
    && (a < b && env.delivery(a).Failed? ==> err == Some(Backend))
  }

  lemma FailureKept(env: Environment, a: nat, b: nat, err: Option<Error>, res: Result<(), Error>)
    requires a <= b && FirstFailure(env, a, b, err)
    requires env.delivery(b).Failed? ==> res == Err(Backend)
    requires env.delivery(b).Answered? ==> res == Ok(()) || res == Err(Lost)
    ensures FirstFailure(env, a, b + 1, if err.None? && res.Err? then Some(res.error) else err)
  {
    if env.delivery(b).Failed? {
      assert SomeFailed(env, a, b + 1);
    }
    if SomeFailed(env, a, b) {
      assert SomeFailed(env, a, b + 1);
    }
  }

  class Manager {
    const env: Environment
    var now: nat
    var cells: map<Key, Cell>
    var calls: nat

    constructor (env: Environment)
      ensures this.env == env && View() == Store(0, map[]) && calls == 0
    {
      this.env, now, cells, calls := env, 0, map[], 0;
    }

    function View(): Store
      reads this
    {
      Store(now, cells)
    }

    method Perform(op: Op)
      modifies this`now, this`cells
      ensures View() == Next(old(View()), op)
    {
      match op {
        case Acquire(k, t, ttl) => var _, _ := RunAcquire(k, t, ttl);
        case Extend(k, t, ttl) =>
          var (m, _) := Mutex.ExtendStep(Single(View(), k), t, ttl, ttl * Mutex.FENCE_TTL_MULTIPLIER);
          cells := cells[k := Cell(m.lock, m.counter)];
        case Release(k, t) => var _ := RunRelease(k, t);
        case Tick(d) => now := now + d;
      }
    }

    method RunAcquire(k: Key, t: Token, ttl: nat) returns (status: nat, fence: nat)
      modifies this`cells
      ensures View() == Next(old(View()), Acquire(k, t, ttl))
      ensures fence == FenceOf(old(View()), k, t, ttl)
      ensures status <= 2 && (status != 0 <==> AcquireGrants(Lock(old(View()), k), now, t))
    {
      var (m, st, f) := Mutex.AcquireStep(Single(View(), k), t, ttl, ttl * Mutex.FENCE_TTL_MULTIPLIER);
      cells := cells[k := Cell(m.lock, m.counter)];
      status, fence := st, f;
    }

    method RunRelease(k: Key, t: Token) returns (ok: nat)
      modifies this`cells
      ensures View() == Next(old(View()), Release(k, t))
      ensures ok == if Owns(Lock(old(View()), k), now, t) then 1 else 0
    {
      var (m, o) := Mutex.ReleaseStep(Single(View(), k), t);
      cells := cells[k := Cell(m.lock, m.counter)];
      ok := o;
    }

    // Others act, then this client's next call goes out.
    method NextCall() returns (n: nat)
      requires WellFormed(env)
      modifies this
      ensures n == old(calls) && calls == n + 1
      ensures Elapses(env, old(View()), View()) && View() == AfterOps(old(View()), env.others(n))
    {
      n := calls;
      calls := calls + 1;
      var ops := env.others(n);
      for i := 0 to |ops|
        invariant calls == n + 1 && Elapses(env, old(View()), View()) && View() == AfterOps(old(View()), ops[..i])
      {
        assert ops[..i + 1][..i] == ops[..i];
        ForeignOpIsFair(env, old(View()), View(), n, i);
        Perform(ops[i]);
      }
      assert ops[..|ops|] == ops;
    }

    // try_lock_with
    method TryLockWith(key: Key, ttl: nat) returns (r: Result<Handle, Error>, ghost mid: Store)
      requires WellFormed(env)
      modifies this
      ensures calls >= old(calls)
      ensures ttl < Mutex.MIN_TTL <==> r == Err(InvalidConfig)
      ensures r == Err(InvalidConfig) ==> View() == mid == old(View())
      ensures ttl >= 10 ==> mid == AfterOps(old(View()), env.others(old(calls)))
      ensures ttl >= 10 ==> calls == old(calls) + 1 && (r == Err(Backend) <==> env.delivery(old(calls)).Failed?)
      ensures Elapses(env, old(View()), mid)
      ensures r.Ok? ==>
                At(View(), key) == Cell(Some(Lease(r.value.token, now + ttl)), Some(Mutex.Counter(r.value.fence, now + 10 * ttl)))
      ensures var t := env.ids(old(calls));
              match r
              case Ok(h) => h.key == key && h.token == t && View() == Next(mid, Acquire(key, t, ttl))
                            && AcquireGrants(Lock(mid, key), mid.now, t) && h.fence == FenceOf(mid, key, t, ttl)
              case Err(Held) => View() == mid && Live(Lock(mid, key), mid.now)
              case Err(Backend) => !Reliable(env) && (View() == mid || View() == Next(mid, Acquire(key, t, ttl)))
              case Err(e) => e == InvalidConfig
    {
      mid := View();
      if ttl < Mutex.MIN_TTL {
        r := Err(InvalidConfig);
        return;
      }
      var n := NextCall();
      mid := View();
      var t := env.ids(n);
      if env.delivery(n) == Mutex.Failed(false) {
        r := Err(Backend);
        return;
      }
      var status, fence := RunAcquire(key, t, ttl);
      if env.delivery(n) == Mutex.Failed(true) {
        r := Err(Backend);
      } else if status == 1 || status == 2 {
        r := Ok(Handle(key, t, fence));
      } else {
        RefusalChangesNothing(mid, key, t, ttl);
        r := Err(Held);
      }
    }

    // release, on a handle not released before
    method ReleaseHandle(h: Handle) returns (r: Result<(), Error>, ghost mid: Store)
      requires WellFormed(env)
      modifies this
      ensures calls == old(calls) + 1
      ensures Elapses(env, old(View()), mid) && mid == AfterOps(old(View()), env.others(old(calls)))
      ensures View() == if env.delivery(old(calls)) == Mutex.Failed(false) then mid else Next(mid, Release(h.key, h.token))
      ensures r == if env.delivery(old(calls)).Failed? then Err(Backend)
                   else if Owns(Lock(mid, h.key), mid.now, h.token) then Ok(()) else Err(Lost)
    {
      var n := NextCall();
      mid := View();
      if env.delivery(n) == Mutex.Failed(false) {
        r := Err(Backend);
        return;
      }
      var ok := RunRelease(h.key, h.token);
      if env.delivery(n) == Mutex.Failed(true) {
        r := Err(Backend);
      } else {
        r := if ok == 1 then Ok(()) else Err(Lost);
      }
    }

    // The same, on a handle of this client's.
    method ReleaseOwn(h: Handle) returns (r: Result<(), Error>, ghost mid: Store)
      requires WellFormed(env) && env.mine(h.token)
      modifies this
      ensures calls == old(calls) + 1
      ensures Elapses(env, old(View()), mid) && ForeignStand(env, old(View()), View())
      ensures View() == if env.delivery(old(calls)) == Mutex.Failed(false) then mid else Next(mid, Release(h.key, h.token))
      ensures r == if env.delivery(old(calls)).Failed? then Err(Backend)
                   else if Owns(Lock(mid, h.key), mid.now, h.token) then Ok(()) else Err(Lost)
    {
      r, mid := ReleaseHandle(h);
      OwnOpIsFair(env, old(View()), mid, Release(h.key, h.token));
    }

    // Give back, in reverse order, what an attempt took.
    method RollBack(handles: seq<Handle>)
      requires WellFormed(env) && AllMine(env, handles)
      modifies this
      ensures calls >= old(calls)
      ensures ForeignStand(env, old(View()), View())
      ensures Reliable(env) && old(OwnsOnly(env, View(), handles)) ==> OwnsOnly(env, View(), [])
      ensures Quiet(env) ==> now == old(now) && NoneNew(env, old(View()), View())
    {
      var i := |handles|;
      assert handles[..i] == handles;
      while i > 0
        invariant 0 <= i <= |handles| && calls >= old(calls)
        invariant RollingBack(env, old(View()), View(), handles, i)
      {
        ghost var s := View();
        i := i - 1;
        var _, mid := ReleaseHandle(handles[i]);
        OneMoreRolledBack(env, old(View()), s, mid, View(), handles, i);
      }
    }

    // The same after a failed acquisition, which was refused or ran unheard.
    method BackOut(handles: seq<Handle>, ghost op: Op, ghost s0: Store, ghost mid: Store)
      requires WellFormed(env) && AllMine(env, handles) && op.Acquire? && env.mine(op.token)
      requires ForeignStand(env, s0, mid) && (Quiet(env) ==> mid.now == s0.now && NoneNew(env, s0, mid))
      requires View() == mid || View() == Next(mid, op)
      modifies this
      ensures calls >= old(calls) && ForeignStand(env, s0, View())
      ensures Reliable(env) && old(OwnsOnly(env, View(), handles)) ==> OwnsOnly(env, View(), [])
      ensures Quiet(env) ==> now == s0.now && NoneNew(env, s0, View())
    {
      OwnOpIsFair(env, s0, mid, op);
      if Quiet(env) {
        OwnOpBringsNone(env, s0, mid, op);
      }
      RollBack(handles);
      StandingComposes(env, s0, old(View()), View());
    }

    // The next key, after sorted[..i] have been taken: one more handle, or none at all.
    method TakeNext(sorted: seq<Key>, i: nat, ttl: nat, handles: seq<Handle>, ghost s0: Store)
      returns (handles': seq<Handle>, err: Option<Error>)
      requires WellFormed(env) && calls >= env.first && StrictlySorted(sorted) && i < |sorted|
      requires Progress(env, s0, View(), sorted[..i], handles, ttl) && (i > 0 ==> ttl >= Mutex.MIN_TTL)
      modifies this
      ensures err.None? ==>
                && ttl >= Mutex.MIN_TTL && calls == old(calls) + 1 && !env.delivery(old(calls)).Failed?
                && Progress(env, s0, View(), sorted[..i + 1], handles', ttl)
      ensures err.Some? ==>
                && calls >= old(calls) && ForeignStand(env, s0, View())
                && (Reliable(env) ==> OwnsOnly(env, View(), []))
                && (Quiet(env) ==> now == s0.now && NoneNew(env, s0, View()))
                && match err.value
                   case InvalidConfig => ttl < Mutex.MIN_TTL
                   case Backend => calls > old(calls) && env.delivery(old(calls)).Failed?
                   case Held => Quiet(env) ==> !AllFree(s0, sorted)
                   case _ => false
    {
      ghost var s, n := View(), calls;
      var r, mid := TryLockWith(sorted[i], ttl);
      ProgressStays(env, s0, s, mid, sorted[..i], handles, ttl);
      handles', err := handles, None;
      match r {
        case Ok(h) =>
          ProgressGrows(env, s0, mid, sorted[..i], handles, ttl, h);
          assert sorted[..i + 1] == sorted[..i] + [h.key];
          handles' := handles + [h];
        case Err(e) =>
          err := Some(e);
          if e == Held || e == Backend {
            BackOut(handles, Acquire(sorted[i], env.ids(n), ttl), s0, mid);
          }
      }
    }

    // One pass over the sorted keys: all of them, or none and the reason.
    method Attempt(sorted: seq<Key>, ttl: nat) returns (handles: seq<Handle>, err: Option<Error>)
      requires WellFormed(env) && calls >= env.first && StrictlySorted(sorted)
      requires Reliable(env) ==> OwnsOnly(env, View(), [])
      modifies this
      ensures calls >= old(calls)
      ensures ForeignStand(env, old(View()), View())
      ensures err.None? ==> Progress(env, old(View()), View(), sorted, handles, ttl)
      ensures err.None? ==> calls == old(calls) + |sorted| && !SomeFailed(env, old(calls), calls)
      ensures err.Some? && Reliable(env) ==> OwnsOnly(env, View(), [])
      ensures err.Some? ==> match err.value
                            case InvalidConfig => ttl < Mutex.MIN_TTL
                            case Backend => SomeFailed(env, old(calls), calls)
                            case Held => Quiet(env) ==> !old(AllFree(View(), sorted))
                            case _ => false
      ensures Quiet(env) ==> now == old(now) && (err.Some? ==> NoneNew(env, old(View()), View()))
    {
      handles := [];
      for i := 0 to |sorted|
        invariant Progress(env, old(View()), View(), sorted[..i], handles, ttl)
        invariant calls == old(calls) + i && !SomeFailed(env, old(calls), calls) && (i > 0 ==> ttl >= Mutex.MIN_TTL)
      {
        handles, err := TakeNext(sorted, i, ttl, handles, old(View()));
        if err.Some? {
          return;
        }
      }
      assert sorted[..|sorted|] == sorted;
      err := None;
    }

    // try_lock_all; with first set to its first call, mine are the ids minted by
    // this very call.
    method TryLockAll(keys: seq<Key>, ttl: nat, wait: nat) returns (r: Result<MultiLockHandle, Error>, ghost started: Store)
      requires WellFormed(env) && calls >= env.first
      requires Reliable(env) ==> OwnsOnly(env, View(), [])
      modifies this
      ensures r == Err(InvalidConfig) <==> ttl < Mutex.MIN_TTL || HasDuplicate(keys)
      ensures r == Err(InvalidConfig) ==> View() == old(View())
      ensures ForeignStand(env, old(View()), View())
      ensures match r
              case Ok(m) =>
                && fresh(m) && m.Unreleased()
                && StrictlySorted(KeysOf(m.handles)) && multiset(KeysOf(m.handles)) == multiset(keys)
                && ForeignStand(env, old(View()), started)
                && Progress(env, started, View(), KeysOf(m.handles), m.handles, ttl)
                && calls >= old(calls) + |keys| && !SomeFailed(env, calls - |keys|, calls)
              case Err(e) =>
                && (Reliable(env) ==> OwnsOnly(env, View(), []) && e in {InvalidConfig, Timeout})
                && e in {InvalidConfig, Timeout, Backend}
                && (e == Timeout ==> now >= old(now) + wait)
                && (e == Backend ==> SomeFailed(env, old(calls), calls))
      ensures Reliable(env) && Quiet(env) && r != Err(InvalidConfig) ==>
                var last := old(now) + 20 * ((wait + 19) / 20);
                && (r.Ok? <==> FreeBy(old(View()), keys, last))
                && if r.Ok? then FreeBy(old(View()), keys, now) && now <= last else r == Err(Timeout) && now == last
    {
      started := View();
      if ttl < Mutex.MIN_TTL {
        r := Err(InvalidConfig);
        return;
      }
      var sorted := Sort(keys);
      var dup := AdjacentDuplicate(sorted);
      if dup {
        r := Err(InvalidConfig);
        return;
      }
      SameKeys(keys, sorted);
      assert |sorted| == |multiset(sorted)| == |keys|;
      var deadline := now + wait;
      ghost var polls: nat := 0;
      while true
        invariant calls >= old(calls) && ForeignStand(env, old(View()), View())
        invariant Reliable(env) ==> OwnsOnly(env, View(), [])
        invariant Reliable(env) && Quiet(env) ==> Waited(env, old(View()), View(), polls, wait)
        decreases deadline - now
      {
        started := View();
        var handles, err := Attempt(sorted, ttl);
        StandingComposes(env, old(View()), started, View());
        if Reliable(env) && Quiet(env) {
          QuietEnd(env, old(View()), started, keys, sorted, polls, wait);
        }
        match err {
          case None =>
            var m := new MultiLockHandle(handles);
            assert KeysOf(handles) == sorted;
            r := Ok(m);
            return;
          case Some(Held) =>
          case Some(other) =>
            r := Err(other);
            return;
        }
        if now >= deadline {
          r := Err(Timeout);
          return;
        }
        ghost var waiting := View();
        now := now + POLL_INTERVAL;
        assert View() == Next(waiting, Tick(POLL_INTERVAL));
        OwnOpIsFair(env, old(View()), waiting, Tick(POLL_INTERVAL));
        SleepGainsNothing(env, waiting, POLL_INTERVAL);
        if Reliable(env) && Quiet(env) {
          SleepBringsNone(env, old(View()), waiting, started, polls, wait);
        }
        polls := polls + 1;
      }
    }

    // One key of release_all, the calls from number a on being its own.
    method ReleaseOne(m: MultiLockHandle, i: nat, firstErr: Option<Error>, ghost s0: Store, ghost a: nat) returns (err: Option<Error>)
      requires WellFormed(env) && AllMine(env, m.handles) && m.Valid() && i < |m.handles|
      requires a <= calls && ForeignStand(env, s0, View()) && FirstFailure(env, a, calls, firstErr)
      modifies this, m
      ensures m.released == old(m.released)[i := true]
      ensures calls == old(calls) + 1 && ForeignStand(env, s0, View()) && FirstFailure(env, a, calls, err)
      ensures Reliable(env) && GivenBack(env, s0, old(View()), m.handles, i + 1, firstErr) ==>
                GivenBack(env, s0, View(), m.handles, i, err)
    {
      m.released := m.released[i := true];
      var res, mid := ReleaseOwn(m.handles[i]);
      FailureKept(env, a, old(calls), firstErr, res);
      err := if res.Err? && firstErr.None? then Some(res.error) else firstErr;
      StandingComposes(env, s0, old(View()), View());
      if Reliable(env) && GivenBack(env, s0, old(View()), m.handles, i + 1, firstErr) {
        OneMoreGivenBack(env, s0, old(View()), mid, m.handles, i, firstErr);
      }
    }

    // release_all: in reverse order, keeping the first error; a key already
    // released is skipped.
    method ReleaseAll(m: MultiLockHandle) returns (r: Result<(), Error>)
      requires WellFormed(env) && AllMine(env, m.handles) && m.Valid()
      modifies this, m
      ensures m.Released()
      ensures ForeignStand(env, old(View()), View())
      ensures Reliable(env) && old(m.Unreleased() && OwnsOnly(env, View(), m.handles)) ==> OwnsOnly(env, View(), [])
      ensures old(m.Released()) ==> r == Ok(()) && View() == old(View())
      ensures Reliable(env) && Quiet(env) && old(m.Unreleased()) && StrictlySorted(KeysOf(m.handles)) ==>
                r == if old(OwnedFrom(View(), m.handles, 0)) then Ok(()) else Err(Lost)
      ensures r.Err? ==> r.error in {Backend, Lost}
      ensures old(m.Unreleased()) ==> calls == old(calls) + |m.handles|
      ensures r == Err(Backend) ==> SomeFailed(env, old(calls), calls)
      ensures r.Ok? ==> !SomeFailed(env, old(calls), calls)
      ensures calls > old(calls) && env.delivery(old(calls)).Failed? ==> r == Err(Backend)
    {
      var i := |m.handles|;
      var firstErr: Option<Error> := None;
      while i > 0
        invariant 0 <= i <= |m.handles| && m.Valid()
        invariant forall j :: 0 <= j < |m.handles| ==> m.released[j] == (j >= i || old(m.released)[j])
        invariant ForeignStand(env, old(View()), View())
        invariant old(m.Released()) ==> firstErr.None? && View() == old(View())
        invariant calls >= old(calls) && (old(m.Unreleased()) ==> calls == old(calls) + |m.handles| - i)
        invariant FirstFailure(env, old(calls), calls, firstErr)
        invariant Reliable(env) && old(m.Unreleased()) ==> GivenBack(env, old(View()), View(), m.handles, i, firstErr)
      {
        i := i - 1;
        if !m.released[i] {
          firstErr := ReleaseOne(m, i, firstErr, old(View()), old(calls));
        }
      }
      r := if firstErr.None? then Ok(()) else Err(firstErr.value);
    }
  }
}
