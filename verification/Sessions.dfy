/** Server-side sessions: liveness by heartbeat, locks bound to a session, and
    the sweeper that closes sessions silent for longer than their time to live. */
module Sessions {
  import opened Common
  import opened KeyStore
  import Mutex

  datatype Bound = Bound(key: Key, token: Token)

  datatype Entry = Entry(client: string, ttl: nat, lastSeen: nat, hbFloor: nat, locks: seq<Bound>)

  datatype HbResult = Accepted | RateLimited | Unknown

  type Book = map<Token, Entry>

  // Strictly longer than the time to live.
  predicate Expired(e: Entry, now: nat) {
    now > e.lastSeen + e.ttl
  }

  function Opened(client: string, ttl: nat, now: nat): Entry {
    Entry(client, ttl, now, now, [])
  }

  // ----------------------------------------------------------------------
  // Heartbeats
  // ----------------------------------------------------------------------

  function Beat(e: Entry, now: nat): (Entry, HbResult) {
    if now < e.hbFloor then (e, RateLimited)
    else (e.(hbFloor := now + e.ttl / 20, lastSeen := now), Accepted)
  }

  // The entry after heartbeats at the given times, and each answer.
  function Beats(e: Entry, times: seq<nat>): (r: (Entry, seq<HbResult>))
    ensures |r.1| == |times|
  {
    if times == [] then (e, [])
    else
      var n := |times| - 1;
      var before := Beats(e, times[..n]);
      var last := Beat(before.0, times[n]);
      (last.0, before.1 + [last.1])
  }

  // Each beat comes at least gap after the one before it.
  ghost predicate Spaced(times: seq<nat>, gap: nat) {
    forall i :: 0 < i < |times| ==> times[i] >= times[i - 1] + gap
  }

  ghost predicate AllAccepted(answers: seq<HbResult>) {
    forall i :: 0 <= i < |answers| ==> answers[i] == Accepted
  }

  function LastBeat(start: nat, times: seq<nat>): nat {
    if times == [] then start else times[|times| - 1]
  }

  // From registration on, every beat is accepted iff they are ttl/20 apart; then
  // the session was last seen at the last of them.
  lemma {:induction false} SpacedBeatsAreAccepted(client: string, ttl: nat, start: nat, times: seq<nat>)
    requires forall i :: 0 <= i < |times| ==> times[i] >= start
    ensures var (e, answers) := Beats(Opened(client, ttl, start), times);
            && (AllAccepted(answers) <==> Spaced(times, ttl / 20))
            && e.ttl == ttl
            && (Spaced(times, ttl / 20) ==>
                  && e.lastSeen == LastBeat(start, times)
                  && e.hbFloor == LastBeat(start, times) + if times == [] then 0 else ttl / 20)
  {
    if times != [] {
      var n := |times| - 1;
      SpacedBeatsAreAccepted(client, ttl, start, times[..n]);
      var (e, answers) := Beats(Opened(client, ttl, start), times[..n]);
      var all := Beats(Opened(client, ttl, start), times).1;
      assert all == answers + [Beat(e, times[n]).1];
      assert forall i :: 0 <= i < n ==> times[..n][i] == times[i];
      assert AllAccepted(all) <==> AllAccepted(answers) && all[n] == Accepted by {
        assert forall i :: 0 <= i < n ==> all[i] == answers[i];
      }
      assert Spaced(times, ttl / 20) <==> Spaced(times[..n], ttl / 20) && (n > 0 ==> times[n] >= times[n - 1] + ttl / 20);
    }
  }

  // Beats between ttl/20 and ttl apart, such as one every ttl/3, keep the
  // session alive at every moment up to the next beat, or up to ttl after the last.
  lemma SteadyBeatsKeepTheSession(client: string, ttl: nat, start: nat, times: seq<nat>, i: nat, now: nat)
    requires Spaced(times, ttl / 20) && (times != [] ==> times[0] >= start) && i <= |times|
    requires forall j :: 0 <= j < |times| ==> times[j] <= LastBeat(start, times[..j]) + ttl
    requires now <= if i < |times| then times[i] else LastBeat(start, times) + ttl
    ensures !Expired(Beats(Opened(client, ttl, start), times[..i]).0, now)
  {
    forall j | 0 <= j < |times| ensures times[j] >= start {
      StartIsEarliest(ttl / 20, start, times, j);
    }
    SpacedBeatsAreAccepted(client, ttl, start, times[..i]);
    assert i == |times| ==> times[..i] == times;
  }

  lemma {:induction false} StartIsEarliest(gap: nat, start: nat, times: seq<nat>, i: nat)
    requires i < |times| && times[0] >= start && Spaced(times, gap)
    ensures times[i] >= start
  {
    if i > 0 {
      StartIsEarliest(gap, start, times, i - 1);
    }
  }

  // No session waits longer for its next beat than ttl/20 from when it was seen.
  predicate Paced(b: Book, now: nat) {
    forall t :: t in b ==> b[t].lastSeen <= now && b[t].hbFloor <= b[t].lastSeen + b[t].ttl / 20
  }

  // An expired session's heartbeat is always accepted, and revives it.
  lemma LateBeatRevives(e: Entry, now: nat)
    requires e.hbFloor <= e.lastSeen + e.ttl / 20 && Expired(e, now)
    ensures Beat(e, now).1 == Accepted && !Expired(Beat(e, now).0, now)
  {
  }

  // ----------------------------------------------------------------------
  // Releasing bound locks
  // ----------------------------------------------------------------------

  function FreeAll(s: Store, locks: seq<Bound>): Store {
    if locks == [] then s
    else
      var n := |locks| - 1;
      Next(FreeAll(s, locks[..n]), Release(locks[n].key, locks[n].token))
  }

  // Key k is held, by one of the given tokens for it.
  predicate HeldThrough(s: Store, k: Key, locks: seq<Bound>) {
    Live(Lock(s, k), s.now) && Bound(k, Lock(s, k).value.token) in locks
  }

  // Exactly the keys still owned by a bound token are freed; a successor's lock
  // on the same key, and every fence counter, stays as it was.
  lemma {:induction false} FreesExactlyTheOwned(s: Store, locks: seq<Bound>, k: Key)
    ensures FreeAll(s, locks).now == s.now
    ensures At(FreeAll(s, locks), k) == if HeldThrough(s, k, locks) then Cell(None, At(s, k).counter) else At(s, k)
  {
    if locks != [] {
      var n := |locks| - 1;
      FreesExactlyTheOwned(s, locks[..n], k);
      assert locks == locks[..n] + [locks[n]];
    }
  }

  // The keys a release of all pairs really frees.
  function FreedKeys(s: Store, locks: seq<Bound>): set<Key> {
    set b | b in locks && HeldThrough(s, b.key, locks) :: b.key
  }

  function KeysOf(locks: seq<Bound>): set<Key> {
    set b | b in locks :: b.key
  }

  predicate DistinctKeys(locks: seq<Bound>) {
    forall i, j :: 0 <= i < j < |locks| ==> locks[i].key != locks[j].key
  }

  predicate AllHeld(s: Store, locks: seq<Bound>) {
    forall b :: b in locks ==> HeldThrough(s, b.key, locks)
  }

  lemma DistinctKeysSnoc(past: seq<Bound>, b: Bound)
    ensures KeysOf(past + [b]) == KeysOf(past) + {b.key}
    ensures DistinctKeys(past + [b]) <==> DistinctKeys(past) && b.key !in KeysOf(past)
  {
    var locks := past + [b];
    if DistinctKeys(locks) {
      forall c | c in past ensures c.key != b.key {
        var i :| 0 <= i < |past| && past[i] == c;
        assert locks[i] == c && locks[|past|] == b;
      }
      assert forall i :: 0 <= i < |past| ==> locks[i] == past[i];
    }
  }

  lemma {:induction false} DistinctKeysCount(locks: seq<Bound>)
    ensures |KeysOf(locks)| <= |locks|
    ensures |KeysOf(locks)| == |locks| <==> DistinctKeys(locks)
  {
    if locks != [] {
      var past, b := locks[..|locks| - 1], locks[|locks| - 1];
      DistinctKeysCount(past);
      DistinctKeysSnoc(past, b);
      assert locks == past + [b];
      assert b.key in KeysOf(past) ==> KeysOf(past) + {b.key} == KeysOf(past);
    }
  }

  lemma SubsetCount<T>(a: set<T>, b: set<T>)
    requires a <= b
    ensures |a| <= |b| && (|a| == |b| <==> a == b)
  {
    assert b == a + (b - a) && |b| == |a| + |b - a|;
  }

  lemma FreedKeysAreFreed(s: Store, locks: seq<Bound>, k: Key)
    ensures k in FreedKeys(s, locks) <==> Live(Lock(s, k), s.now) && Lock(FreeAll(s, locks), k).None?
  {
    FreesExactlyTheOwned(s, locks, k);
    if HeldThrough(s, k, locks) {
      assert Bound(k, Lock(s, k).value.token) in locks;
    }
  }

  lemma AllHeldFreesAll(s: Store, locks: seq<Bound>)
    ensures FreedKeys(s, locks) <= KeysOf(locks)
    ensures FreedKeys(s, locks) == KeysOf(locks) <==> AllHeld(s, locks)
  {
    if FreedKeys(s, locks) == KeysOf(locks) {
      forall b | b in locks ensures HeldThrough(s, b.key, locks) {
        assert b.key in KeysOf(locks);
      }
    }
  }

  // The number of pairs is the number of keys freed exactly when every bound key
  // is held through one of the pairs and no key is bound twice; otherwise it is
  // larger.
  lemma CountIsExact(s: Store, locks: seq<Bound>)
    ensures forall k :: k in FreedKeys(s, locks) <==> Live(Lock(s, k), s.now) && Lock(FreeAll(s, locks), k).None?
    ensures |FreedKeys(s, locks)| <= |locks|
    ensures |FreedKeys(s, locks)| == |locks| <==> AllHeld(s, locks) && DistinctKeys(locks)
  {
    forall k ensures k in FreedKeys(s, locks) <==> Live(Lock(s, k), s.now) && Lock(FreeAll(s, locks), k).None? {
      FreedKeysAreFreed(s, locks, k);
    }
    DistinctKeysCount(locks);
    AllHeldFreesAll(s, locks);
    SubsetCount(FreedKeys(s, locks), KeysOf(locks));
  }

  // A lapsed lock, and a lock bound twice, are counted all the same.
  lemma CountExceedsFreed(key: Key, token: Token, expiry: nat)
    requires expiry > 0
    ensures var lapsed := Store(expiry, map[key := Cell(Some(Lease(token, expiry)), None)]);
            FreedKeys(lapsed, [Bound(key, token)]) == {}
    ensures var held := Store(0, map[key := Cell(Some(Lease(token, expiry)), None)]);
            |FreedKeys(held, [Bound(key, token), Bound(key, token)])| == 1
  {
    var held := Store(0, map[key := Cell(Some(Lease(token, expiry)), None)]);
    var twice := [Bound(key, token), Bound(key, token)];
    assert twice[0] in twice && HeldThrough(held, key, twice);
    assert FreedKeys(held, twice) == {key};
  }

  // ----------------------------------------------------------------------
  // Sweeping
  // ----------------------------------------------------------------------

  predicate FreedWith(b: Book, s: Store, tokens: set<Token>, k: Key) {
    exists t :: t in tokens && t in b && HeldThrough(s, k, b[t].locks)
  }

  // From (b0, s0), exactly the given sessions have been closed.
  ghost predicate Closed(b0: Book, s0: Store, tokens: set<Token>, b: Book, s: Store) {
    && b == (map t | t in b0 && t !in tokens :: b0[t])
    && s.now == s0.now
    && forall k :: At(s, k) == if FreedWith(b0, s0, tokens, k) then Cell(None, At(s0, k).counter) else At(s0, k)
  }

  lemma OneMoreClosed(b0: Book, s0: Store, tokens: set<Token>, b: Book, s: Store, t: Token)
    requires Closed(b0, s0, tokens, b, s) && t in b
    ensures Closed(b0, s0, tokens + {t}, b - {t}, FreeAll(s, b[t].locks))
  {
    var s1 := FreeAll(s, b[t].locks);
    FreesExactlyTheOwned(s, b[t].locks, "");
    forall k
      ensures At(s1, k) == if FreedWith(b0, s0, tokens + {t}, k) then Cell(None, At(s0, k).counter) else At(s0, k)
    {
      FreesExactlyTheOwned(s, b[t].locks, k);
      assert HeldThrough(s, k, b[t].locks) <==> !FreedWith(b0, s0, tokens, k) && HeldThrough(s0, k, b0[t].locks);
    }
  }

  // What other callers can do before any store call of this one, and before a
  // sweep turns to the next session. The releases of a Close are AtStore events.
  datatype Event =
    | Register(token: Token, client: string, ttl: nat)
    | Heartbeat(token: Token)
    | Bind(token: Token, key: Key, lockToken: Token)
    | Close(token: Token)
    | AtStore(op: Op)

  datatype Environment = Environment(between: nat -> seq<Event>, delivery: nat -> Mutex.Delivery)

  const Undisturbing: Environment := Environment(_ => [], _ => Mutex.Answered)

  predicate Concerns(e: Event, t: Token) {
    !e.AtStore? && e.token == t
  }

  function ExpiredSessions(b: Book, now: nat): set<Token> {
    set t | t in b && Expired(b[t], now)
  }

  // Nobody else so much as touches session t, or at least nobody closes it.
  ghost predicate Undisturbed(env: Environment, t: Token) {
    forall n, i :: 0 <= i < |env.between(n)| ==> !Concerns(env.between(n)[i], t)
  }

  ghost predicate NotClosed(env: Environment, t: Token) {
    forall n, i :: 0 <= i < |env.between(n)| ==> env.between(n)[i] != Close(t)
  }

  // Nobody acquires key k under lock token t again.
  ghost predicate NotReacquired(env: Environment, k: Key, t: Token) {
    forall n, i :: 0 <= i < |env.between(n)| ==>
      !(env.between(n)[i].AtStore? && env.between(n)[i].op.Acquire? && Names(env.between(n)[i].op, k, t))
  }

  ghost predicate Quiet(env: Environment) {
    forall n :: env.between(n) == []
  }

  ghost predicate Reliable(env: Environment) {
    forall n :: env.delivery(n) == Mutex.Answered
  }

  // Session tokens are newly generated.
  ghost predicate NewTokens(env: Environment, known: set<Token>) {
    forall n, i :: 0 <= i < |env.between(n)| && env.between(n)[i].Register? ==> env.between(n)[i].token !in known
  }

  // What others can make of the book and the store, known being the tokens in use.
  ghost predicate Moves(env: Environment, known: set<Token>, b0: Book, b1: Book) {
    && (forall t :: t in known && t !in b0 ==> t !in b1)
    && (forall t :: t in known && t in b0 && NotClosed(env, t) ==> t in b1 && b0[t].locks <= b1[t].locks)
    && (forall t :: t in known && t in b0 && Undisturbed(env, t) ==> t in b1 && b1[t] == b0[t])
  }

  ghost predicate NoRevival(env: Environment, s0: Store, s1: Store) {
    forall k, t :: NotReacquired(env, k, t) && Owns(Lock(s1, k), s1.now, t) ==> Owns(Lock(s0, k), s0.now, t)
  }

  lemma EventMoves(env: Environment, known: set<Token>, b: Book, n: nat, i: nat, b1: Book, e1: Entry)
    requires i < |env.between(n)| && NewTokens(env, known)
    requires var e := env.between(n)[i];
             match e
             case Register(t, _, _) => b1 == b[t := e1]
             case Heartbeat(t) => b1 == b || (t in b && b1 == b[t := e1] && e1.locks == b[t].locks)
             case Bind(t, _, _) => b1 == b || (t in b && b1 == b[t := e1] && b[t].locks <= e1.locks)
             case Close(t) => b1 == b - {t}
             case AtStore(_) => b1 == b
    ensures Moves(env, known, b, b1)
  {
    var e := env.between(n)[i];
    assert forall t :: Undisturbed(env, t) ==> !Concerns(e, t);
    assert forall t :: NotClosed(env, t) ==> e != Close(t);
  }

  lemma OpRevivesNothing(env: Environment, s: Store, n: nat, i: nat)
    requires i < |env.between(n)| && env.between(n)[i].AtStore?
    ensures NoRevival(env, s, Next(s, env.between(n)[i].op))
  {
    var op := env.between(n)[i].op;
    forall k, t | NotReacquired(env, k, t) && Owns(Lock(Next(s, op), k), Next(s, op).now, t)
      ensures Owns(Lock(s, k), s.now, t)
    {
      LocksHaveAcquirers(s, op, k, t);
    }
  }

  // Of the doomed sessions of (b0, s0), all but the pending ones have been closed.
  ghost predicate Sweeping(env: Environment, b0: Book, s0: Store, doomed: set<Token>, pending: set<Token>, b: Book, s: Store) {
    && pending <= doomed <= b0.Keys
    && (forall t :: t in doomed && t !in pending ==> t !in b)
    && (forall t :: t in b0 && (t in doomed ==> t in pending) && NotClosed(env, t) ==> t in b && b0[t].locks <= b[t].locks)
    && (forall t :: t in b0 && t !in doomed && Undisturbed(env, t) ==> t in b && b[t] == b0[t])
    && (Reliable(env) ==> LocksSwept(env, b0, doomed - pending, s))
    && (Quiet(env) && Reliable(env) ==> Closed(b0, s0, doomed - pending, b, s))
  }

  // No lock the given sessions had bound at (b0, s0) is owned under its bound
  // token, unless somebody closed the session or acquired it again.
  ghost predicate LocksSwept(env: Environment, b0: Book, tokens: set<Token>, s: Store)
    requires tokens <= b0.Keys
  {
    forall t, x :: t in tokens && x in b0[t].locks && NotClosed(env, t) && NotReacquired(env, x.key, x.token) ==>
      !Owns(Lock(s, x.key), s.now, x.token)
  }

  lemma MoreLocksSwept(env: Environment, b0: Book, tokens: set<Token>, s: Store, t: Token, locks: seq<Bound>, s1: Store)
    requires tokens <= b0.Keys && t in b0 && LocksSwept(env, b0, tokens, s)
    requires NotClosed(env, t) ==> b0[t].locks <= locks
    requires Reliable(env) && AllReleased(env, s, locks, s1)
    ensures LocksSwept(env, b0, tokens + {t}, s1)
  {
    assert forall x :: NotClosed(env, t) && x in b0[t].locks ==> x in locks;
  }

  lemma SweepingMoves(env: Environment, b0: Book, s0: Store, doomed: set<Token>, pending: set<Token>,
                      b: Book, s: Store, b1: Book, s1: Store)
    requires Sweeping(env, b0, s0, doomed, pending, b, s)
    requires Moves(env, b0.Keys, b, b1) && NoRevival(env, s, s1)
    requires Quiet(env) ==> b1 == b && s1 == s
    ensures Sweeping(env, b0, s0, doomed, pending, b1, s1)
  {
  }

  // What has become of a session's locks after all its releases.
  ghost predicate AllReleased(env: Environment, s: Store, locks: seq<Bound>, s1: Store) {
    && NoRevival(env, s, s1)
    && (Reliable(env) ==> forall x :: x in locks && NotReacquired(env, x.key, x.token) ==>
          !Owns(Lock(s1, x.key), s1.now, x.token))
    && (Quiet(env) && Reliable(env) ==> s1 == FreeAll(s, locks))
  }

  lemma SweptOne(env: Environment, b0: Book, s0: Store, doomed: set<Token>, pending: set<Token>,
                 b: Book, s: Store, t: Token, b1: Book, s1: Store)
    requires t in pending && Sweeping(env, b0, s0, doomed, pending, b, s)
    requires Moves(env, b0.Keys, b - {t}, b1) && (Quiet(env) ==> b1 == b - {t})
    requires AllReleased(env, s, if t in b then b[t].locks else [], s1)
    ensures Sweeping(env, b0, s0, doomed, pending - {t}, b1, s1)
  {
    var done := doomed - pending;
    assert done + {t} == doomed - (pending - {t});
    if Reliable(env) {
      MoreLocksSwept(env, b0, done, s, t, if t in b then b[t].locks else [], s1);
    }
    if Quiet(env) && Reliable(env) {
      assert NotClosed(env, t) && t in b;
      OneMoreClosed(b0, s0, done, b, s, t);
    }
  }

  lemma OneMoreReleased(env: Environment, s0: Store, past: seq<Bound>, s: Store, s1: Store, b: Bound, s2: Store)
    requires AllReleased(env, s0, past, s) && NoRevival(env, s, s1) && (Quiet(env) ==> s1 == s)
    requires s2 == s1 || s2 == Next(s1, Release(b.key, b.token))
    requires Reliable(env) ==> s2 == Next(s1, Release(b.key, b.token))
    ensures AllReleased(env, s0, past + [b], s2)
  {
    assert (past + [b])[..|past|] == past;
    forall k, t | Owns(Lock(s2, k), s2.now, t) ensures Owns(Lock(s1, k), s1.now, t) {
      if s2 != s1 {
        LocksHaveAcquirers(s1, Release(b.key, b.token), k, t);
      }
    }
  }

  // The calls answered among len of them.
  function Answered(delivery: nat -> Mutex.Delivery, from: nat, len: nat): nat {
    if len == 0 then 0
    else Answered(delivery, from, len - 1) + if delivery(from + len - 1) == Mutex.Answered then 1 else 0
  }

  predicate IsAnswered(delivery: nat -> Mutex.Delivery, from: nat, i: nat) {
    delivery(from + i) == Mutex.Answered
  }

  function AnsweredOnes(delivery: nat -> Mutex.Delivery, from: nat, len: nat): set<nat> {
    set i: nat | i < len && IsAnswered(delivery, from, i)
  }

  lemma {:induction false} AnsweredIsCount(delivery: nat -> Mutex.Delivery, from: nat, len: nat)
    ensures Answered(delivery, from, len) == |AnsweredOnes(delivery, from, len)|
  {
    if len > 0 {
      var n: nat := len - 1;
      AnsweredIsCount(delivery, from, n);
      AnsweredOnesGrow(delivery, from, n);
    }
  }

  lemma AnsweredOnesGrow(delivery: nat -> Mutex.Delivery, from: nat, n: nat)
    ensures var ones := AnsweredOnes(delivery, from, n);
            |AnsweredOnes(delivery, from, n + 1)| == |ones| + if IsAnswered(delivery, from, n) then 1 else 0
  {
    var ones := AnsweredOnes(delivery, from, n);
    assert AnsweredOnes(delivery, from, n + 1) == if IsAnswered(delivery, from, n) then ones + {n} else ones;
  }

  lemma {:induction false} AllAnswered(env: Environment, from: nat, len: nat)
    requires Reliable(env)
    ensures Answered(env.delivery, from, len) == len
  {
    if len > 0 {
      AllAnswered(env, from, len - 1);
    }
  }

  // ----------------------------------------------------------------------
  // What a disturbed release of all pairs really frees
  // ----------------------------------------------------------------------

  // The store after others' events; only those at the store change it.
  function AfterEvents(s: Store, events: seq<Event>): Store {
    if events == [] then s
    else
      var before, e := AfterEvents(s, events[..|events| - 1]), events[|events| - 1];
      if e.AtStore? then Next(before, e.op) else before
  }

  // Operations at the store all take place, in turn; other events leave it alone.
  lemma EventsTakePlace(s: Store, events: seq<Event>, e: Event)
    ensures AfterEvents(s, events + [e]) ==
            if e.AtStore? then Next(AfterEvents(s, events), e.op) else AfterEvents(s, events)
  {
    assert (events + [e])[..|events|] == events;
  }

  // The store after i releases, the first of them being step n, others acting
  // before each.
  function AfterReleases(s: Store, locks: seq<Bound>, env: Environment, n: nat, i: nat): Store
    requires i <= |locks|
  {
    if i == 0 then s
    else
      var at := AfterEvents(AfterReleases(s, locks, env, n, i - 1), env.between(n + i - 1));
      if env.delivery(n + i - 1) == Mutex.Failed(false) then at
      else Next(at, Release(locks[i - 1].key, locks[i - 1].token))
  }

  // Release i finds its pair's lock owned.
  predicate FindsOwned(s: Store, locks: seq<Bound>, env: Environment, n: nat, i: nat)
    requires i < |locks|
  {
    var at := AfterEvents(AfterReleases(s, locks, env, n, i), env.between(n + i));
    Owns(Lock(at, locks[i].key), at.now, locks[i].token)
  }

  // The releases that ran and freed a lock.
  function FreedOnes(s: Store, locks: seq<Bound>, env: Environment, n: nat): set<nat> {
    set i: nat | i < |locks| && env.delivery(n + i) != Mutex.Failed(false) && FindsOwned(s, locks, env, n, i)
  }

  predicate AllFindOwned(s: Store, locks: seq<Bound>, env: Environment, n: nat) {
    forall i: nat :: i < |locks| ==> FindsOwned(s, locks, env, n, i)
  }

  // On a store that answers, whatever others do: the count is the number of locks
  // this call freed exactly when every pair is owned as its own release runs;
  // otherwise it is larger.
  lemma CountIsExactUnderOthers(s: Store, locks: seq<Bound>, env: Environment, n: nat)
    requires Reliable(env)
    ensures |FreedOnes(s, locks, env, n)| <= |locks|
    ensures |FreedOnes(s, locks, env, n)| == |locks| <==> AllFindOwned(s, locks, env, n)
  {
    var freed, all := FreedOnes(s, locks, env, n), Range(|locks|);
    SubsetCount(freed, all);
    if freed == all {
      forall i: nat | i < |locks| ensures FindsOwned(s, locks, env, n, i) {
        assert i in all;
      }
    }
  }

  // What release_all, begun at (b0, s0), has done after i releases.
  ghost predicate Releasing(env: Environment, known: set<Token>, b0: Book, s0: Store, locks: seq<Bound>, n: nat, i: nat,
                            b: Book, s: Store, count: nat)
    requires i <= |locks|
  {
    && Moves(env, known, b0, b) && (Quiet(env) ==> b == b0)
    && AllReleased(env, s0, locks[..i], s)
    && s == AfterReleases(s0, locks, env, n, i)
    && count == Answered(env.delivery, n, i)
  }

  // Every pair is held and bound once when the call begins, yet time passes
  // before the release, and nothing is freed.
  lemma LapseDuringClose(s: Store, b: Bound, d: nat)
    requires Owns(Lock(s, b.key), s.now, b.token) && s.now + d >= Lock(s, b.key).value.expiry
    ensures var env := Environment(k => if k == 0 then [AtStore(Tick(d))] else [], _ => Mutex.Answered);
            && AllHeld(s, [b]) && DistinctKeys([b]) && |FreedKeys(s, [b])| == 1
            && FreedOnes(s, [b], env, 0) == {}
  {
    var env := Environment(k => if k == 0 then [AtStore(Tick(d))] else [], _ => Mutex.Answered);
    assert b in [b] && HeldThrough(s, b.key, [b]);
    assert FreedKeys(s, [b]) == {b.key};
    var events := env.between(0);
    assert events[..0] == [] && AfterEvents(s, []) == s;
    assert AfterEvents(s, events) == Next(s, Tick(d));
  }

  class SessionBook {
    var book: Book
    var now: nat
    var cells: map<Key, Cell>

    constructor ()
      ensures book == map[] && View() == Store(0, map[])
    {
      book, now, cells := map[], 0, map[];
    }

    function View(): Store
      reads this
    {
      Store(now, cells)
    }

    // register: the token is newly generated.
    method RegisterSession(token: Token, client: string, ttl: nat)
      modifies this`book
      ensures book == old(book)[token := Opened(client, ttl, now)]
      ensures book[token] == Entry(client, ttl, now, now, [])
      ensures Paced(old(book), now) ==> Paced(book, now)
    {
      book := book[token := Entry(client, ttl, now, now, [])];
    }

    method HeartbeatSession(token: Token) returns (r: HbResult)
      modifies this`book
      ensures token !in old(book) ==> r == Unknown && book == old(book)
      ensures token in old(book) ==>
                (book, r) == (old(book)[token := Beat(old(book)[token], now).0], Beat(old(book)[token], now).1)
      ensures r == Unknown <==> token !in old(book)
      ensures r == RateLimited <==> token in old(book) && now < old(book)[token].hbFloor
      ensures r == RateLimited ==> book == old(book)
      ensures r == Accepted ==>
                var e := old(book)[token];
                book == old(book)[token := Entry(e.client, e.ttl, now, now + e.ttl / 20, e.locks)]
      ensures Paced(old(book), now) ==> Paced(book, now)
    {
      if token !in book {
        return Unknown;
      }
      var entry := book[token];
      if now < entry.hbFloor {
        assert book[token := entry] == book;
        return RateLimited;
      }
      book := book[token := entry.(hbFloor := now + entry.ttl / 20, lastSeen := now)];
      r := Accepted;
    }

    // bind also counts as a sign of life.
    method BindLock(token: Token, key: Key, lockToken: Token) returns (ok: bool)
      modifies this`book
      ensures ok <==> token in old(book)
      ensures book == if ok then
                        var e := old(book)[token];
                        old(book)[token := e.(lastSeen := now, locks := e.locks + [Bound(key, lockToken)])]
                      else old(book)
      ensures Paced(old(book), now) ==> Paced(book, now)
    {
      if token !in book {
        return false;
      }
      var entry := book[token];
      book := book[token := entry.(lastSeen := now, locks := entry.locks + [Bound(key, lockToken)])];
      ok := true;
    }

    method Remove(token: Token) returns (locks: seq<Bound>)
      modifies this`book
      ensures book == old(book) - {token}
      ensures locks == if token in old(book) then old(book)[token].locks else []
    {
      locks := if token in book then book[token].locks else [];
      book := book - {token};
    }

    method PerformAtStore(op: Op)
      modifies this`now, this`cells
      ensures View() == Next(old(View()), op)
    {
      var s := Next(View(), op);
      now, cells := s.now, s.cells;
    }

    // unlock_with_token
    method Unlock(b: Bound, d: Mutex.Delivery) returns (answered: bool)
      modifies this`now, this`cells
      ensures View() == if d == Mutex.Failed(false) then old(View()) else Next(old(View()), Release(b.key, b.token))
      ensures answered <==> d == Mutex.Answered
    {
      if d != Mutex.Failed(false) {
        PerformAtStore(Release(b.key, b.token));
      }
      answered := d == Mutex.Answered;
    }

    method OneEvent(env: Environment, n: nat, i: nat, ghost known: set<Token>)
      requires NewTokens(env, known) && i < |env.between(n)|
      modifies this
      ensures Moves(env, known, old(book), book) && NoRevival(env, old(View()), View())
      ensures View() == if env.between(n)[i].AtStore? then Next(old(View()), env.between(n)[i].op) else old(View())
    {
      ghost var e1 := Opened("", 0, 0);
      match env.between(n)[i] {
        case Register(t, client, ttl) =>
          RegisterSession(t, client, ttl);
          e1 := book[t];
        case Heartbeat(t) =>
          var _ := HeartbeatSession(t);
          e1 := if t in book then book[t] else e1;
        case Bind(t, k, lt) =>
          var _ := BindLock(t, k, lt);
          e1 := if t in book then book[t] else e1;
        case Close(t) =>
          var _ := Remove(t);
        case AtStore(op) =>
          PerformAtStore(op);
          OpRevivesNothing(env, old(View()), n, i);
      }
      EventMoves(env, known, old(book), n, i, book, e1);
    }

    // Other callers' turn before step n.
    method Others(env: Environment, n: nat, ghost known: set<Token>)
      requires NewTokens(env, known)
      modifies this
      ensures Moves(env, known, old(book), book) && NoRevival(env, old(View()), View())
      ensures Quiet(env) ==> View() == old(View()) && book == old(book)
      ensures View() == AfterEvents(old(View()), env.between(n))
    {
      ghost var events := env.between(n);
      for i := 0 to |env.between(n)|
        invariant Moves(env, known, old(book), book) && NoRevival(env, old(View()), View())
        invariant i == 0 ==> View() == old(View()) && book == old(book)
        invariant View() == AfterEvents(old(View()), events[..i])
      {
        assert events[..i + 1][..i] == events[..i];
        OneEvent(env, n, i, known);
      }
      assert events[..|events|] == events;
    }

    // release_all, from step n on: the count is of answers, whether or not a lock
    // was still there to free.
    method ReleaseAll(locks: seq<Bound>, env: Environment, n: nat, ghost known: set<Token>) returns (count: nat)
      requires NewTokens(env, known)
      modifies this
      ensures Moves(env, known, old(book), book) && (Quiet(env) ==> book == old(book))
      ensures AllReleased(env, old(View()), locks, View())
      ensures View() == AfterReleases(old(View()), locks, env, n, |locks|)
      ensures count == Answered(env.delivery, n, |locks|) == |AnsweredOnes(env.delivery, n, |locks|)|
      ensures Reliable(env) ==>
                && count == |locks| >= |FreedOnes(old(View()), locks, env, n)|
                && (count == |FreedOnes(old(View()), locks, env, n)| <==> AllFindOwned(old(View()), locks, env, n))
    {
      count := 0;
      for i := 0 to |locks|
        invariant Releasing(env, known, old(book), old(View()), locks, n, i, book, View(), count)
      {
        count := ReleaseNext(locks, env, n, i, count, known, old(book), old(View()));
      }
      assert locks[..|locks|] == locks;
      AnsweredIsCount(env.delivery, n, |locks|);
      if Reliable(env) {
        AllAnswered(env, n, |locks|);
        CountIsExactUnderOthers(old(View()), locks, env, n);
      }
    }

    method ReleaseNext(locks: seq<Bound>, env: Environment, n: nat, i: nat, count: nat,
                       ghost known: set<Token>, ghost b0: Book, ghost s0: Store)
      returns (count': nat)
      requires NewTokens(env, known) && i < |locks|
      requires Releasing(env, known, b0, s0, locks, n, i, book, View(), count)
      modifies this
      ensures Releasing(env, known, b0, s0, locks, n, i + 1, book, View(), count')
    {
      Others(env, n + i, known);
      ghost var at := View();
      var answered := Unlock(locks[i], env.delivery(n + i));
      OneMoreReleased(env, s0, locks[..i], old(View()), at, locks[i], View());
      assert locks[..i + 1] == locks[..i] + [locks[i]];
      count' := count + if answered then 1 else 0;
    }

    // close: the count is exact when every pair is owned as its own release runs;
    // undisturbed, when every bound key is held through the session and bound once.
    method CloseSession(token: Token, env: Environment) returns (count: nat)
      requires NewTokens(env, book.Keys)
      modifies this
      ensures var locks := if token in old(book) then old(book)[token].locks else [];
              && AllReleased(env, old(View()), locks, View())
              && View() == AfterReleases(old(View()), locks, env, 0, |locks|)
              && count == |AnsweredOnes(env.delivery, 0, |locks|)|
              && (Reliable(env) ==>
                    && count == |locks| >= |FreedOnes(old(View()), locks, env, 0)|
                    && (count == |FreedOnes(old(View()), locks, env, 0)| <==> AllFindOwned(old(View()), locks, env, 0)))
              && (Reliable(env) && Quiet(env) ==>
                    (count == |FreedKeys(old(View()), locks)| <==> AllHeld(old(View()), locks) && DistinctKeys(locks)))
      ensures Moves(env, old(book).Keys, old(book) - {token}, book) && (token in old(book) ==> token !in book)
    {
      var locks := Remove(token);
      count := ReleaseAll(locks, env, 0, old(book).Keys);
      CountIsExact(old(View()), locks);
    }

    // The sweep's second half: the sessions found expired go, in no particular order.
    method Reap(pending: set<Token>, env: Environment)
      requires NewTokens(env, book.Keys) && pending <= book.Keys
      modifies this
      ensures Sweeping(env, old(book), old(View()), pending, {}, book, View())
    {
      var left := pending;
      var n: nat := 0;
      assert (map t | t in book && t !in pending - pending :: book[t]) == book;
      while left != {}
        invariant Sweeping(env, old(book), old(View()), pending, left, book, View())
      {
        var token :| token in left;
        n := ReapOne(token, env, n, old(book), old(View()), pending, left);
        left := left - {token};
      }
    }

    method ReapOne(token: Token, env: Environment, n: nat, ghost b0: Book, ghost s0: Store, ghost doomed: set<Token>,
                   ghost left: set<Token>)
      returns (next: nat)
      requires NewTokens(env, b0.Keys) && token in left
      requires Sweeping(env, b0, s0, doomed, left, book, View())
      modifies this
      ensures Sweeping(env, b0, s0, doomed, left - {token}, book, View())
    {
      Others(env, n, b0.Keys);
      next := n + 1;
      SweepingMoves(env, b0, s0, doomed, left, old(book), old(View()), book, View());
      ghost var b, s := book, View();
      if token in book {
        var locks := Remove(token);
        var _ := ReleaseAll(locks, env, next, b0.Keys);
        next := next + |locks|;
      } else {
        assert book - {token} == book;
      }
      SweptOne(env, b0, s0, doomed, left, b, s, token, book, View());
    }

    // sweep_once, with others acting before each session is taken and before each
    // release. Of the sessions nobody else closes, exactly those expired at the
    // start go, and those nobody touches stay as they were; whatever a swept
    // session had bound is no longer owned under that token; undisturbed, exactly
    // the expired sessions are closed.
    method SweepOnce(env: Environment)
      requires NewTokens(env, book.Keys)
      modifies this
      ensures forall t :: t in old(book) && Expired(old(book)[t], old(now)) ==> t !in book
      ensures forall t :: t in old(book) && NotClosed(env, t) ==>
                (t !in book <==> old(now) > old(book)[t].lastSeen + old(book)[t].ttl)
      ensures forall t :: t in old(book) && !Expired(old(book)[t], old(now)) && Undisturbed(env, t) ==>
                t in book && book[t] == old(book)[t]
      ensures Reliable(env) ==> LocksSwept(env, old(book), ExpiredSessions(old(book), old(now)), View())
      ensures Quiet(env) && Reliable(env) ==>
                Closed(old(book), old(View()), ExpiredSessions(old(book), old(now)), book, View())
    {
      var expired := ExpiredSessions(book, now);
      Reap(expired, env);
      assert expired - {} == expired;
    }

    // A heartbeat between the two halves is accepted from every expired session,
    // and saves none.
    method LateHeartbeat(t: Token) returns (answer: HbResult)
      requires Paced(book, now) && t in book && Expired(book[t], now)
      modifies this
      ensures answer == Accepted && t !in book
    {
      var expired := ExpiredSessions(book, now);
      LateBeatRevives(book[t], now);
      answer := HeartbeatSession(t);
      Reap(expired, Undisturbing);
    }
  }
}
